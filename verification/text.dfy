/** String operations of the Kotlin standard library used when rewriting a
    dataset URL: `trimEnd`, `contains` and `replace` (all occurrences, case
    sensitive). */
module Text {
  import opened Wrappers

  predicate StartsWith(s: string, prefix: string)
  {
    prefix <= s
  }

  predicate EndsWith(s: string, c: char)
  {
    |s| > 0 && s[|s| - 1] == c
  }

  /** `s` holds `p` at some position. */
  predicate Contains(s: string, p: string)
    decreases |s|
  {
    StartsWith(s, p) || (|s| > 0 && Contains(s[1..], p))
  }

  /** `s.trimEnd(c)`: drops every trailing `c`. */
  function TrimEnd(s: string, c: char): (r: string)
    ensures !EndsWith(r, c)
    ensures r <= s
    ensures forall i :: |r| <= i < |s| ==> s[i] == c
    decreases |s|
  {
    if EndsWith(s, c) then TrimEnd(s[..|s| - 1], c) else s
  }

  /** The leftmost position at which `s` holds `p`, if any: the occurrence
      `contains` finds and `replace` rewrites first. */
  function FirstOccurrence(s: string, p: string): (r: Option<nat>)
    ensures r.None? <==> !Contains(s, p)
    ensures r.Some? ==> r.value + |p| <= |s| && FirstAt(s, p, r.value)
    decreases |s|
  {
    if StartsWith(s, p) then Some(0)
    else if |s| == 0 then None
    else
      match FirstOccurrence(s[1..], p)
      case None => None
      case Some(k) => Some(k + 1)
  }

  /** `s` holds `p` at position `k` and at no earlier position. */
  predicate FirstAt(s: string, p: string, k: nat)
    decreases k
  {
    if k == 0 then StartsWith(s, p)
    else |s| > 0 && !StartsWith(s, p) && FirstAt(s[1..], p, k - 1)
  }

  /** `FirstAt` names the position `FirstOccurrence` finds, and no other. */
  lemma {:induction false} FirstAtIsFirstOccurrence(s: string, p: string, k: nat)
    requires FirstAt(s, p, k)
    ensures FirstOccurrence(s, p) == Some(k)
    decreases k
  {
    if k > 0 {
      FirstAtIsFirstOccurrence(s[1..], p, k - 1);
    }
  }

  /** `FirstAt` spelled out position by position. */
  lemma {:induction false} FirstAtMeans(s: string, p: string, k: nat)
    ensures FirstAt(s, p, k) <==>
      k + |p| <= |s| && StartsWith(s[k..], p) && forall j :: 0 <= j < k ==> !StartsWith(s[j..], p)
    decreases k
  {
    assert s[0..] == s;
    if k > 0 && |s| > 0 {
      FirstAtMeans(s[1..], p, k - 1);
      if k <= |s| {
        assert s[1..][k - 1..] == s[k..];
        assert forall j :: 1 <= j <= k ==> s[1..][j - 1..] == s[j..];
      }
    }
  }

  /** `s.replace(pattern, replacement)`: every non-overlapping occurrence of
      `pattern`, found scanning left to right, is replaced. */
  function ReplaceAll(s: string, pattern: string, replacement: string): string
    requires |pattern| > 0
    decreases |s|
  {
    if |s| < |pattern| then s
    else if StartsWith(s, pattern) then replacement + ReplaceAll(s[|pattern|..], pattern, replacement)
    else [s[0]] + ReplaceAll(s[1..], pattern, replacement)
  }

  lemma TrimEndIdempotent(s: string, c: char)
    requires !EndsWith(s, c)
    ensures TrimEnd(s, c) == s
  {
  }

  lemma {:induction false} ContainsAt(s: string, i: nat, p: string)
    requires i <= |s| && StartsWith(s[i..], p)
    ensures Contains(s, p)
    decreases i
  {
    if i == 0 {
      assert s[0..] == s;
    } else {
      assert s[1..][i - 1..] == s[i..];
      ContainsAt(s[1..], i - 1, p);
    }
  }

  lemma {:induction false} ContainsExtendLeft(t: string, s: string, p: string)
    requires Contains(s, p)
    ensures Contains(t + s, p)
    decreases |t|
  {
    if |t| == 0 {
      assert t + s == s;
    } else {
      assert (t + s)[1..] == t[1..] + s;
      ContainsExtendLeft(t[1..], s, p);
    }
  }

  /** Without an occurrence of the pattern, `replace` changes nothing. */
  lemma {:induction false} ReplaceAllAbsent(s: string, pattern: string, replacement: string)
    requires |pattern| > 0 && !Contains(s, pattern)
    ensures ReplaceAll(s, pattern, replacement) == s
    decreases |s|
  {
    if |s| >= |pattern| {
      ReplaceAllAbsent(s[1..], pattern, replacement);
      assert s == [s[0]] + s[1..];
    }
  }

  /** With an occurrence of the pattern, the result holds the replacement. */
  lemma {:induction false} ReplaceAllPresent(s: string, pattern: string, replacement: string)
    requires |pattern| > 0 && Contains(s, pattern)
    ensures Contains(ReplaceAll(s, pattern, replacement), replacement)
    decreases |s|
  {
    if StartsWith(s, pattern) {
      var rest := ReplaceAll(s[|pattern|..], pattern, replacement);
      assert (replacement + rest)[..|replacement|] == replacement;
    } else {
      ReplaceAllPresent(s[1..], pattern, replacement);
      ContainsExtendLeft([s[0]], ReplaceAll(s[1..], pattern, replacement), replacement);
    }
  }

  /** A string that does not end with the pattern's last character keeps
      its last character through the replacement. */
  lemma {:induction false} ReplaceAllKeepsLast(s: string, pattern: string, replacement: string)
    requires |pattern| > 0 && |s| > 0 && s[|s| - 1] != pattern[|pattern| - 1]
    ensures var r := ReplaceAll(s, pattern, replacement); |r| > 0 && r[|r| - 1] == s[|s| - 1]
    decreases |s|
  {
    if |s| < |pattern| {
    } else if StartsWith(s, pattern) {
      if |s| == |pattern| {
        assert false;
      }
      assert s[|pattern|..][|s[|pattern|..]| - 1] == s[|s| - 1];
      ReplaceAllKeepsLast(s[|pattern|..], pattern, replacement);
    } else {
      if |s| == 1 {
        assert ReplaceAll(s[1..], pattern, replacement) == s[1..];
      } else {
        ReplaceAllKeepsLast(s[1..], pattern, replacement);
      }
    }
  }

  /** `replace` rewrites the leftmost occurrence of the pattern, keeps what
      precedes it, and carries on after it. Together with
      `ReplaceAllAbsent` this determines the result on every input. */
  lemma ReplaceAllSplit(s: string, pattern: string, replacement: string, k: nat)
    requires |pattern| > 0 && FirstAt(s, pattern, k)
    ensures k + |pattern| <= |s|
    ensures ReplaceAll(s, pattern, replacement)
         == s[..k] + replacement + ReplaceAll(s[k + |pattern|..], pattern, replacement)
  {
    ReplaceAllSkipPrefix(s, pattern, replacement, k);
    ReplaceAllAtStart(s[k..], pattern, replacement);
    SplitSlices(s, k, |pattern|, replacement, ReplaceAll(s[k + |pattern|..], pattern, replacement));
  }

  /** Before the first occurrence, `replace` copies the text unchanged. */
  lemma {:induction false} ReplaceAllSkipPrefix(s: string, pattern: string, replacement: string, k: nat)
    requires |pattern| > 0 && FirstAt(s, pattern, k)
    ensures k + |pattern| <= |s| && StartsWith(s[k..], pattern)
    ensures ReplaceAll(s, pattern, replacement) == s[..k] + ReplaceAll(s[k..], pattern, replacement)
    decreases k
  {
    if k == 0 {
      assert s[..0] == [] && s[0..] == s;
    } else {
      ReplaceAllSkipPrefix(s[1..], pattern, replacement, k - 1);
      ReplaceAllSkip(s, pattern, replacement);
      ConsPrefix(s, k, ReplaceAll(s[k..], pattern, replacement));
    }
  }

  lemma ConsPrefix<T>(s: seq<T>, k: nat, rest: seq<T>)
    requires 0 < k <= |s|
    ensures s[1..][k - 1..] == s[k..]
    ensures [s[0]] + (s[1..][..k - 1] + rest) == s[..k] + rest
  {
    assert [s[0]] + s[1..][..k - 1] == s[..k];
  }

  lemma SplitSlices<T>(s: seq<T>, k: nat, m: nat, a: seq<T>, b: seq<T>)
    requires k + m <= |s|
    ensures s[k..][0 + m..] == s[k + m..]
    ensures s[..k] + (s[k..][..0] + a + b) == s[..k] + a + b
  {
    assert s[k..][..0] + a == a;
  }

  /** Where the pattern starts, `replace` puts the replacement first. */
  lemma ReplaceAllAtStart(s: string, pattern: string, replacement: string)
    requires |pattern| > 0 && StartsWith(s, pattern)
    ensures ReplaceAll(s, pattern, replacement)
         == s[..0] + replacement + ReplaceAll(s[0 + |pattern|..], pattern, replacement)
  {
    assert s[..0] + replacement == replacement;
  }

  /** `ReplaceAllSplit` at the position `FirstOccurrence` finds. */
  lemma ReplaceAllAtFirst(s: string, pattern: string, replacement: string)
    requires |pattern| > 0 && Contains(s, pattern)
    ensures var k := FirstOccurrence(s, pattern).value;
      ReplaceAll(s, pattern, replacement)
        == s[..k] + replacement + ReplaceAll(s[k + |pattern|..], pattern, replacement)
  {
    var k := FirstOccurrence(s, pattern).value;
    assert k + |pattern| <= |s| && FirstAt(s, pattern, k);
    ReplaceAllSplit(s, pattern, replacement, k);
  }

  /** Where the pattern does not start, `replace` keeps the first character. */
  lemma ReplaceAllSkip(s: string, pattern: string, replacement: string)
    requires |pattern| > 0 && |pattern| <= |s| && !StartsWith(s, pattern)
    ensures ReplaceAll(s, pattern, replacement) == [s[0]] + ReplaceAll(s[1..], pattern, replacement)
  {
  }
}
