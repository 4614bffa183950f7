/** The configuration of the housing-price extraction: municipalities and
    their postal codes, the year range to fetch, and the default building
    types and metrics. */
module PostalCodes {
  import opened Wrappers
  import opened Sequences
  import opened StringOrder
  import opened Decimal

  /** Municipality code to name. */
  const MUNICIPALITY_CODES: seq<(string, string)> := [
    ("091", "Helsinki"), ("049", "Espoo"), ("092", "Vantaa"), ("837", "Tampere"),
    ("604", "Pirkkala"), ("980", "Ylöjärvi"), ("211", "Kangasala"), ("536", "Nokia")
  ]

  const HELSINKI_POSTAL_CODES: seq<string> := [
    "00100", "00120", "00130", "00140", "00150", "00160", "00170", "00180",
    "00200", "00210", "00220", "00240", "00250", "00260", "00270", "00280", "00290",
    "00300", "00310", "00320", "00330", "00340", "00350", "00360", "00370", "00380", "00390",
    "00400", "00410", "00420", "00430", "00440",
    "00500", "00510", "00520", "00530", "00540", "00550", "00560", "00570", "00580", "00590",
    "00600", "00610", "00620", "00630", "00640", "00650", "00660", "00670", "00680", "00690",
    "00700", "00710", "00720", "00730", "00740", "00750", "00760", "00770", "00780", "00790",
    "00800", "00810", "00820", "00830", "00840", "00850", "00870", "00880", "00890",
    "00900", "00910", "00920", "00930", "00940", "00950", "00960", "00970", "00980", "00990"
  ]

  const ESPOO_POSTAL_CODES: seq<string> := [
    "02100", "02110", "02120", "02130", "02140", "02150", "02160", "02170", "02180",
    "02200", "02210", "02230", "02240", "02250", "02260", "02270", "02280",
    "02300", "02320", "02330", "02340", "02360", "02380",
    "02600", "02610", "02620", "02630", "02650", "02660", "02680",
    "02710", "02720", "02730", "02740", "02750", "02760", "02770", "02780",
    "02810", "02820", "02860", "02920", "02940", "02970"
  ]

  const VANTAA_POSTAL_CODES: seq<string> := [
    "01200", "01230", "01260", "01280",
    "01300", "01340", "01350", "01360", "01370", "01380", "01390",
    "01400", "01420", "01450", "01480", "01490",
    "01510", "01520", "01530",
    "01600", "01610", "01620", "01630", "01640", "01650", "01660", "01670", "01680", "01690",
    "01700", "01710", "01720", "01730", "01740", "01750", "01760"
  ]

  const TAMPERE_POSTAL_CODES: seq<string> := [
    "33100", "33180", "33200", "33210", "33230", "33240", "33250", "33270",
    "33300", "33310", "33330", "33340",
    "33400", "33410", "33420",
    "33500", "33520", "33530", "33540", "33560", "33580",
    "33610", "33680",
    "33700", "33710", "33720", "33730",
    "33800", "33820", "33840", "33850", "33870", "33900",
    "34240", "34260"
  ]

  const PIRKKALA_POSTAL_CODES: seq<string> := ["33920", "33950", "33960", "33980"]

  const YLOJARVI_POSTAL_CODES: seq<string> := [
    "33430", "33450", "33470", "33480",
    "34110", "34130", "34140",
    "34300",
    "39160", "39310", "39340"
  ]

  const KANGASALA_POSTAL_CODES: seq<string> := [
    "36100", "36110", "36200", "36220", "36240", "36270", "36280",
    "36420", "36430",
    "36810", "36840"
  ]

  const NOKIA_POSTAL_CODES: seq<string> := [
    "37100", "37120", "37130", "37140", "37150",
    "37200", "37240"
  ]

  /** Municipality name to its postal codes, in declaration order (the
      order `Object.keys` and `Object.values` report). */
  const MUNICIPALITY_POSTAL_CODES: seq<(string, seq<string>)> := [
    ("Helsinki", HELSINKI_POSTAL_CODES),
    ("Espoo", ESPOO_POSTAL_CODES),
    ("Vantaa", VANTAA_POSTAL_CODES),
    ("Tampere", TAMPERE_POSTAL_CODES),
    ("Pirkkala", PIRKKALA_POSTAL_CODES),
    ("Ylöjärvi", YLOJARVI_POSTAL_CODES),
    ("Kangasala", KANGASALA_POSTAL_CODES),
    ("Nokia", NOKIA_POSTAL_CODES)
  ]

  function Names(table: seq<(string, seq<string>)>): seq<string>
  {
    seq(|table|, i requires 0 <= i < |table| => table[i].0)
  }

  function CodeLists(table: seq<(string, seq<string>)>): seq<seq<string>>
  {
    seq(|table|, i requires 0 <= i < |table| => table[i].1)
  }

  /** The code table and the postal-code table list the same
      municipalities in the same order, and no code names two of them. */
  lemma MunicipalityCodesMatchTable()
    ensures |MUNICIPALITY_CODES| == |MUNICIPALITY_POSTAL_CODES|
    ensures forall i :: 0 <= i < |MUNICIPALITY_CODES| ==> MUNICIPALITY_CODES[i].1 == MUNICIPALITY_POSTAL_CODES[i].0
    ensures forall i, j :: 0 <= i < j < |MUNICIPALITY_CODES| ==> MUNICIPALITY_CODES[i].0 != MUNICIPALITY_CODES[j].0
  {
  }

  /** `MUNICIPALITIES`: the municipality names, sorted. */
  function Municipalities(): (r: seq<string>)
    ensures Sorted(r)
    ensures multiset(r) == multiset(Names(MUNICIPALITY_POSTAL_CODES))
  {
    Sort(Names(MUNICIPALITY_POSTAL_CODES))
  }

  /** The sorted municipality list, spelled out: sorting puts "Espoo" first
      and "Ylöjärvi" last. */
  lemma MunicipalitiesSpelledOut()
    ensures Municipalities() == SORTED_NAMES
  {
    DeclaredNames();
    SortedNamesPermuteDeclared();
    SortedNamesSorted();
    SortedPermutationUnique(Municipalities(), SORTED_NAMES);
  }

  const SORTED_NAMES: seq<string> :=
    ["Espoo", "Helsinki", "Kangasala", "Nokia", "Pirkkala", "Tampere", "Vantaa", "Ylöjärvi"]

  const DECLARED_NAMES: seq<string> :=
    ["Helsinki", "Espoo", "Vantaa", "Tampere", "Pirkkala", "Ylöjärvi", "Kangasala", "Nokia"]

  lemma DeclaredNames()
    ensures Names(MUNICIPALITY_POSTAL_CODES) == DECLARED_NAMES
  {
  }

  lemma SortedNamesPermuteDeclared()
    ensures multiset(DECLARED_NAMES) == multiset(SORTED_NAMES)
  {
    var e := SORTED_NAMES;
    assert DECLARED_NAMES == [e[1], e[0], e[6], e[5], e[4], e[7], e[2], e[3]];
    ReorderEight(e);
  }

  /** The reordering that takes the sorted names to the declared ones keeps
      every element. */
  lemma ReorderEight<T>(e: seq<T>)
    requires |e| == 8
    ensures multiset([e[1], e[0], e[6], e[5], e[4], e[7], e[2], e[3]]) == multiset(e)
  {
    var d := [e[1], e[0], e[6], e[5], e[4], e[7], e[2], e[3]];
    MultisetOfEight(e);
    MultisetOfEight(d);
    SumReorder(multiset{e[0]}, multiset{e[1]}, multiset{e[2]}, multiset{e[3]},
               multiset{e[4]}, multiset{e[5]}, multiset{e[6]}, multiset{e[7]});
  }

  lemma MultisetOfEight<T>(s: seq<T>)
    requires |s| == 8
    ensures multiset(s) == multiset{s[0]} + multiset{s[1]} + multiset{s[2]} + multiset{s[3]}
                         + multiset{s[4]} + multiset{s[5]} + multiset{s[6]} + multiset{s[7]}
  {
    assert s == [s[0]] + [s[1]] + [s[2]] + [s[3]] + [s[4]] + [s[5]] + [s[6]] + [s[7]];
  }

  lemma SumReorder<T>(m0: multiset<T>, m1: multiset<T>, m2: multiset<T>, m3: multiset<T>,
                      m4: multiset<T>, m5: multiset<T>, m6: multiset<T>, m7: multiset<T>)
    ensures m1 + m0 + m6 + m5 + m4 + m7 + m2 + m3 == m0 + m1 + m2 + m3 + m4 + m5 + m6 + m7
  {
  }

  lemma SortedNamesSorted()
    ensures Sorted(SORTED_NAMES)
  {
    var e := SORTED_NAMES;
    forall i | 0 <= i < |e| - 1
      ensures LessEq(e[i], e[i + 1])
    {
      assert e[i][0] < e[i + 1][0];
    }
    SortedFromAdjacent(e);
  }

  /** `ALL_POSTAL_CODES`: every municipality's codes, flattened and sorted. */
  function AllPostalCodes(): (r: seq<string>)
    ensures Sorted(r)
    ensures multiset(r) == multiset(Flatten(CodeLists(MUNICIPALITY_POSTAL_CODES)))
  {
    Sort(Flatten(CodeLists(MUNICIPALITY_POSTAL_CODES)))
  }

  /** `PKS_POSTAL_CODES`: the capital region, Helsinki then Espoo then
      Vantaa. These are the first three municipalities of the table. */
  function PksPostalCodes(): (r: seq<string>)
    ensures r == Flatten(CodeLists(MUNICIPALITY_POSTAL_CODES)[..3])
  {
    TableHead();
    HeadOfTable(MUNICIPALITY_POSTAL_CODES, HELSINKI_POSTAL_CODES, ESPOO_POSTAL_CODES, VANTAA_POSTAL_CODES);
    HELSINKI_POSTAL_CODES + ESPOO_POSTAL_CODES + VANTAA_POSTAL_CODES
  }

  /** Every capital-region code is among all postal codes. */
  lemma PksAmongAll()
    ensures forall c :: c in PksPostalCodes() ==> c in AllPostalCodes()
  {
    HeadAmongAll(MUNICIPALITY_POSTAL_CODES);
  }

  lemma HeadAmongAll(table: seq<(string, seq<string>)>)
    ensures |table| >= 3 ==>
      forall c :: c in Flatten(CodeLists(table)[..3]) ==> c in Sort(Flatten(CodeLists(table)))
  {
    if |table| >= 3 {
      PrefixMembers(CodeLists(table), 3);
    }
  }

  /** The codes of a table's first three rows are those rows' lists, in
      order, and each is among the table's sorted codes. */
  lemma HeadOfTable(table: seq<(string, seq<string>)>, a: seq<string>, b: seq<string>, c: seq<string>)
    requires |table| >= 3 && table[0].1 == a && table[1].1 == b && table[2].1 == c
    ensures a + b + c == Flatten(CodeLists(table)[..3])
  {
    FirstThree(table);
  }

  lemma TableHead()
    ensures |MUNICIPALITY_POSTAL_CODES| >= 3
    ensures MUNICIPALITY_POSTAL_CODES[0].1 == HELSINKI_POSTAL_CODES
    ensures MUNICIPALITY_POSTAL_CODES[1].1 == ESPOO_POSTAL_CODES
    ensures MUNICIPALITY_POSTAL_CODES[2].1 == VANTAA_POSTAL_CODES
  {
  }

  lemma FirstThree(table: seq<(string, seq<string>)>)
    requires |table| >= 3
    ensures Flatten(CodeLists(table)[..3]) == table[0].1 + table[1].1 + table[2].1
  {
    var three := CodeLists(table)[..3];
    assert three[1..][1..][1..] == [];
    assert Flatten(three[1..][1..]) == table[2].1;
    assert Flatten(three[1..]) == table[1].1 + table[2].1;
  }

  /** A code of the first `k` lists survives flattening and sorting. */
  lemma PrefixMembers(lists: seq<seq<string>>, k: nat)
    requires k <= |lists|
    ensures forall c :: c in Flatten(lists[..k]) ==> c in Sort(Flatten(lists))
  {
    FlattenPrefix(lists, k);
    forall c | c in Flatten(lists[..k])
      ensures c in Sort(Flatten(lists))
    {
      assert c in multiset(Flatten(lists));
      assert c in multiset(Sort(Flatten(lists)));
    }
  }

  lemma {:induction false} FlattenPrefix(ss: seq<seq<string>>, k: nat)
    requires k <= |ss|
    ensures Flatten(ss) == Flatten(ss[..k]) + Flatten(ss[k..])
    decreases k
  {
    if k == 0 {
      assert ss[..0] == [] && ss[0..] == ss;
    } else {
      FlattenPrefix(ss[1..], k - 1);
      assert ss[1..][..k - 1] == ss[..k][1..];
      assert ss[1..][k - 1..] == ss[k..];
    }
  }

  /** First year of the fetched range. */
  const FETCH_START_YEAR: int := 2018

  /** `generateYearRange`, with the current year as a parameter instead of
      the clock: the decimal renderings of FETCH_START_YEAR..currentYear,
      ascending; none when currentYear precedes FETCH_START_YEAR. */
  method GenerateYearRange(currentYear: int) returns (years: seq<string>)
    ensures |years| == if currentYear < FETCH_START_YEAR then 0 else currentYear - FETCH_START_YEAR + 1
    ensures forall i :: 0 <= i < |years| ==> Canonical(years[i]) && DecimalValue(years[i]) == FETCH_START_YEAR + i
    ensures forall i :: 0 <= i < |years| ==> years[i] == NatToDecimal(FETCH_START_YEAR + i)
  {
    years := [];
    var y := FETCH_START_YEAR;
    while y <= currentYear
      invariant FETCH_START_YEAR <= y
      invariant y <= currentYear + 1 || y == FETCH_START_YEAR
      invariant |years| == y - FETCH_START_YEAR
      invariant forall i :: 0 <= i < |years| ==> Canonical(years[i]) && DecimalValue(years[i]) == FETCH_START_YEAR + i
      invariant forall i :: 0 <= i < |years| ==> years[i] == NatToDecimal(FETCH_START_YEAR + i)
    {
      CanonicalUnique(IntToString(y));
      years := years + [IntToString(y)];
      y := y + 1;
    }
  }

  /** Default building types: "1", "2", "3" and "5". */
  const DEFAULT_BUILDING_TYPES: seq<string> := ["1", "2", "3", "5"]

  /** Default metrics: mean price per square metre and number of sales. */
  const DEFAULT_METRICS: seq<string> := ["keskihinta_aritm_nw", "lkm_julk20"]
}
