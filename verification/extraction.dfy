/** The TypeScript `DatasetExtractor`: validation of a caller's query
    configuration against the dataset metadata, batching of the postal
    codes, and the batched extraction that tolerates failed batches. */
module Extraction {
  import opened Wrappers
  import opened Sequences
  import opened Models
  import opened PostalCodes
  import opened Queries
  import opened Http

  /** Postal codes per request unless the caller says otherwise. */
  const DEFAULT_BATCH_SIZE: int := 30

  /** Pause between two consecutive batch requests, in milliseconds. */
  const BATCH_DELAY_MS: nat := 500

  /** `variables.find(v => v.code === code)`: the first variable with the
      code, if any. */
  function FindVariable(vars: seq<Variable>, code: string): (r: Option<Variable>)
    ensures r.None? <==> forall i :: 0 <= i < |vars| ==> vars[i].code != code
    ensures r.Some? ==> exists i :: 0 <= i < |vars| && vars[i] == r.value && r.value.code == code &&
                                    forall j :: 0 <= j < i ==> vars[j].code != code
    decreases |vars|
  {
    if |vars| == 0 then None
    else if vars[0].code == code then Some(vars[0])
    else
      var r := FindVariable(vars[1..], code);
      assert r.Some? ==> exists i :: 1 <= i < |vars| && vars[i] == r.value && r.value.code == code &&
                                     forall j :: 0 <= j < i ==> vars[j].code != code by {
        if r.Some? {
          var i :| 0 <= i < |vars| - 1 && vars[1..][i] == r.value && r.value.code == code &&
                   forall j :: 0 <= j < i ==> vars[1..][j].code != code;
          assert forall j :: 0 <= j < i + 1 ==> vars[j].code != code by {
            forall j | 0 <= j < i + 1
              ensures vars[j].code != code
            {
              if j > 0 {
                assert vars[j] == vars[1..][j - 1];
              }
            }
          }
        }
      }
      r
  }

  /** `out` keeps exactly the codes of `input` that `declared` lists: in
      their order, each as often as in `input`, and nothing else. */
  ghost predicate IsRestriction(out: seq<string>, input: seq<string>, declared: seq<string>)
  {
    && IsSubsequence(out, input)
    && forall x :: multiset(out)[x] == if x in declared then multiset(input)[x] else 0
  }

  /** `codes.filter(c => declared.includes(c))`. */
  function KeepDeclared(codes: seq<string>, declared: seq<string>): (r: seq<string>)
    ensures IsRestriction(r, codes, declared)
    decreases |codes|
  {
    if |codes| == 0 then []
    else
      var rest := KeepDeclared(codes[1..], declared);
      assert codes == [codes[0]] + codes[1..];
      if codes[0] in declared then
        assert ([codes[0]] + rest)[1..] == rest;
        [codes[0]] + rest
      else
        rest
  }

  /** The restriction is unique: any sequence meeting the description is
      the filter's result. */
  lemma {:induction false} RestrictionIsKeepDeclared(out: seq<string>, input: seq<string>, declared: seq<string>)
    requires IsRestriction(out, input, declared)
    ensures out == KeepDeclared(input, declared)
    decreases |input|
  {
    if |input| == 0 {
      assert |out| == 0;
    } else {
      var x := input[0];
      var rest := input[1..];
      assert input == [x] + rest;
      if x in declared {
        assert multiset(out)[x] == multiset(rest)[x] + 1;
        if !(|out| > 0 && out[0] == x && IsSubsequence(out[1..], rest)) {
          assert IsSubsequence(out, rest);
          SubsequenceMultiset(out, rest);
          assert false;
        }
        assert out == [x] + out[1..];
        forall y
          ensures multiset(out[1..])[y] == if y in declared then multiset(rest)[y] else 0
        {
          assert multiset(out)[y] == multiset(out[1..])[y] + (if y == x then 1 else 0);
        }
        RestrictionIsKeepDeclared(out[1..], rest, declared);
      } else {
        if |out| > 0 && out[0] == x {
          assert false;
        }
        assert IsSubsequence(out, rest);
        RestrictionIsKeepDeclared(out, rest, declared);
      }
    }
  }

  /** A validated configuration with the diagnostic counts of dropped
      postal codes and years. */
  datatype Validation = Validation(config: QueryConfig, droppedPostalCodes: int, droppedYears: int)

  /** `validateConfig`: postal codes, years and building types (defaulted
      first) are restricted to the values of the first metadata variable of
      the matching code; an axis without such a variable is left as is.
      Metrics are not validated. */
  function ValidateConfig(metadata: DatasetMetadata, config: QueryConfig): (v: Validation)
    ensures var postalVar := FindVariable(metadata.variables, POSTAL_CODE);
      if postalVar.Some? then IsRestriction(v.config.postalCodes, config.postalCodes, postalVar.value.values)
      else v.config.postalCodes == config.postalCodes
    ensures var yearVar := FindVariable(metadata.variables, YEAR);
      if yearVar.Some? then IsRestriction(v.config.years, config.years, yearVar.value.values)
      else v.config.years == config.years
    ensures var typeVar := FindVariable(metadata.variables, BUILDING_TYPE);
      var requested := config.buildingTypes.GetOr(DEFAULT_BUILDING_TYPES);
      && v.config.buildingTypes.Some?
      && if typeVar.Some? then IsRestriction(v.config.buildingTypes.value, requested, typeVar.value.values)
         else v.config.buildingTypes.value == requested
    ensures v.config.metrics == config.metrics
    ensures v.droppedPostalCodes == |config.postalCodes| - |v.config.postalCodes| >= 0
    ensures v.droppedYears == |config.years| - |v.config.years| >= 0
  {
    var postalVar := FindVariable(metadata.variables, POSTAL_CODE);
    var yearVar := FindVariable(metadata.variables, YEAR);
    var typeVar := FindVariable(metadata.variables, BUILDING_TYPE);
    var validPostal := if postalVar.Some? then KeepDeclared(config.postalCodes, postalVar.value.values) else config.postalCodes;
    var validYears := if yearVar.Some? then KeepDeclared(config.years, yearVar.value.values) else config.years;
    var buildingTypes := config.buildingTypes.GetOr(DEFAULT_BUILDING_TYPES);
    var validTypes := if typeVar.Some? then KeepDeclared(buildingTypes, typeVar.value.values) else buildingTypes;
    SubsequenceLength(validPostal, config.postalCodes);
    SubsequenceLength(validYears, config.years);
    Validation(
      config.(postalCodes := validPostal, years := validYears, buildingTypes := Some(validTypes)),
      |config.postalCodes| - |validPostal|,
      |config.years| - |validYears|)
  }

  lemma SubsequenceLength(a: seq<string>, b: seq<string>)
    requires a == b || IsSubsequence(a, b)
    ensures |a| <= |b|
  {
    if a != b {
      SubsequenceMultiset(a, b);
      assert |multiset(a)| <= |multiset(b)|;
    }
  }

  /** `chunk`: consecutive slices of `size` elements, the last one possibly
      shorter; as many chunks as `size` fits into the input, rounded up. The
      source loop never ends for a non-positive size unless the input is
      empty. */
  function Chunk<T>(arr: seq<T>, size: int): (chunks: seq<seq<T>>)
    requires size > 0 || |arr| == 0
    ensures forall i :: 0 <= i < |chunks| ==> 0 < |chunks[i]| <= size
    ensures forall i :: 0 <= i < |chunks| - 1 ==> |chunks[i]| == size
    decreases |arr|
  {
    if |arr| == 0 then []
    else if |arr| <= size then [arr]
    else [arr[..size]] + Chunk(arr[size..], size)
  }

  /** The batches concatenate back to the input: no postal code is lost,
      repeated or moved. */
  lemma {:induction false} ChunkFlatten<T>(arr: seq<T>, size: int)
    requires size > 0 || |arr| == 0
    ensures Flatten(Chunk(arr, size)) == arr
    decreases |arr|
  {
    if |arr| == 0 {
    } else if |arr| <= size {
      assert Flatten([arr]) == arr + Flatten([arr][1..]);
    } else {
      var rest := Chunk(arr[size..], size);
      ChunkFlatten(arr[size..], size);
      assert ([arr[..size]] + rest)[1..] == rest;
      assert arr == arr[..size] + arr[size..];
    }
  }

  /** There are as many chunks as `size` fits into the input, rounded up. */
  lemma {:induction false} ChunkCount<T>(arr: seq<T>, size: int)
    requires size > 0
    ensures (|Chunk(arr, size)| - 1) * size < |arr| <= |Chunk(arr, size)| * size
    decreases |arr|
  {
    if |arr| > size {
      var n := |Chunk(arr[size..], size)|;
      ChunkCount(arr[size..], size);
      assert |Chunk(arr, size)| == n + 1;
      MulPred(n + 1, size);
      MulPred(n, size);
    }
  }

  /** Chunk `i` is the slice `arr[i * size .. (i + 1) * size]`, cut at the
      end of the input (JavaScript's `slice`). */
  lemma ChunkSlices<T>(arr: seq<T>, size: int, i: nat)
    requires size > 0 && i < |Chunk(arr, size)|
    ensures 0 <= i * size < |arr|
    ensures Chunk(arr, size)[i] == arr[i * size .. Min(i * size + size, |arr|)]
  {
    ChunkSlicesAt(arr, size, i);
    OffsetIsProduct(i, size);
  }

  /** `i` times `size`, as repeated addition. */
  function Offset(i: nat, size: int): int
  {
    if i == 0 then 0 else Offset(i - 1, size) + size
  }

  lemma {:induction false} OffsetIsProduct(i: nat, size: int)
    ensures Offset(i, size) == i * size
  {
    if i > 0 {
      OffsetIsProduct(i - 1, size);
      MulPred(i, size);
    }
  }

  lemma {:induction false} ChunkSlicesAt<T>(arr: seq<T>, size: int, i: nat)
    requires size > 0 && i < |Chunk(arr, size)|
    ensures 0 <= Offset(i, size) < |arr|
    ensures Chunk(arr, size)[i] == arr[Offset(i, size) .. Min(Offset(i, size) + size, |arr|)]
    decreases i
  {
    if i == 0 {
      ChunkHead(arr, size);
    } else {
      ChunkTail(arr, size, i);
      var c := Chunk(arr, size)[i];
      ChunkSlicesAt(arr[size..], size, i - 1);
      SliceOfSuffix(arr, size, Offset(i - 1, size), Offset(i, size), c);
    }
  }

  lemma ChunkHead<T>(arr: seq<T>, size: int)
    requires size > 0 && |Chunk(arr, size)| > 0
    ensures Chunk(arr, size)[0] == arr[..Min(size, |arr|)]
  {
  }

  lemma ChunkTail<T>(arr: seq<T>, size: int, i: nat)
    requires size > 0 && 0 < i < |Chunk(arr, size)|
    ensures |arr| > size && i - 1 < |Chunk(arr[size..], size)|
    ensures Chunk(arr, size)[i] == Chunk(arr[size..], size)[i - 1]
  {
  }

  lemma SliceOfSuffix<T>(arr: seq<T>, size: int, lo: int, hi: int, c: seq<T>)
    requires size > 0 && |arr| > size && 0 <= lo < |arr[size..]| && hi == lo + size
    requires c == arr[size..][lo .. Min(lo + size, |arr[size..]|)]
    ensures 0 <= hi < |arr| && c == arr[hi .. Min(hi + size, |arr|)]
  {
  }

  lemma MulPred(i: int, size: int)
    ensures (i - 1) * size + size == i * size
  {
  }

  function Min(a: int, b: int): int
  {
    if a <= b then a else b
  }

  /** 65 postal codes in batches of 30 make three batches of 30, 30 and 5. */
  lemma ChunkSixtyFive<T>(arr: seq<T>)
    requires |arr| == 65
    ensures var chunks := Chunk(arr, DEFAULT_BATCH_SIZE);
      |chunks| == 3 && |chunks[0]| == 30 && |chunks[1]| == 30 && |chunks[2]| == 5
  {
    ChunkCount(arr, DEFAULT_BATCH_SIZE);
    ChunkSlices(arr, DEFAULT_BATCH_SIZE, 2);
  }

  /** What a batched run does, in order: a POST of a query, or a pause. */
  datatype Event = Post(apiUrl: string, query: PxWebQuery) | Pause(ms: nat)

  /** The query of every batch: the validated configuration restricted to
      that batch's postal codes. */
  function BatchQueries(valid: QueryConfig, batches: seq<seq<string>>, format: string): (queries: seq<PxWebQuery>)
    ensures |queries| == |batches|
  {
    seq(|batches|, i requires 0 <= i < |batches| => BuildConfigQuery(valid.(postalCodes := batches[i]), format))
  }

  function Outcomes(endpoint: Endpoint, apiUrl: string, metadata: DatasetMetadata, queries: seq<PxWebQuery>,
                    format: string): (outcomes: seq<Result<RawDataset, ExtractError>>)
    ensures |outcomes| == |queries|
  {
    seq(|queries|, i requires 0 <= i < |queries| => ExecuteQuery(FetchOk, endpoint, apiUrl, metadata, queries[i], format))
  }

  /** The successful results, in order; failures are skipped. */
  function Successes(outcomes: seq<Result<RawDataset, ExtractError>>): (r: seq<RawDataset>)
    ensures |r| <= |outcomes|
    ensures (forall i :: 0 <= i < |outcomes| ==> outcomes[i].Success?) ==> |r| == |outcomes|
    ensures forall d :: d in r <==> exists i :: 0 <= i < |outcomes| && outcomes[i] == Success(d)
    decreases |outcomes|
  {
    if |outcomes| == 0 then []
    else
      var init := outcomes[..|outcomes| - 1];
      var last := outcomes[|outcomes| - 1];
      var r := Successes(init) + (if last.Success? then [last.value] else []);
      assert forall d :: (exists i :: 0 <= i < |outcomes| && outcomes[i] == Success(d)) ==>
                         (exists i :: 0 <= i < |init| && init[i] == Success(d)) || last == Success(d) by {
        forall d | exists i :: 0 <= i < |outcomes| && outcomes[i] == Success(d)
          ensures (exists i :: 0 <= i < |init| && init[i] == Success(d)) || last == Success(d)
        {
          var i :| 0 <= i < |outcomes| && outcomes[i] == Success(d);
          if i < |init| {
            assert init[i] == Success(d);
          }
        }
      }
      r
  }

  /** A single outcome contributes its dataset when it succeeded and
      nothing when it failed. */
  lemma SuccessesOne(o: Result<RawDataset, ExtractError>)
    ensures Successes([o]) == if o.Success? then [o.value] else []
  {
    assert [o][..0] == [];
  }

  /** The kept results of consecutive runs of batches are concatenated in
      run order: with `SuccessesOne`, the results are the successful
      datasets in batch order, each as often as it was returned. */
  lemma {:induction false} SuccessesAppend(x: seq<Result<RawDataset, ExtractError>>, y: seq<Result<RawDataset, ExtractError>>)
    ensures Successes(x + y) == Successes(x) + Successes(y)
    decreases |y|
  {
    if |y| == 0 {
      assert x + y == x;
    } else {
      var y', o := y[..|y| - 1], y[|y| - 1];
      assert y == y' + [o];
      assert x + y == (x + y') + [o];
      SuccessesSnoc(x + y', o);
      SuccessesSnoc(y', o);
      SuccessesAppend(x, y');
    }
  }

  lemma SuccessesSnoc(init: seq<Result<RawDataset, ExtractError>>, o: Result<RawDataset, ExtractError>)
    ensures Successes(init + [o]) == Successes(init) + if o.Success? then [o.value] else []
  {
    assert (init + [o])[..|init|] == init;
  }

  /** `trace` is what a run does for the first `done` of the `queries`: a
      POST for each, with a pause after each but the very last query's. */
  predicate Schedule(trace: seq<Event>, apiUrl: string, queries: seq<PxWebQuery>, done: nat)
  {
    && done <= |queries|
    && |trace| == (if done == |queries| && done > 0 then 2 * done - 1 else 2 * done)
    && forall k :: 0 <= k < |trace| ==>
         trace[k] == if k % 2 == 0 then Post(apiUrl, queries[k / 2]) else Pause(BATCH_DELAY_MS)
  }

  /** The events of a run after its first `done` queries, built request by
      request: the POST, then a pause unless that query was the last. */
  function Run(apiUrl: string, queries: seq<PxWebQuery>, done: nat): seq<Event>
    requires done <= |queries|
    decreases done
  {
    if done == 0 then []
    else Run(apiUrl, queries, done - 1) + [Post(apiUrl, queries[done - 1])]
         + (if done < |queries| then [Pause(BATCH_DELAY_MS)] else [])
  }

  /** The request-by-request run has the interleaved shape of `Schedule`. */
  lemma {:induction false} RunIsSchedule(apiUrl: string, queries: seq<PxWebQuery>, done: nat)
    requires done <= |queries|
    ensures Schedule(Run(apiUrl, queries, done), apiUrl, queries, done)
    decreases done
  {
    if done > 0 {
      var prev := Run(apiUrl, queries, done - 1);
      RunIsSchedule(apiUrl, queries, done - 1);
      assert |prev| == 2 * (done - 1);
      var trace := Run(apiUrl, queries, done);
      forall k | 0 <= k < |trace|
        ensures trace[k] == if k % 2 == 0 then Post(apiUrl, queries[k / 2]) else Pause(BATCH_DELAY_MS)
      {
        if k < |prev| {
          assert trace[k] == prev[k];
        } else if k == |prev| {
          assert k % 2 == 0 && k / 2 == done - 1;
        } else {
          assert k == |prev| + 1 && k % 2 == 1;
        }
      }
    }
  }

  /** The request loop of `extractBatched`: POSTs each query in order,
      pausing between consecutive requests but not after the last, and
      keeps the successful results in order, skipping failed ones. */
  method RunBatches(endpoint: Endpoint, metadata: DatasetMetadata, apiUrl: string,
                    queries: seq<PxWebQuery>, format: string)
    returns (results: seq<RawDataset>, trace: seq<Event>)
    ensures Schedule(trace, apiUrl, queries, |queries|)
    ensures results == Successes(Outcomes(endpoint, apiUrl, metadata, queries, format))
  {
    ghost var outcomes := Outcomes(endpoint, apiUrl, metadata, queries, format);
    results := [];
    trace := [];
    var i := 0;
    while i < |queries|
      invariant 0 <= i <= |queries|
      invariant trace == Run(apiUrl, queries, i)
      invariant results == Successes(outcomes[..i])
    {
      var outcome := ExecuteQuery(FetchOk, endpoint, apiUrl, metadata, queries[i], format);
      assert outcome == outcomes[i];
      var kept: seq<RawDataset> := if outcome.Success? then [outcome.value] else [];
      var pause: seq<Event> := if i < |queries| - 1 then [Pause(BATCH_DELAY_MS)] else [];
      results := results + kept;
      trace := trace + [Post(apiUrl, queries[i])] + pause;
      assert outcomes[..i + 1][..i] == outcomes[..i];
      i := i + 1;
    }
    assert outcomes[..i] == outcomes;
    RunIsSchedule(apiUrl, queries, i);
  }

  /** `extractBatched`: validates the configuration, splits its postal
      codes into batches and runs one query per batch; every result
      carries the requested format and the dataset's metadata. */
  method ExtractBatched(endpoint: Endpoint, metadata: DatasetMetadata, apiUrl: string, config: QueryConfig,
                        batchSize: int, format: string)
    returns (results: seq<RawDataset>, trace: seq<Event>)
    requires batchSize > 0 || |ValidateConfig(metadata, config).config.postalCodes| == 0
    ensures var valid := ValidateConfig(metadata, config).config;
      var queries := BatchQueries(valid, Chunk(valid.postalCodes, batchSize), format);
      && Schedule(trace, apiUrl, queries, |queries|)
      && results == Successes(Outcomes(endpoint, apiUrl, metadata, queries, format))
    ensures forall r :: r in results ==> r.format == format && r.metadata == metadata
  {
    var valid := ValidateConfig(metadata, config).config;
    var queries := BatchQueries(valid, Chunk(valid.postalCodes, batchSize), format);
    results, trace := RunBatches(endpoint, metadata, apiUrl, queries, format);
    ghost var outcomes := Outcomes(endpoint, apiUrl, metadata, queries, format);
    forall r | r in results
      ensures r.format == format && r.metadata == metadata
    {
      var k :| 0 <= k < |outcomes| && outcomes[k] == Success(r);
    }
  }

  /** A batched run POSTs once per batch and pauses one time fewer; with no
      validated postal code it makes no request and returns nothing. */
  lemma ScheduleCounts(trace: seq<Event>, apiUrl: string, queries: seq<PxWebQuery>)
    requires Schedule(trace, apiUrl, queries, |queries|)
    ensures |queries| == 0 ==> trace == []
    ensures |queries| > 0 ==> trace[|trace| - 1] == Post(apiUrl, queries[|queries| - 1])
    ensures forall i :: 0 <= i < |queries| ==> trace[2 * i] == Post(apiUrl, queries[i])
    ensures forall i :: 0 <= i < |queries| - 1 ==> trace[2 * i + 1] == Pause(BATCH_DELAY_MS)
  {
    if |queries| > 0 {
      SchedulePost(trace, apiUrl, queries, |queries| - 1);
    }
    SchedulePosts(trace, apiUrl, queries);
    SchedulePauses(trace, apiUrl, queries);
  }

  lemma SchedulePosts(trace: seq<Event>, apiUrl: string, queries: seq<PxWebQuery>)
    requires Schedule(trace, apiUrl, queries, |queries|)
    ensures forall i :: 0 <= i < |queries| ==> 2 * i < |trace| && trace[2 * i] == Post(apiUrl, queries[i])
  {
    forall i | 0 <= i < |queries|
      ensures 2 * i < |trace| && trace[2 * i] == Post(apiUrl, queries[i])
    {
      SchedulePost(trace, apiUrl, queries, i);
    }
  }

  lemma SchedulePauses(trace: seq<Event>, apiUrl: string, queries: seq<PxWebQuery>)
    requires Schedule(trace, apiUrl, queries, |queries|)
    ensures forall i :: 0 <= i < |queries| - 1 ==> 2 * i + 1 < |trace| && trace[2 * i + 1] == Pause(BATCH_DELAY_MS)
  {
    forall i | 0 <= i < |queries| - 1
      ensures 2 * i + 1 < |trace| && trace[2 * i + 1] == Pause(BATCH_DELAY_MS)
    {
      SchedulePause(trace, apiUrl, queries, i);
    }
  }

  lemma SchedulePost(trace: seq<Event>, apiUrl: string, queries: seq<PxWebQuery>, i: nat)
    requires Schedule(trace, apiUrl, queries, |queries|) && i < |queries|
    ensures 2 * i < |trace| && trace[2 * i] == Post(apiUrl, queries[i])
  {
    Halves(i);
  }

  lemma SchedulePause(trace: seq<Event>, apiUrl: string, queries: seq<PxWebQuery>, i: nat)
    requires Schedule(trace, apiUrl, queries, |queries|) && i + 1 < |queries|
    ensures 2 * i + 1 < |trace| && trace[2 * i + 1] == Pause(BATCH_DELAY_MS)
  {
    Halves(i);
  }

  lemma Halves(i: nat)
    ensures (2 * i) % 2 == 0 && (2 * i) / 2 == i && (2 * i + 1) % 2 == 1
  {
  }

  /** Across the requests of a batched run, the postal-code selections
      concatenate to the validated postal codes, and every request carries
      the validated years and building types and the configured or default
      metrics. */
  lemma BatchQueriesPartitionPostalCodes(valid: QueryConfig, batchSize: int, format: string)
    requires batchSize > 0
    ensures var batches := Chunk(valid.postalCodes, batchSize);
      var queries := BatchQueries(valid, batches, format);
      && (forall i :: 0 <= i < |queries| ==>
            && SelectionFor(queries[i].query, POSTAL_CODE) == Some(Selection(ITEM, batches[i]))
            && SelectionFor(queries[i].query, YEAR) == Some(Selection(ITEM, valid.years))
            && SelectionFor(queries[i].query, BUILDING_TYPE) == Some(Selection(ITEM, valid.buildingTypes.GetOr(DEFAULT_BUILDING_TYPES)))
            && SelectionFor(queries[i].query, METRIC) == Some(Selection(ITEM, valid.metrics.GetOr(DEFAULT_METRICS))))
      && Flatten(batches) == valid.postalCodes
  {
    var batches := Chunk(valid.postalCodes, batchSize);
    ChunkFlatten(valid.postalCodes, batchSize);
    forall i | 0 <= i < |batches|
      ensures var q := BuildConfigQuery(valid.(postalCodes := batches[i]), format).query;
        && SelectionFor(q, POSTAL_CODE) == Some(Selection(ITEM, batches[i]))
        && SelectionFor(q, YEAR) == Some(Selection(ITEM, valid.years))
        && SelectionFor(q, BUILDING_TYPE) == Some(Selection(ITEM, valid.buildingTypes.GetOr(DEFAULT_BUILDING_TYPES)))
        && SelectionFor(q, METRIC) == Some(Selection(ITEM, valid.metrics.GetOr(DEFAULT_METRICS)))
    {
      ConfigQueryAxes(valid.(postalCodes := batches[i]), format);
    }
  }

  /** Of three batches, a failed middle one is skipped: the results are
      the first and the third batch's, in that order. */
  lemma MiddleBatchFails(outcomes: seq<Result<RawDataset, ExtractError>>)
    requires |outcomes| == 3 && outcomes[0].Success? && outcomes[1].Failure? && outcomes[2].Success?
    ensures Successes(outcomes) == [outcomes[0].value, outcomes[2].value]
  {
    assert outcomes[..2][..1] == [outcomes[0]];
    assert outcomes[..2][..1][..0] == [];
  }

  /** Metadata declaring postal codes 00100 and 00200: a request for 00100
      and 00999 keeps 00100 and reports one dropped code. */
  lemma ValidationDropsUnknownCode(title: string)
    ensures var postal := Variable(POSTAL_CODE, "", ["00100", "00200"], [], None, None);
      var v := ValidateConfig(DatasetMetadata(title, [postal], None, None, None),
                              QueryConfig(["00100", "00999"], [], None, None));
      v.config.postalCodes == ["00100"] && v.droppedPostalCodes == 1
  {
    var postal := Variable(POSTAL_CODE, "", ["00100", "00200"], [], None, None);
    assert FindVariable([postal], POSTAL_CODE) == Some(postal);
    assert "00999" !in postal.values;
    assert KeepDeclared(["00100", "00999"], postal.values) == ["00100"] by {
      assert ["00100", "00999"][1..] == ["00999"];
      assert ["00999"][1..] == [];
    }
  }

  /** `extract`: one request with the default query (every value of every
      variable); a non-2xx status or a transport failure is the caller's
      error. */
  function Extract(endpoint: Endpoint, metadata: DatasetMetadata, apiUrl: string, format: string): (r: Result<RawDataset, ExtractError>)
    ensures var response := endpoint(apiUrl, BuildDefaultQuery(metadata, format));
      && (r.Success? <==> response.Received? && 200 <= response.status <= 299)
      && (r.Success? ==> r.value == RawDataset(format, response.body, metadata))
      && (r.Failure? && response.Received? ==> r.error == HttpError(response.status, response.body))
  {
    ExecuteQuery(FetchOk, endpoint, apiUrl, metadata, BuildDefaultQuery(metadata, format), format)
  }
}
