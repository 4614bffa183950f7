/** Construction of PX-Web queries. The TypeScript and the Kotlin extractor
    build the default and the latest-data query identically, so each builder
    is defined once here. */
module Queries {
  import opened Wrappers
  import opened Models
  import opened Decimal
  import opened PostalCodes

  /** The variable codes of the housing-price dataset's four axes. */
  const YEAR: string := "Vuosi"
  const POSTAL_CODE: string := "Postinumero"
  const BUILDING_TYPE: string := "Talotyyppi"
  const METRIC: string := "Tiedot"

  /** Filters of a selection: explicit codes, or the latest N. */
  const ITEM: string := "item"
  const TOP: string := "top"

  function Codes(selections: seq<VariableSelection>): (codes: seq<string>)
    ensures |codes| == |selections|
    ensures forall i :: 0 <= i < |codes| ==> codes[i] == selections[i].code
  {
    seq(|selections|, i requires 0 <= i < |selections| => selections[i].code)
  }

  /** What the server would read for `code`: the first selection naming it. */
  function SelectionFor(selections: seq<VariableSelection>, code: string): (r: Option<Selection>)
    ensures r.None? <==> code !in Codes(selections)
    ensures r.Some? ==> exists i :: 0 <= i < |selections| && selections[i] == VariableSelection(code, r.value) &&
                                    forall j :: 0 <= j < i ==> selections[j].code != code
    decreases |selections|
  {
    if |selections| == 0 then None
    else if selections[0].code == code then Some(selections[0].selection)
    else
      assert Codes(selections) == [selections[0].code] + Codes(selections[1..]);
      var r := SelectionFor(selections[1..], code);
      if r.Some? then FirstSelectionShift(selections, code, r.value); r else r
  }

  /** A first occurrence in the tail is a first occurrence in the whole
      sequence when the head names another variable. */
  lemma FirstSelectionShift(selections: seq<VariableSelection>, code: string, sel: Selection)
    requires |selections| > 0 && selections[0].code != code
    requires exists i :: 0 <= i < |selections| - 1 && selections[1..][i] == VariableSelection(code, sel) &&
                         forall j :: 0 <= j < i ==> selections[1..][j].code != code
    ensures exists i :: 0 <= i < |selections| && selections[i] == VariableSelection(code, sel) &&
                        forall j :: 0 <= j < i ==> selections[j].code != code
  {
    var i :| 0 <= i < |selections| - 1 && selections[1..][i] == VariableSelection(code, sel) &&
             forall j :: 0 <= j < i ==> selections[1..][j].code != code;
    assert selections[i + 1] == VariableSelection(code, sel);
    forall j | 0 <= j < i + 1
      ensures selections[j].code != code
    {
      if j > 0 {
        assert selections[j] == selections[1..][j - 1];
      }
    }
  }

  lemma SelectionForCons(s: VariableSelection, rest: seq<VariableSelection>, code: string)
    ensures SelectionFor([s] + rest, code) == if s.code == code then Some(s.selection) else SelectionFor(rest, code)
  {
    assert ([s] + rest)[1..] == rest;
  }

  /** Selects every value of one variable. */
  function SelectAll(v: Variable): VariableSelection
  {
    VariableSelection(v.code, Selection(ITEM, v.values))
  }

  /** `buildDefaultQuery`: all values of all variables. */
  function BuildDefaultQuery(metadata: DatasetMetadata, format: string): (q: PxWebQuery)
    ensures |q.query| == |metadata.variables|
    ensures forall i :: 0 <= i < |q.query| ==>
      q.query[i].code == metadata.variables[i].code &&
      q.query[i].selection == Selection(ITEM, metadata.variables[i].values)
    ensures q.response.format == format
  {
    var vars := metadata.variables;
    PxWebQuery(seq(|vars|, i requires 0 <= i < |vars| => SelectAll(vars[i])), ResponseFormat(format))
  }

  /** `buildConfigQuery`: the four axes in the order year, postal code,
      building type, metric, each as an explicit list. */
  function BuildConfigQuery(config: QueryConfig, format: string): (q: PxWebQuery)
    ensures Codes(q.query) == [YEAR, POSTAL_CODE, BUILDING_TYPE, METRIC]
    ensures forall i :: 0 <= i < |q.query| ==> q.query[i].selection.filter == ITEM
    ensures q.response.format == format
  {
    var buildingTypes := config.buildingTypes.GetOr(DEFAULT_BUILDING_TYPES);
    var metrics := config.metrics.GetOr(DEFAULT_METRICS);
    PxWebQuery(
      [ VariableSelection(YEAR, Selection(ITEM, config.years)),
        VariableSelection(POSTAL_CODE, Selection(ITEM, config.postalCodes)),
        VariableSelection(BUILDING_TYPE, Selection(ITEM, buildingTypes)),
        VariableSelection(METRIC, Selection(ITEM, metrics)) ],
      ResponseFormat(format))
  }

  /** The four axis codes are distinct, so each occurs once in a config
      query. */
  lemma AxisCodesDistinct()
    ensures YEAR != POSTAL_CODE && YEAR != BUILDING_TYPE && YEAR != METRIC
    ensures POSTAL_CODE != BUILDING_TYPE && POSTAL_CODE != METRIC && BUILDING_TYPE != METRIC
  {
    assert |YEAR| == 5 && |POSTAL_CODE| == 11 && |BUILDING_TYPE| == 10 && |METRIC| == 6;
  }

  /** Read back axis by axis, a config query selects the configured years
      and postal codes, and the configured building types and metrics or,
      where the config has none, the defaults. */
  lemma ConfigQueryAxes(config: QueryConfig, format: string)
    ensures var q := BuildConfigQuery(config, format).query;
      && SelectionFor(q, YEAR) == Some(Selection(ITEM, config.years))
      && SelectionFor(q, POSTAL_CODE) == Some(Selection(ITEM, config.postalCodes))
    ensures var q := BuildConfigQuery(config, format).query;
      && SelectionFor(q, BUILDING_TYPE) == Some(Selection(ITEM, config.buildingTypes.GetOr(DEFAULT_BUILDING_TYPES)))
      && SelectionFor(q, METRIC) == Some(Selection(ITEM, config.metrics.GetOr(DEFAULT_METRICS)))
  {
    var q := BuildConfigQuery(config, format).query;
    AxisCodesDistinct();
    assert q == [q[0]] + q[1..] && q[1..] == [q[1]] + q[2..] && q[2..] == [q[2]] + q[3..];
    assert q[1..][1..] == q[2..] && q[2..][1..] == q[3..];
    SelectionForCons(q[0], q[1..], POSTAL_CODE);
    SelectionForCons(q[0], q[1..], BUILDING_TYPE);
    SelectionForCons(q[1], q[2..], BUILDING_TYPE);
    SelectionForCons(q[0], q[1..], METRIC);
    SelectionForCons(q[1], q[2..], METRIC);
    SelectionForCons(q[2], q[3..], METRIC);
  }

  /** `buildLatestDataQuery`: the latest `topN` values of every variable
      flagged as time (flag exactly true), all values of every other. */
  function BuildLatestDataQuery(metadata: DatasetMetadata, topN: int, format: string): (q: PxWebQuery)
    ensures |q.query| == |metadata.variables|
    ensures Codes(q.query) == Codes(BuildDefaultQuery(metadata, format).query)
    ensures forall i :: 0 <= i < |q.query| ==>
      if metadata.variables[i].time == Some(true)
      then q.query[i].selection == Selection(TOP, [IntToString(topN)])
      else q.query[i] == BuildDefaultQuery(metadata, format).query[i]
    ensures q.response.format == format
  {
    var vars := metadata.variables;
    var selections := seq(|vars|, i requires 0 <= i < |vars| =>
      if vars[i].time == Some(true)
      then VariableSelection(vars[i].code, Selection(TOP, [IntToString(topN)]))
      else SelectAll(vars[i]));
    PxWebQuery(selections, ResponseFormat(format))
  }

  /** Against metadata whose codes are unique, the default query selects,
      for each variable, exactly its full value list, and names no other
      code. */
  lemma DefaultQuerySelectsEveryValue(metadata: DatasetMetadata, format: string, code: string)
    requires UniqueCodes(metadata.variables)
    ensures var q := BuildDefaultQuery(metadata, format).query;
      forall v :: v in metadata.variables ==> SelectionFor(q, v.code) == Some(Selection(ITEM, v.values))
    ensures var q := BuildDefaultQuery(metadata, format).query;
      SelectionFor(q, code).Some? <==> exists v :: v in metadata.variables && v.code == code
  {
    var q := BuildDefaultQuery(metadata, format).query;
    forall v | v in metadata.variables
      ensures SelectionFor(q, v.code) == Some(Selection(ITEM, v.values))
    {
      var k :| 0 <= k < |metadata.variables| && metadata.variables[k] == v;
      assert v.code in Codes(q) by {
        assert Codes(q)[k] == v.code;
      }
      var sel := SelectionFor(q, v.code).value;
      var i :| 0 <= i < |q| && q[i] == VariableSelection(v.code, sel);
      assert metadata.variables[i].code == v.code;
      assert i == k;
    }
    if SelectionFor(q, code).Some? {
      var i :| 0 <= i < |q| && q[i].code == code;
      assert metadata.variables[i] in metadata.variables;
    }
  }

  /** Without a variable flagged as time, the latest-data query is the
      default query. */
  lemma LatestWithoutTimeIsDefault(metadata: DatasetMetadata, topN: int, format: string)
    requires forall v :: v in metadata.variables ==> v.time != Some(true)
    ensures BuildLatestDataQuery(metadata, topN, format) == BuildDefaultQuery(metadata, format)
  {
    var l := BuildLatestDataQuery(metadata, topN, format);
    var d := BuildDefaultQuery(metadata, format);
    forall i | 0 <= i < |l.query|
      ensures l.query[i] == d.query[i]
    {
      assert metadata.variables[i] in metadata.variables;
    }
  }

  /** A variable whose time flag is absent or false gets its full value
      list; a time variable gets one value that reads back as `topN`. */
  lemma LatestSelectionByTimeFlag(metadata: DatasetMetadata, topN: int, format: string, i: nat)
    requires i < |metadata.variables|
    ensures var s := BuildLatestDataQuery(metadata, topN, format).query[i].selection;
      var v := metadata.variables[i];
      && (v.time == None || v.time == Some(false) ==> s == Selection(ITEM, v.values))
      && (v.time == Some(true) && topN >= 0 ==>
            s.filter == TOP && |s.values| == 1 && Canonical(s.values[0]) && DecimalValue(s.values[0]) == topN)
  {
  }
}
