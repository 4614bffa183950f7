/** The wire form of a query: the JSON object the clients serialise and
    POST, with the field names `query`, `response`, `code`, `selection`,
    `filter`, `values` and `format`. A reference decoder shows that the
    encoding loses no field. */
module QueryJson {
  import opened Wrappers
  import opened Models
  import opened Json

  function EncodeStrings(xs: seq<string>): Json
  {
    JArray(seq(|xs|, i requires 0 <= i < |xs| => JString(xs[i])))
  }

  function EncodeSelection(vs: VariableSelection): Json
  {
    JObject(map[
      "code" := JString(vs.code),
      "selection" := JObject(map[
        "filter" := JString(vs.selection.filter),
        "values" := EncodeStrings(vs.selection.values)])])
  }

  function EncodeQuery(q: PxWebQuery): Json
  {
    JObject(map[
      "query" := JArray(seq(|q.query|, i requires 0 <= i < |q.query| => EncodeSelection(q.query[i]))),
      "response" := JObject(map["format" := JString(q.response.format)])])
  }

  function DecodeString(j: Json): Option<string>
  {
    if j.JString? then Some(j.s) else None
  }

  function DecodeStrings(j: Json): Option<seq<string>>
  {
    if j.JArray? && forall i :: 0 <= i < |j.items| ==> j.items[i].JString? then
      Some(seq(|j.items|, i requires 0 <= i < |j.items| => j.items[i].s))
    else None
  }

  function DecodeSelection(j: Json): Option<VariableSelection>
  {
    if j.JObject? && "code" in j.fields && "selection" in j.fields then
      var sel := j.fields["selection"];
      if sel.JObject? && "filter" in sel.fields && "values" in sel.fields then
        var code :- DecodeString(j.fields["code"]);
        var filter :- DecodeString(sel.fields["filter"]);
        var values :- DecodeStrings(sel.fields["values"]);
        Some(VariableSelection(code, Selection(filter, values)))
      else None
    else None
  }

  function DecodeQuery(j: Json): Option<PxWebQuery>
  {
    if j.JObject? && "query" in j.fields && "response" in j.fields then
      var items := j.fields["query"];
      var response := j.fields["response"];
      if items.JArray? && response.JObject? && "format" in response.fields
        && forall i :: 0 <= i < |items.items| ==> DecodeSelection(items.items[i]).Some?
      then
        var format :- DecodeString(response.fields["format"]);
        Some(PxWebQuery(
          seq(|items.items|, i requires 0 <= i < |items.items| => DecodeSelection(items.items[i]).value),
          ResponseFormat(format)))
      else None
    else None
  }

  /** Decoding an encoded query gives the query back. */
  lemma QueryRoundTrip(q: PxWebQuery)
    ensures DecodeQuery(EncodeQuery(q)) == Some(q)
  {
    var items := EncodeQuery(q).fields["query"].items;
    forall i | 0 <= i < |items|
      ensures DecodeSelection(items[i]) == Some(q.query[i])
    {
      SelectionRoundTrip(q.query[i]);
    }
    assert DecodeQuery(EncodeQuery(q)).value.query == q.query;
  }

  lemma StringsRoundTrip(xs: seq<string>)
    ensures DecodeStrings(EncodeStrings(xs)) == Some(xs)
  {
    var items := EncodeStrings(xs).items;
    assert forall i :: 0 <= i < |items| ==> items[i] == JString(xs[i]);
    assert seq(|items|, i requires 0 <= i < |items| => items[i].s) == xs;
  }

  lemma SelectionRoundTrip(vs: VariableSelection)
    ensures DecodeSelection(EncodeSelection(vs)) == Some(vs)
  {
    StringsRoundTrip(vs.selection.values);
  }
}
