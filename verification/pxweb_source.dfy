/** The Kotlin `PxWebDatasetSource`: rewriting a PX-Web page URL into its
    API URL, and reading dataset metadata out of the API's JSON answer. The
    HTTP GET and the parsing of JSON text are not modelled: parsing starts
    from a JSON value tree. */
module PxWebSource {
  import opened Wrappers
  import opened Text
  import opened Models
  import opened Json
  import QueryJson

  const API_MARKER: string := "/api/v1/"
  const UI_PATH: string := "/PXWeb/pxweb/"
  const API_PATH: string := "/PXWeb/api/v1/"

  /** `convertToApiUrl`: trailing slashes are dropped; a URL that already
      holds "/api/v1/" is kept, any other has every "/PXWeb/pxweb/" turned
      into "/PXWeb/api/v1/": the text before the first occurrence is kept,
      that occurrence is rewritten, and the rest is rewritten the same way
      (`Text.ReplaceAllSplit`, `Text.ReplaceAllAbsent`). The split point
      `k` is the first occurrence (`Text.FirstAtIsFirstOccurrence`). */
  function ConvertToApiUrl(url: string): (r: string)
    ensures !EndsWith(r, '/')
    ensures Contains(TrimEnd(url, '/'), API_MARKER) ==> r == TrimEnd(url, '/')
    ensures !Contains(TrimEnd(url, '/'), UI_PATH) ==> r == TrimEnd(url, '/')
    ensures Contains(TrimEnd(url, '/'), UI_PATH) ==> Contains(r, API_MARKER)
    ensures var clean := TrimEnd(url, '/');
      !Contains(clean, API_MARKER) && Contains(clean, UI_PATH) ==>
        exists k: nat :: FirstAt(clean, UI_PATH, k) && k + |UI_PATH| <= |clean| &&
          r == clean[..k] + API_PATH + ReplaceAll(clean[k + |UI_PATH|..], UI_PATH, API_PATH)
  {
    var clean := TrimEnd(url, '/');
    if Contains(clean, API_MARKER) then clean
    else
      RewriteFacts(clean);
      ReplaceAll(clean, UI_PATH, API_PATH)
  }

  /** What the rewrite of a trimmed URL keeps and gains. */
  lemma RewriteFacts(clean: string)
    requires !EndsWith(clean, '/')
    ensures var r := ReplaceAll(clean, UI_PATH, API_PATH);
      && !EndsWith(r, '/')
      && (!Contains(clean, UI_PATH) ==> r == clean)
      && (Contains(clean, UI_PATH) ==> Contains(r, API_MARKER))
    ensures Contains(clean, UI_PATH) ==>
      exists k: nat :: FirstAt(clean, UI_PATH, k) && k + |UI_PATH| <= |clean| &&
        ReplaceAll(clean, UI_PATH, API_PATH)
          == clean[..k] + API_PATH + ReplaceAll(clean[k + |UI_PATH|..], UI_PATH, API_PATH)
  {
    RewriteKeepsEnd(clean);
    if Contains(clean, UI_PATH) {
      RewriteGainsMarker(clean);
      RewriteAtFirst(clean);
    } else {
      ReplaceAllAbsent(clean, UI_PATH, API_PATH);
    }
  }

  lemma RewriteKeepsEnd(clean: string)
    requires !EndsWith(clean, '/')
    ensures !EndsWith(ReplaceAll(clean, UI_PATH, API_PATH), '/')
  {
    if |clean| > 0 {
      ReplaceAllKeepsLast(clean, UI_PATH, API_PATH);
    } else {
      ReplaceAllAbsent(clean, UI_PATH, API_PATH);
    }
  }

  lemma RewriteGainsMarker(clean: string)
    requires Contains(clean, UI_PATH)
    ensures Contains(ReplaceAll(clean, UI_PATH, API_PATH), API_MARKER)
  {
    ReplaceAllPresent(clean, UI_PATH, API_PATH);
    ApiPathHoldsMarker(ReplaceAll(clean, UI_PATH, API_PATH));
  }

  lemma RewriteAtFirst(clean: string)
    requires Contains(clean, UI_PATH)
    ensures exists k: nat :: FirstAt(clean, UI_PATH, k) && k + |UI_PATH| <= |clean| &&
                             ReplaceAll(clean, UI_PATH, API_PATH)
                               == clean[..k] + API_PATH + ReplaceAll(clean[k + |UI_PATH|..], UI_PATH, API_PATH)
  {
    var k := FirstOccurrence(clean, UI_PATH).value;
    ReplaceAllSplit(clean, UI_PATH, API_PATH, k);
  }

  lemma ApiPathHoldsMarker(s: string)
    requires Contains(s, API_PATH)
    ensures Contains(s, API_MARKER)
  {
    ContainsWithin(s, API_PATH, API_MARKER, 6);
  }

  /** A string holding `p`, which holds `m` at offset `k`, holds `m`. */
  lemma {:induction false} ContainsWithin(s: string, p: string, m: string, k: nat)
    requires Contains(s, p) && k + |m| <= |p| && p[k..k + |m|] == m
    ensures Contains(s, m)
    decreases |s|
  {
    if StartsWith(s, p) {
      assert s[k..][..|m|] == m;
      ContainsAt(s, k, m);
    } else {
      ContainsWithin(s[1..], p, m, k);
      ContainsExtendLeft([s[0]], s[1..], m);
      assert [s[0]] + s[1..] == s;
    }
  }

  /** Converting an API URL again changes nothing. */
  lemma ConvertToApiUrlIdempotent(url: string)
    ensures ConvertToApiUrl(ConvertToApiUrl(url)) == ConvertToApiUrl(url)
  {
    var r := ConvertToApiUrl(url);
    TrimEndIdempotent(r, '/');
    var clean := TrimEnd(url, '/');
    if !Contains(clean, API_MARKER) && !Contains(clean, UI_PATH) {
      assert r == clean;
    }
  }

  /** Why metadata could not be read: a value of the wrong JSON kind where
      the Kotlin accessors (`jsonObject`, `jsonArray`, `jsonPrimitive`)
      throw. */
  datatype ParseError = NotAnObject(context: string) | NotAnArray(field: string) | NotAPrimitive(field: string)

  function PrimitiveContent(j: Json, field: string): (r: Result<string, ParseError>)
    ensures r.Success? <==> !j.JArray? && !j.JObject?
    ensures j.JNull? ==> r == Success("null")
    ensures j.JBool? ==> r == Success(if j.b then "true" else "false")
    ensures j.JNumber? ==> r == Success(j.literal)
    ensures j.JString? ==> r == Success(j.s)
    ensures r.Failure? ==> r.error == NotAPrimitive(field)
  {
    match Content(j)
    case Some(c) => Success(c)
    case None => Failure(NotAPrimitive(field))
  }

  /** The Kotlin accessors can read `key` of `o` as a primitive: it is
      absent, or neither an array nor an object. */
  predicate Readable(o: map<string, Json>, key: string)
  {
    key !in o || Content(o[key]).Some?
  }

  /** `key` of `o` can be read as a list of primitives: absent, or an array
      of primitives. JSON null is not an array. */
  predicate ReadableList(o: map<string, Json>, key: string)
  {
    key !in o || (o[key].JArray? && forall i :: 0 <= i < |o[key].items| ==> Content(o[key].items[i]).Some?)
  }

  /** `xs` is what `o[key]` holds as a list, element by element. */
  predicate ListRead(o: map<string, Json>, key: string, xs: seq<string>)
  {
    && (key !in o ==> xs == [])
    && (key in o ==>
          && o[key].JArray? && |xs| == |o[key].items|
          && forall i :: 0 <= i < |xs| ==> Content(o[key].items[i]) == Some(xs[i]))
  }

  /** `v` is what `contentOrNull` gives for `o[key]`: absent for a missing
      key or JSON null, the content otherwise. */
  predicate OptionalRead(o: map<string, Json>, key: string, v: Option<string>)
  {
    if key !in o || o[key] == JNull then v == None else Content(o[key]) == v
  }

  /** `b` is what `booleanOrNull` gives for `o[key]`. */
  predicate FlagRead(o: map<string, Json>, key: string, b: Option<bool>)
  {
    if key !in o then b == None else Content(o[key]).Some? && b == BooleanOrNull(Content(o[key]).value)
  }

  /** `o[key]?.jsonPrimitive?.content ?: default`. */
  function StringField(o: map<string, Json>, key: string, default: string): (r: Result<string, ParseError>)
    ensures r.Success? <==> Readable(o, key)
    ensures r.Success? ==> if key in o then Content(o[key]) == Some(r.value) else r.value == default
  {
    if key !in o then Success(default) else PrimitiveContent(o[key], key)
  }

  /** `o[key]?.jsonPrimitive?.contentOrNull`: JSON null reads as absent. */
  function OptionalStringField(o: map<string, Json>, key: string): (r: Result<Option<string>, ParseError>)
    ensures r.Success? <==> Readable(o, key)
    ensures r.Success? ==> OptionalRead(o, key, r.value)
  {
    if key !in o || o[key] == JNull then Success(None)
    else
      var c :- PrimitiveContent(o[key], key);
      Success(Some(c))
  }

  /** `o[key]?.jsonPrimitive?.booleanOrNull`. */
  function BooleanField(o: map<string, Json>, key: string): (r: Result<Option<bool>, ParseError>)
    ensures r.Success? <==> Readable(o, key)
    ensures r.Success? ==> FlagRead(o, key, r.value)
  {
    if key !in o then Success(None)
    else
      var c :- PrimitiveContent(o[key], key);
      Success(BooleanOrNull(c))
  }

  function Contents(items: seq<Json>, field: string): (r: Result<seq<string>, ParseError>)
    ensures r.Success? <==> forall i :: 0 <= i < |items| ==> Content(items[i]).Some?
    ensures r.Success? ==> |r.value| == |items| && forall i :: 0 <= i < |items| ==> r.value[i] == Content(items[i]).value
    decreases |items|
  {
    if |items| == 0 then Success([])
    else
      var head :- PrimitiveContent(items[0], field);
      var tail :- Contents(items[1..], field);
      assert forall i :: 1 <= i < |items| ==> items[i] == items[1..][i - 1];
      Success([head] + tail)
  }

  /** `o[key]?.jsonArray?.map { it.jsonPrimitive.content } ?: emptyList()`. */
  function StringListField(o: map<string, Json>, key: string): (r: Result<seq<string>, ParseError>)
    ensures r.Success? <==> ReadableList(o, key)
    ensures r.Success? ==> ListRead(o, key, r.value)
  {
    if key !in o then Success([])
    else if !o[key].JArray? then Failure(NotAnArray(key))
    else Contents(o[key].items, key)
  }

  /** `parseVariable`: it fails exactly when the element is not an object or
      a present field has the wrong kind. A missing code or text reads as
      "", a missing value list as empty, and a missing or non-boolean flag
      as absent; present fields are read from their content. */
  function ParseVariable(j: Json): (r: Result<Variable, ParseError>)
    ensures r.Success? <==>
      && j.JObject?
      && Readable(j.fields, "code") && Readable(j.fields, "text")
      && ReadableList(j.fields, "values") && ReadableList(j.fields, "valueTexts")
      && Readable(j.fields, "elimination") && Readable(j.fields, "time")
    ensures r.Success? ==> var o := j.fields;
      && ("code" !in o ==> r.value.code == "")
      && ("text" !in o ==> r.value.text == "")
      && ("code" in o ==> Content(o["code"]) == Some(r.value.code))
      && ("text" in o ==> Content(o["text"]) == Some(r.value.text))
    ensures r.Success? ==> var o := j.fields;
      && ListRead(o, "values", r.value.values)
      && ListRead(o, "valueTexts", r.value.valueTexts)
      && FlagRead(o, "elimination", r.value.elimination)
      && FlagRead(o, "time", r.value.time)
  {
    if !j.JObject? then Failure(NotAnObject("variable"))
    else
      var o := j.fields;
      var code :- StringField(o, "code", "");
      var text :- StringField(o, "text", "");
      var values :- StringListField(o, "values");
      var valueTexts :- StringListField(o, "valueTexts");
      var elimination :- BooleanField(o, "elimination");
      var time :- BooleanField(o, "time");
      Success(Variable(code, text, values, valueTexts, elimination, time))
  }

  function ParseVariables(items: seq<Json>): (r: Result<seq<Variable>, ParseError>)
    ensures r.Success? <==> forall i :: 0 <= i < |items| ==> ParseVariable(items[i]).Success?
    ensures r.Success? ==> |r.value| == |items|
    ensures r.Success? ==> forall i :: 0 <= i < |items| ==> ParseVariable(items[i]) == Success(r.value[i])
    decreases |items|
  {
    if |items| == 0 then Success([])
    else
      assert forall i :: 1 <= i < |items| ==> items[i] == items[1..][i - 1];
      var head :- ParseVariable(items[0]);
      var tail :- ParseVariables(items[1..]);
      Success([head] + tail)
  }

  /** `parseMetadata`: it fails exactly when the document is not an object,
      a present title, source, update time or description is not a
      primitive, or a present variable list is not an array of parsable
      variables. A missing title reads as "Unknown", a missing variable
      list as empty, a missing or null source, update time or description
      as absent; the variables keep their order. */
  function ParseMetadata(root: Json): (r: Result<DatasetMetadata, ParseError>)
    ensures r.Success? <==>
      && root.JObject?
      && Readable(root.fields, "title") && Readable(root.fields, "source")
      && Readable(root.fields, "updated") && Readable(root.fields, "description")
      && ("variables" in root.fields ==>
            && root.fields["variables"].JArray?
            && forall i :: 0 <= i < |root.fields["variables"].items| ==> ParseVariable(root.fields["variables"].items[i]).Success?)
    ensures r.Success? ==> var o := root.fields;
      && ("title" !in o ==> r.value.title == "Unknown")
      && ("title" in o ==> Content(o["title"]) == Some(r.value.title))
      && OptionalRead(o, "source", r.value.source)
      && OptionalRead(o, "updated", r.value.updated)
      && OptionalRead(o, "description", r.value.description)
    ensures r.Success? ==> var o := root.fields;
      && ("variables" !in o ==> r.value.variables == [])
      && ("variables" in o ==>
            && |r.value.variables| == |o["variables"].items|
            && forall i :: 0 <= i < |r.value.variables| ==> ParseVariable(o["variables"].items[i]) == Success(r.value.variables[i]))
  {
    if !root.JObject? then Failure(NotAnObject("metadata"))
    else
      var o := root.fields;
      var title :- StringField(o, "title", "Unknown");
      var source :- OptionalStringField(o, "source");
      var updated :- OptionalStringField(o, "updated");
      var description :- OptionalStringField(o, "description");
      var variables :-
        if "variables" !in o then Success([])
        else if !o["variables"].JArray? then Failure(NotAnArray("variables"))
        else ParseVariables(o["variables"].items);
      Success(DatasetMetadata(title, variables, source, updated, description))
  }

  /** A title that is present but JSON null is read as the text "null",
      not as the "Unknown" of a missing title; a null source is absent. */
  lemma NullTitleIsText()
    ensures ParseMetadata(JObject(map["title" := JNull, "source" := JNull]))
         == Success(DatasetMetadata("null", [], None, None, None))
  {
    var o := map["title" := JNull, "source" := JNull];
    assert StringField(o, "title", "Unknown") == Success("null");
    assert "variables" !in o && "updated" !in o && "description" !in o;
  }

  function EncodeOptionalString(key: string, s: Option<string>): map<string, Json>
  {
    if s.Some? then map[key := JString(s.value)] else map[]
  }

  function EncodeOptionalBool(key: string, b: Option<bool>): map<string, Json>
  {
    if b.Some? then map[key := JBool(b.value)] else map[]
  }

  /** The API's metadata document for a variable, absent flags omitted. */
  function EncodeVariable(v: Variable): Json
  {
    JObject(map[
      "code" := JString(v.code),
      "text" := JString(v.text),
      "values" := QueryJson.EncodeStrings(v.values),
      "valueTexts" := QueryJson.EncodeStrings(v.valueTexts)]
      + EncodeOptionalBool("elimination", v.elimination)
      + EncodeOptionalBool("time", v.time))
  }

  function EncodeVariables(vs: seq<Variable>): Json
  {
    JArray(seq(|vs|, i requires 0 <= i < |vs| => EncodeVariable(vs[i])))
  }

  /** The API's metadata document, absent fields omitted. */
  function EncodeMetadata(m: DatasetMetadata): Json
  {
    JObject(map[
      "title" := JString(m.title),
      "variables" := EncodeVariables(m.variables)]
      + EncodeOptionalString("source", m.source)
      + EncodeOptionalString("updated", m.updated)
      + EncodeOptionalString("description", m.description))
  }

  lemma ContentsRoundTrip(xs: seq<string>, field: string)
    ensures Contents(QueryJson.EncodeStrings(xs).items, field) == Success(xs)
  {
    var r := Contents(QueryJson.EncodeStrings(xs).items, field);
    assert r.Success?;
    assert r.value == xs;
  }

  lemma BooleanRoundTrip(b: bool)
    ensures BooleanOrNull(if b then "true" else "false") == Some(b)
  {
    assert EqualsIgnoringAsciiCase("true", "true");
    assert EqualsIgnoringAsciiCase("false", "false");
    if b {
      assert !EqualsIgnoringAsciiCase("true", "false");
    }
  }

  lemma VariableRoundTrip(v: Variable)
    ensures ParseVariable(EncodeVariable(v)) == Success(v)
  {
    var o := EncodeVariable(v).fields;
    VariableFields(v);
    ContentsRoundTrip(v.values, "values");
    ContentsRoundTrip(v.valueTexts, "valueTexts");
    FlagRoundTrip(o, "elimination", v.elimination);
    FlagRoundTrip(o, "time", v.time);
  }

  lemma VariableFields(v: Variable)
    ensures var o := EncodeVariable(v).fields;
      && StringField(o, "code", "") == Success(v.code)
      && StringField(o, "text", "") == Success(v.text)
      && "values" in o && o["values"] == QueryJson.EncodeStrings(v.values)
      && "valueTexts" in o && o["valueTexts"] == QueryJson.EncodeStrings(v.valueTexts)
      && (v.elimination.Some? <==> "elimination" in o)
      && (v.elimination.Some? ==> o["elimination"] == JBool(v.elimination.value))
      && (v.time.Some? <==> "time" in o)
      && (v.time.Some? ==> o["time"] == JBool(v.time.value))
  {
  }

  lemma FlagRoundTrip(o: map<string, Json>, key: string, flag: Option<bool>)
    requires flag.Some? <==> key in o
    requires flag.Some? ==> o[key] == JBool(flag.value)
    ensures BooleanField(o, key) == Success(flag)
  {
    if flag.Some? {
      BooleanRoundTrip(flag.value);
    }
  }

  /** Reading the document of a metadata value gives the value back: no
      field is lost or altered by the defaulting rules. */
  lemma MetadataRoundTrip(m: DatasetMetadata)
    ensures ParseMetadata(EncodeMetadata(m)) == Success(m)
  {
    var o := EncodeMetadata(m).fields;
    MetadataFields(m);
    VariablesRoundTrip(m.variables);
    ParseMetadataOfFields(o, m);
  }

  /** `parseMetadata` of an object whose every field reads as `m`'s. */
  lemma ParseMetadataOfFields(o: map<string, Json>, m: DatasetMetadata)
    requires StringField(o, "title", "Unknown") == Success(m.title)
    requires OptionalStringField(o, "source") == Success(m.source)
    requires OptionalStringField(o, "updated") == Success(m.updated)
    requires OptionalStringField(o, "description") == Success(m.description)
    requires "variables" in o && o["variables"].JArray? && ParseVariables(o["variables"].items) == Success(m.variables)
    ensures ParseMetadata(JObject(o)) == Success(m)
  {
  }

  lemma MetadataFields(m: DatasetMetadata)
    ensures var o := EncodeMetadata(m).fields;
      && StringField(o, "title", "Unknown") == Success(m.title)
      && "variables" in o && o["variables"] == EncodeVariables(m.variables)
      && OptionalStringField(o, "source") == Success(m.source)
      && OptionalStringField(o, "updated") == Success(m.updated)
      && OptionalStringField(o, "description") == Success(m.description)
  {
    MetadataRequired(m);
    assert StringField(EncodeMetadata(m).fields, "title", "Unknown") == Success(m.title);
    MetadataSource(m);
    MetadataUpdated(m);
    MetadataDescription(m);
  }

  lemma MetadataRequired(m: DatasetMetadata)
    ensures var o := EncodeMetadata(m).fields;
      && "title" in o && o["title"] == JString(m.title)
      && "variables" in o && o["variables"] == EncodeVariables(m.variables)
  {
  }

  lemma MetadataSource(m: DatasetMetadata)
    ensures OptionalStringField(EncodeMetadata(m).fields, "source") == Success(m.source)
  {
  }

  lemma MetadataUpdated(m: DatasetMetadata)
    ensures OptionalStringField(EncodeMetadata(m).fields, "updated") == Success(m.updated)
  {
  }

  lemma MetadataDescription(m: DatasetMetadata)
    ensures OptionalStringField(EncodeMetadata(m).fields, "description") == Success(m.description)
  {
  }

  lemma VariablesRoundTrip(vs: seq<Variable>)
    ensures ParseVariables(EncodeVariables(vs).items) == Success(vs)
  {
    var items := EncodeVariables(vs).items;
    forall i | 0 <= i < |items|
      ensures ParseVariable(items[i]) == Success(vs[i])
    {
      VariableRoundTrip(vs[i]);
    }
    var r := ParseVariables(items);
    assert r.Success?;
    assert r.value == vs;
  }
}
