/** An abstract JSON value tree, as produced by a JSON parser (the text form
    and the parser itself are not modelled). An object is a map from keys to
    values, as kotlinx.serialization's `JsonObject` is. */
module Json {
  import opened Wrappers

  datatype Json =
    | JNull
    | JBool(b: bool)
    | JNumber(literal: string)
    | JString(s: string)
    | JArray(items: seq<Json>)
    | JObject(fields: map<string, Json>)

  /** `JsonPrimitive.content`: the text of a primitive; JSON `null` reads as
      the text "null". Arrays and objects are not primitives. */
  function Content(j: Json): Option<string>
  {
    match j
    case JNull => Some("null")
    case JBool(b) => Some(if b then "true" else "false")
    case JNumber(literal) => Some(literal)
    case JString(s) => Some(s)
    case _ => None
  }

  function LowerAscii(c: char): char
  {
    if 'A' <= c <= 'Z' then (c as int - 'A' as int + 'a' as int) as char else c
  }

  predicate EqualsIgnoringAsciiCase(a: string, b: string)
  {
    |a| == |b| && forall i :: 0 <= i < |a| ==> LowerAscii(a[i]) == LowerAscii(b[i])
  }

  /** `booleanOrNull` on a primitive's content: "true" or "false" in any
      letter case, otherwise no boolean. */
  function BooleanOrNull(content: string): (r: Option<bool>)
    ensures r == Some(true) <==> EqualsIgnoringAsciiCase(content, "true")
    ensures r == Some(false) <==> EqualsIgnoringAsciiCase(content, "false")
  {
    if EqualsIgnoringAsciiCase(content, "true") then Some(true)
    else if EqualsIgnoringAsciiCase(content, "false") then Some(false)
    else None
  }
}
