/** JSON values as JavaScript sees them after `JSON.parse`, the few pieces of
    JavaScript semantics the bridge relies on (truthiness, reading a named
    property, string conversion), and the defensive `parseJSON` helper that
    both revisions share (publish/index-common.js:4-12, index-common.js:4-12). */
module Json {
  import opened Text

  /** A JSON value. Numbers are integers; `undefined`, which is not a JSON
      value, is written `None` wherever an `Option<Json>` appears. */
  datatype Json =
    | JNull
    | JBool(b: bool)
    | JNum(n: int)
    | JStr(s: string)
    | JArr(items: seq<Json>)
    | JObj(fields: map<string, Json>)

  /** JavaScript truthiness of a JSON value: null, false, 0 and "" are falsy. */
  predicate Truthy(j: Json)
  {
    match j
    case JNull => false
    case JBool(b) => b
    case JNum(n) => n != 0
    case JStr(s) => s != ""
    case JArr(_) => true
    case JObj(_) => true
  }

  /** Truthiness of a value that may be `undefined`. */
  predicate TruthyValue(v: Option<Json>)
  {
    v.Some? && Truthy(v.value)
  }

  /** Reading the named (non-index) property `key` of a value: an object's
      own field, or the `length` of an array or string (a string's length
      counts its characters, where JavaScript counts UTF-16 code units);
      anything else is `undefined`. */
  function Get(j: Json, key: string): (v: Option<Json>)
    ensures j.JObj? ==> (v.Some? <==> key in j.fields)
    ensures j.JNull? || j.JBool? || j.JNum? ==> v == None
  {
    match j
    case JObj(m) => if key in m then Some(m[key]) else None
    case JArr(items) => if key == "length" then Some(JNum(|items|)) else None
    case JStr(s) => if key == "length" then Some(JNum(|s|)) else None
    case _ => None
  }

  /** JavaScript's `String(j)`: what `'' + j` produces. */
  function ToJsString(j: Json): string
  {
    match j
    case JNull => "null"
    case JBool(b) => if b then "true" else "false"
    case JNum(n) => IntToString(n)
    case JStr(s) => s
    case JArr(items) => JoinItems(items)
    case JObj(_) => "[object Object]"
  }

  /** `Array.prototype.join(",")`: null elements become empty text. */
  function JoinItems(items: seq<Json>): string
  {
    if items == [] then ""
    else
      var head := if items[0].JNull? then "" else ToJsString(items[0]);
      if |items| == 1 then head else head + "," + JoinItems(items[1..])
  }

  /** String conversion of a value that may be `undefined`. */
  function JsString(v: Option<Json>): string
  {
    match v
    case None => "undefined"
    case Some(j) => ToJsString(j)
  }

  /** The platform's `JSON.parse` (None when it throws) and `JSON.stringify`.
      The bridge does not implement JSON; it is handed a codec. */
  datatype Codec = Codec(parse: string -> Option<Json>, stringify: Json -> string)

  /** The codec follows RFC 8259 at least this far: serialising a value and
      parsing the text back gives the value. */
  predicate RoundTrips(codec: Codec, j: Json)
  {
    codec.parse(codec.stringify(j)) == Some(j)
  }

  /** `parseJSON`: the parsed value, or `false` when parsing throws. */
  function ParseJSON(codec: Codec, data: string): (r: Json)
    ensures codec.parse(data) == None ==> r == JBool(false) && !Truthy(r)
    ensures codec.parse(data).Some? ==> r == codec.parse(data).value
  {
    match codec.parse(data)
    case None => JBool(false)
    case Some(j) => j
  }

  /** `parseJSON(data) || data`: the value every inbound message is routed
      with. */
  function InboundPayload(codec: Codec, data: string): (r: Json)
    ensures r == JStr(data) || (codec.parse(data) == Some(r) && Truthy(r))
    ensures codec.parse(data).Some? && Truthy(codec.parse(data).value) ==> r == codec.parse(data).value
    ensures Truthy(r) || (r == JStr("") && data == "")
  {
    var parsed := ParseJSON(codec, data);
    if Truthy(parsed) then parsed else JStr(data)
  }

  /** Malformed text, and well-formed text whose value is falsy (`0`,
      `false`, `""`, `null`), both reach the handlers as the raw text. */
  lemma FalsyPayloadFallsBack(codec: Codec, data: string)
    requires codec.parse(data).None? || !Truthy(codec.parse(data).value)
    ensures InboundPayload(codec, data) == JStr(data)
  {
  }

  /** `JSON.stringify(v)` spliced into script text: `JSON.stringify(undefined)`
      is `undefined`, which string concatenation renders as `undefined`. */
  function JsonText(codec: Codec, v: Option<Json>): (t: string)
    ensures v.Some? ==> t == codec.stringify(v.value)
  {
    match v
    case None => "undefined"
    case Some(j) => codec.stringify(j)
  }
}
