/** Parsed YAML/JSON documents as values, with JavaScript's truthiness and the small
    `isPlainObject` / `isNonEmptyString` tests the scripts share, and the generic pieces of a
    schema decoder (required and optional keys, arrays). */
module JsonValue {
  import opened Wrappers
  import JsText

  /** A parsed document. `undefined` is never a value: an absent key is absent from `fields`. */
  datatype Json =
    | JNull
    | JBool(b: bool)
    | JNum(n: real)
    | JStr(s: string)
    | JArr(items: seq<Json>)
    | JObj(fields: map<string, Json>)

  /** JavaScript truthiness of a value that may be `undefined` (`None`). */
  predicate Truthy(v: Option<Json>) {
    match v
    case None => false
    case Some(JNull) => false
    case Some(JBool(b)) => b
    case Some(JNum(n)) => n != 0.0
    case Some(JStr(s)) => |s| > 0
    case Some(_) => true
  }

  /** `obj[key]` of a value: `None` when the value is not an object or lacks the key. */
  function Get(v: Json, key: string): (r: Option<Json>)
    ensures r.Some? <==> v.JObj? && key in v.fields
  {
    if v.JObj? && key in v.fields then Some(v.fields[key]) else None
  }

  /** `isPlainObject`: an object that is neither null nor an array. */
  predicate IsPlainObject(v: Option<Json>) {
    v.Some? && v.value.JObj?
  }

  /** `isNonEmptyString`: a string with a non-white-space character. */
  predicate IsNonEmptyString(v: Option<Json>) {
    v.Some? && v.value.JStr? && JsText.NonBlank(v.value.s)
  }

  /** `v != null` (loose inequality: neither `null` nor `undefined`). */
  predicate IsPresent(v: Option<Json>) {
    v.Some? && !v.value.JNull?
  }

  /** A number that is an integer, as `Number.isInteger` and zod's `.int()` test it. */
  predicate IsInteger(n: real) {
    n == n.Floor as real
  }

  /** zod `z.string().min(1)`. */
  function DecodeNonEmptyString(v: Json): (r: Option<string>)
    ensures r.Some? ==> |r.value| >= 1 && v == JStr(r.value)
    ensures v.JStr? && |v.s| >= 1 ==> r == Some(v.s)
  {
    if v.JStr? && |v.s| >= 1 then Some(v.s) else None
  }

  /** A required key: absent or rejected by `decode` means the whole object is rejected. */
  function Required<T>(v: Json, key: string, decode: Json -> Option<T>): (r: Option<T>)
    ensures r.Some? ==> key in v.fields && decode(v.fields[key]) == r
    requires v.JObj?
  {
    if key in v.fields then decode(v.fields[key]) else None
  }

  /** An `.optional()` key: the outer `None` is a rejection, `Some(None)` an absent key.
      `null` is not `undefined`, so a key holding `null` goes to `decode`. */
  function Optional<T>(v: Json, key: string, decode: Json -> Option<T>): (r: Option<Option<T>>)
    requires v.JObj?
    ensures key !in v.fields ==> r == Some(None)
    ensures key in v.fields ==> (r.Some? <==> decode(v.fields[key]).Some?)
    ensures key in v.fields && r.Some? ==> r.value == decode(v.fields[key])
  {
    if key !in v.fields then Some(None)
    else
      match decode(v.fields[key])
      case None => None
      case Some(x) => Some(Some(x))
  }

  /** `z.array(item)`: every element must decode. */
  function DecodeArray<T>(v: Json, decode: Json -> Option<T>): (r: Option<seq<T>>)
    ensures r.Some? ==> v.JArr? && |r.value| == |v.items|
    ensures r.Some? ==> forall i :: 0 <= i < |v.items| ==> decode(v.items[i]) == Some(r.value[i])
  {
    if v.JArr? then DecodeItems(v.items, decode) else None
  }

  function DecodeItems<T>(items: seq<Json>, decode: Json -> Option<T>): (r: Option<seq<T>>)
    ensures r.Some? ==> |r.value| == |items|
    ensures r.Some? ==> forall i :: 0 <= i < |items| ==> decode(items[i]) == Some(r.value[i])
    ensures r.None? ==> exists i :: 0 <= i < |items| && decode(items[i]).None?
  {
    if |items| == 0 then Some([])
    else
      match decode(items[0])
      case None => None
      case Some(x) =>
        match DecodeItems(items[1..], decode)
        case None => None
        case Some(xs) => Some([x] + xs)
  }

  /** Decoding the encoding of a list whose elements all round-trip gives back the list. */
  lemma {:induction false} DecodeItemsOfEncoded<T>(xs: seq<T>, encode: T -> Json, decode: Json -> Option<T>)
    requires forall i :: 0 <= i < |xs| ==> decode(encode(xs[i])) == Some(xs[i])
    ensures DecodeItems(seq(|xs|, i requires 0 <= i < |xs| => encode(xs[i])), decode) == Some(xs)
  {
    var items := seq(|xs|, i requires 0 <= i < |xs| => encode(xs[i]));
    if |xs| > 0 {
      var rest := seq(|xs[1..]|, i requires 0 <= i < |xs[1..]| => encode(xs[1..][i]));
      assert items[1..] == rest;
      DecodeItemsOfEncoded(xs[1..], encode, decode);
      assert [xs[0]] + xs[1..] == xs;
    }
  }

  /** The encoding of an optional value under `key` (absent when `None`). */
  function PutOptional<T>(m: map<string, Json>, key: string, x: Option<T>, encode: T -> Json): (r: map<string, Json>)
    ensures x.None? ==> r == m
    ensures x.Some? ==> r == m[key := encode(x.value)]
    ensures forall k :: k != key ==> (k in r <==> k in m)
    ensures forall k :: k != key && k in m ==> r[k] == m[k]
  {
    if x.Some? then m[key := encode(x.value)] else m
  }

  /** `key` holds the encoding of `x` in `m`, and is absent when `x` is `None`. */
  predicate Encodes<T>(m: map<string, Json>, key: string, x: Option<T>, encode: T -> Json) {
    (x.None? ==> key !in m) && (x.Some? ==> key in m && m[key] == encode(x.value))
  }

  /** An optional key holding an encoding that round-trips is decoded back. */
  lemma OptionalOfEncoded<T>(v: Json, key: string, x: Option<T>, encode: T -> Json, decode: Json -> Option<T>)
    requires v.JObj? && Encodes(v.fields, key, x, encode)
    requires x.Some? ==> decode(encode(x.value)) == Some(x.value)
    ensures Optional(v, key, decode) == Some(x)
  {
  }

  /** A required key holding an encoding that round-trips is decoded back. */
  lemma RequiredOfEncoded<T>(v: Json, key: string, x: T, encode: T -> Json, decode: Json -> Option<T>)
    requires v.JObj? && Encodes(v.fields, key, Some(x), encode)
    requires decode(encode(x)) == Some(x)
    ensures Required(v, key, decode) == Some(x)
  {
  }

  function EncodeArray<T>(xs: seq<T>, encode: T -> Json): Json {
    JArr(seq(|xs|, i requires 0 <= i < |xs| => encode(xs[i])))
  }

  lemma DecodeArrayOfEncoded<T>(xs: seq<T>, encode: T -> Json, decode: Json -> Option<T>)
    requires forall i :: 0 <= i < |xs| ==> decode(encode(xs[i])) == Some(xs[i])
    ensures DecodeArray(EncodeArray(xs, encode), decode) == Some(xs)
  {
    DecodeItemsOfEncoded(xs, encode, decode);
  }
}
