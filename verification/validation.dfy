/**
 * Request bodies as parsed JSON values, and the few zod schema checks the
 * route handlers use, with zod's default messages for type mismatches.
 */
module Validation {
  import opened Wrappers
  import Seqs

  /**
   * A value produced by `request.json()`. Numbers are reals, so the
   * `Infinity` that `JSON.parse` makes of an overflowing literal is not
   * representable.
   */
  datatype Json =
    | JNull
    | JBool(b: bool)
    | JNum(n: real)
    | JStr(s: string)
    | JArr(items: seq<Json>)
    | JObj(fields: map<string, Json>)

  /** The outcome of a zod `parse`: the parsed value, or the message of the first issue. */
  datatype Parse<+T> = Parsed(value: T) | Rejected(issue: string)

  /** The type name zod reports as "received". */
  function TypeName(j: Json): string {
    match j
    case JNull => "null"
    case JBool(_) => "boolean"
    case JNum(_) => "number"
    case JStr(_) => "string"
    case JArr(_) => "array"
    case JObj(_) => "object"
  }

  /** Zod's default message for a value of the wrong type; a missing key is "Required". */
  function InvalidType(expected: string, v: Option<Json>): string {
    match v
    case None => "Required"
    case Some(j) => "Expected " + expected + ", received " + TypeName(j)
  }

  /** The value under `key`, if the object has one. */
  function Field(fields: map<string, Json>, key: string): Option<Json> {
    if key in fields then Some(fields[key]) else None
  }

  /**
   * JavaScript's `String.length`: UTF-16 code units, so a character outside
   * the Basic Multilingual Plane counts twice. Zod's `min` compares this length.
   */
  function JsLength(s: string): (n: nat)
    ensures |s| <= n <= 2 * |s|
    ensures n == 0 <==> s == []
  {
    if s == [] then 0
    else (if IsAstral(s[0]) then 2 else 1) + JsLength(s[1..])
  }

  /** A character outside the Basic Multilingual Plane: UTF-16 writes it as a surrogate pair. */
  predicate IsAstral(c: char) {
    c as int >= 0x1_0000
  }

  /** One code unit per character, plus one more for each astral character. */
  lemma {:induction false} JsLengthCountsAstral(s: string)
    ensures JsLength(s) == |s| + |Seqs.Filter(s, IsAstral)|
  {
    if s != [] {
      JsLengthCountsAstral(s[1..]);
    }
  }

  /** Code units add up: the length of a concatenation is the sum of the lengths. */
  lemma {:induction false} JsLengthConcat(a: string, b: string)
    ensures JsLength(a + b) == JsLength(a) + JsLength(b)
  {
    if a == [] {
      assert a + b == b;
    } else {
      assert (a + b)[0] == a[0] && (a + b)[1..] == a[1..] + b;
      JsLengthConcat(a[1..], b);
    }
  }

  /** A single character is one code unit, or two when astral. */
  lemma JsLengthChar(c: char)
    ensures JsLength([c]) == if IsAstral(c) then 2 else 1
  {
  }

  /** Three emoji are three characters but six code units, enough for `min(6)`. */
  lemma ThreeEmojiAreSixUnits()
    ensures var s := "\U{1F600}\U{1F600}\U{1F600}";
            |s| == 3 && JsLength(s) == 6 && MinLength(6)(s)
  {
    var s := "\U{1F600}\U{1F600}\U{1F600}";
    assert s[1..] == "\U{1F600}\U{1F600}" && s[2..] == "\U{1F600}";
  }

  /**
   * The issue `z.string()` refined by `ok` reports for the value `v`,
   * `msg` being the refinement's custom message; None when `v` passes.
   */
  function StringIssue(v: Option<Json>, ok: string -> bool, msg: string): (issue: Option<string>)
    ensures issue.None? <==> v.Some? && v.value.JStr? && ok(v.value.s)
    ensures v.None? ==> issue == Some("Required")
    ensures v.Some? && !v.value.JStr? ==> issue == Some(InvalidType("string", v))
    ensures v.Some? && v.value.JStr? && !ok(v.value.s) ==> issue == Some(msg)
  {
    match v
    case Some(JStr(s)) => if ok(s) then None else Some(msg)
    case _ => Some(InvalidType("string", v))
  }

  /** As StringIssue, for a schema made `.optional()`: a missing key passes. */
  function OptionalStringIssue(v: Option<Json>, ok: string -> bool, msg: string): (issue: Option<string>)
    ensures v.None? ==> issue.None?
    ensures v.Some? ==> issue == StringIssue(v, ok, msg)
  {
    if v.None? then None else StringIssue(v, ok, msg)
  }

  /** The issue `z.number().positive(msg)` reports for `v`; None when `v` is a number above zero. */
  function PositiveNumberIssue(v: Option<Json>, msg: string): (issue: Option<string>)
    ensures issue.None? <==> v.Some? && v.value.JNum? && v.value.n > 0.0
  {
    match v
    case Some(JNum(n)) => if n > 0.0 then None else Some(msg)
    case _ => Some(InvalidType("number", v))
  }

  /** The string under `key`, when there is one; callers use it after the key's check passed. */
  function StringField(fields: map<string, Json>, key: string): Option<string> {
    match Field(fields, key)
    case Some(JStr(s)) => Some(s)
    case _ => None
  }

  /** A `z.string().min(n)` refinement. */
  function MinLength(n: nat): string -> bool {
    s => JsLength(s) >= n
  }

  /** The refinement of a bare `z.string()`. */
  function AnyString(s: string): bool {
    true
  }

  /** `value || null` for an optional string: the empty string is falsy. */
  function NullIfEmpty(s: Option<string>): (r: Option<string>)
    ensures r.Some? <==> s.Some? && s.value != ""
    ensures r.Some? ==> r == s
  {
    if s == Some("") then None else s
  }
}
