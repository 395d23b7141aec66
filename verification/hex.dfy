/**
 * Node's `Buffer.toString('hex')`: two lower-case hexadecimal digits per byte,
 * high nibble first, together with its inverse.
 */
module Hex {
  import opened Wrappers

  newtype byte = x: int | 0 <= x < 256

  /** A lower-case hexadecimal digit. */
  predicate IsHexDigit(c: char) {
    '0' <= c <= '9' || 'a' <= c <= 'f'
  }

  /** The digit for a nibble, lower case. */
  function HexDigit(n: int): (c: char)
    requires 0 <= n < 16
    ensures IsHexDigit(c)
  {
    if n < 10 then ('0' as int + n) as char else ('a' as int + n - 10) as char
  }

  /** The value of a lower-case hexadecimal digit. */
  function DigitValue(c: char): (v: Option<int>)
    ensures v.Some? ==> 0 <= v.value < 16
    ensures v.Some? <==> IsHexDigit(c)
  {
    if '0' <= c <= '9' then Some(c as int - '0' as int)
    else if 'a' <= c <= 'f' then Some(c as int - 'a' as int + 10)
    else None
  }

  lemma DigitRoundTrip(n: int)
    requires 0 <= n < 16
    ensures DigitValue(HexDigit(n)) == Some(n)
  {
  }

  predicate IsLowerHex(s: string) {
    forall i :: 0 <= i < |s| ==> IsHexDigit(s[i])
  }

  /** The hex rendering of `bytes`. */
  function ToHex(bytes: seq<byte>): (s: string)
    ensures |s| == 2 * |bytes|
    ensures IsLowerHex(s)
  {
    if bytes == [] then ""
    else [HexDigit(bytes[0] as int / 16), HexDigit(bytes[0] as int % 16)] + ToHex(bytes[1..])
  }

  /** Decodes an even-length string of lower-case hex digits; None for anything else. */
  function FromHex(s: string): (r: Option<seq<byte>>)
    ensures r.Some? ==> 2 * |r.value| == |s|
    decreases |s|
  {
    if |s| < 2 then (if s == [] then Some([]) else None)
    else
      var hi, lo, rest := DigitValue(s[0]), DigitValue(s[1]), FromHex(s[2..]);
      if hi.Some? && lo.Some? && rest.Some? then Some([(hi.value * 16 + lo.value) as byte] + rest.value)
      else None
  }

  /** Decoding one leading pair of digits. */
  lemma FromHexPair(hi: int, lo: int, t: string)
    requires 0 <= hi < 16 && 0 <= lo < 16
    ensures FromHex(t).Some? ==> FromHex([HexDigit(hi), HexDigit(lo)] + t) == Some([(hi * 16 + lo) as byte] + FromHex(t).value)
  {
    var s := [HexDigit(hi), HexDigit(lo)] + t;
    assert s[0] == HexDigit(hi) && s[1] == HexDigit(lo) && s[2..] == t;
    DigitRoundTrip(hi);
    DigitRoundTrip(lo);
    assert DigitValue(s[0]) == Some(hi) && DigitValue(s[1]) == Some(lo);
    var r := FromHex(t);
    assert r.Some? ==> FromHex(s) == Some([(hi * 16 + lo) as byte] + r.value);
  }

  /** Decoding the rendering gives the bytes back. */
  lemma {:induction false} FromToHex(bytes: seq<byte>)
    ensures FromHex(ToHex(bytes)) == Some(bytes)
  {
    if bytes != [] {
      var b := bytes[0] as int;
      FromToHex(bytes[1..]);
      FromHexPair(b / 16, b % 16, ToHex(bytes[1..]));
      assert [(b / 16 * 16 + b % 16) as byte] + bytes[1..] == bytes;
    }
  }

  /** Distinct byte strings render as distinct tokens. */
  lemma ToHexInjective(a: seq<byte>, b: seq<byte>)
    ensures ToHex(a) == ToHex(b) <==> a == b
  {
    if ToHex(a) == ToHex(b) {
      FromToHex(a);
      FromToHex(b);
    }
  }
}
