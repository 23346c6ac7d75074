/**
  Strings as bytes, the way Rust keeps them: strict UTF-8 (RFC 3629, section 3), without overlong forms or surrogates.
 */
module Utf8 {
  import opened Wrappers

  type byte = x: int | 0 <= x < 256

  /** The bytes of a scalar value. */
  function Bytes(n: int): (r: seq<byte>)
    requires IsScalar(n)
    ensures 1 <= |r| <= 4
  {
    if n < 0x80 then [n]
    else if n < 0x800 then [0xC0 + n / 64, 0x80 + n % 64]
    else if n < 0x1_0000 then [0xE0 + n / 4096, 0x80 + n / 64 % 64, 0x80 + n % 64]
    else [0xF0 + n / 262144, 0x80 + n / 4096 % 64, 0x80 + n / 64 % 64, 0x80 + n % 64]
  }

  function EncodeChar(c: char): (r: seq<byte>)
    ensures 1 <= |r| <= 4
  {
    Bytes(c as int)
  }

  function Encode(s: string): seq<byte> {
    if s == "" then [] else EncodeChar(s[0]) + Encode(s[1..])
  }

  predicate IsTail(b: byte) { 0x80 <= b < 0xC0 }

  predicate IsScalar(n: int) { 0 <= n < 0xD800 || 0xE000 <= n < 0x11_0000 }

  /** How many bytes the sequence that starts with `b` has; 0 if none does. */
  function Width(b: byte): nat {
    if b < 0x80 then 1 else if b < 0xC0 then 0 else if b < 0xE0 then 2 else if b < 0xF0 then 3 else if b < 0xF8 then 4
        else 0
  }

  /** The scalar value of a complete sequence of the given width. */
  function Scalar(b: seq<byte>): int
    requires 1 <= |b| <= 4
  {
    if |b| == 1 then b[0]
    else if |b| == 2 then (b[0] as int - 0xC0) * 64 + (b[1] as int - 0x80)
    else if |b| == 3 then (b[0] as int - 0xE0) * 4096 + (b[1] as int - 0x80) * 64 + (b[2] as int - 0x80)
    else (b[0] as int - 0xF0) * 262144 + (b[1] as int - 0x80) * 4096 + (b[2] as int - 0x80) * 64 + (b[3] as int - 0x80)
  }

  /** The least scalar value that needs this many bytes. */
  function Least(width: nat): int {
    if width == 2 then 0x80 else if width == 3 then 0x800 else if width == 4 then 0x1_0000 else 0
  }

  predicate Complete(b: seq<byte>) {
    && 1 <= |b| <= 4 && Width(b[0]) == |b| && (forall i :: 1 <= i < |b| ==> IsTail(b[i]))
    && Least(|b|) <= Scalar(b) && IsScalar(Scalar(b))
  }

  /** `from_utf8`: None where Rust reports an error. */
  function Decode(b: seq<byte>): Option<string> {
    if b == [] then Some("")
    else
      var w := Width(b[0]);
      if w == 0 || |b| < w || !Complete(b[..w]) then None
      else
        var rest := Decode(b[w..]);
        if rest.None? then None else Some([Scalar(b[..w]) as char] + rest.value)
  }

  lemma {:induction false} Digits(n: int)
    requires n >= 0
    ensures n / 64 * 64 + n % 64 == n && n / 64 / 64 == n / 4096 && n / 4096 / 64 == n / 262144
  {
  }

  lemma {:induction false} BytesRoundTrip(n: int)
    requires IsScalar(n)
    ensures Complete(Bytes(n)) && Scalar(Bytes(n)) == n
  {
    Digits(n);
  }

  lemma {:induction false} CharRoundTrip(c: char)
    ensures Complete(EncodeChar(c)) && Scalar(EncodeChar(c)) == c as int
  {
    BytesRoundTrip(c as int);
  }

  lemma {:induction false} ScalarRoundTrip(b: seq<byte>)
    requires Complete(b)
    ensures Bytes(Scalar(b)) == b
  {
    var n := Scalar(b);
    if |b| == 2 {
      Last(b[0] as int - 0xC0, b[1] as int - 0x80);
    } else if |b| == 3 {
      var m := (b[0] as int - 0xE0) * 64 + (b[1] as int - 0x80);
      Last(b[0] as int - 0xE0, b[1] as int - 0x80);
      Last(m, b[2] as int - 0x80);
      assert n == m * 64 + (b[2] as int - 0x80);
      Digits(n);
    } else if |b| == 4 {
      var l := (b[0] as int - 0xF0) * 64 + (b[1] as int - 0x80);
      var m := l * 64 + (b[2] as int - 0x80);
      Last(b[0] as int - 0xF0, b[1] as int - 0x80);
      Last(l, b[2] as int - 0x80);
      Last(m, b[3] as int - 0x80);
      assert n == m * 64 + (b[3] as int - 0x80);
      Digits(n);
    }
  }

  /** The last base-64 digit. */
  lemma {:induction false} Last(m: int, d: int)
    requires 0 <= d < 64
    ensures (m * 64 + d) / 64 == m && (m * 64 + d) % 64 == d
  {
  }

  lemma {:induction false} DecodeEncode(s: string)
    ensures Decode(Encode(s)) == Some(s)
  {
    if s == "" {
    } else {
      var e, rest := EncodeChar(s[0]), Encode(s[1..]);
      CharRoundTrip(s[0]);
      assert (e + rest)[..|e|] == e && (e + rest)[|e|..] == rest;
      DecodeEncode(s[1..]);
      assert [s[0]] + s[1..] == s;
    }
  }

  lemma {:induction false} EncodeDecode(b: seq<byte>)
    requires Decode(b).Some?
    ensures Encode(Decode(b).value) == b
  {
    if b == [] {
    } else {
      var w := Width(b[0]);
      ScalarRoundTrip(b[..w]);
      EncodeDecode(b[w..]);
      var c, rest := Scalar(b[..w]) as char, Decode(b[w..]).value;
      assert ([c] + rest)[1..] == rest;
      assert b[..w] + b[w..] == b;
    }
  }

  /** Bytes decode to a string exactly when they are its encoding. */
  lemma {:induction false} DecodesIffEncodes(b: seq<byte>, s: string)
    ensures Decode(b) == Some(s) <==> b == Encode(s)
  {
    DecodeEncode(s);
    if Decode(b).Some? { EncodeDecode(b); }
  }

  lemma {:induction false} EncodeEmpty(s: string)
    ensures Encode(s) == [] <==> s == ""
  {
  }

  /** A string of ASCII characters is its own encoding, character by character. */
  lemma {:induction false} AsciiIsItself(s: string)
    requires forall i :: 0 <= i < |s| ==> s[i] < 128 as char
    ensures |Encode(s)| == |s| && forall i :: 0 <= i < |s| ==> Encode(s)[i] == s[i] as int
  {
    if s == "" {
    } else {
      AsciiIsItself(s[1..]);
    }
  }

  /** The first and the last scalar value of each width, and the two around the surrogates (RFC 3629, section 3). */
  lemma {:induction false} WidthBounds()
    ensures Bytes(0x00) == [0x00] && Bytes(0x7F) == [0x7F]
    ensures Bytes(0x80) == [0xC2, 0x80] && Bytes(0x7FF) == [0xDF, 0xBF]
    ensures Bytes(0x800) == [0xE0, 0xA0, 0x80] && Bytes(0xFFFF) == [0xEF, 0xBF, 0xBF]
    ensures Bytes(0xD7FF) == [0xED, 0x9F, 0xBF] && Bytes(0xE000) == [0xEE, 0x80, 0x80]
    ensures Bytes(0x1_0000) == [0xF0, 0x90, 0x80, 0x80] && Bytes(0x10_FFFF) == [0xF4, 0x8F, 0xBF, 0xBF]
  {}
}
