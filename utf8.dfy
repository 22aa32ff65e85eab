/** UTF-8 encoding of strings, as used when a digest string is written to its
    digest file (`as_bytes`) and read back (`read_to_string`, which fails on a
    byte sequence that is not well-formed UTF-8). */
module Utf8 {

  import opened Wrappers

  /** One byte of file content. */
  type byte = b: int | 0 <= b < 256

  /** A continuation byte 10xxxxxx. */
  predicate IsContinuation(b: byte) {
    0x80 <= b < 0xC0
  }

  /** The bytes of one scalar value, shortest form first. */
  function EncodeChar(c: char): (r: seq<byte>)
    ensures 1 <= |r| <= 4
    ensures (c as int < 0x80) == (|r| == 1)
    ensures forall i :: 1 <= i < |r| ==> IsContinuation(r[i])
  {
    var n := c as int;
    var r1, q1 := n % 64, n / 64;
    var r2, q2 := q1 % 64, q1 / 64;
    var r3, q3 := q2 % 64, q2 / 64;
    if n < 0x80 then [n]
    else if n < 0x800 then [0xC0 + q1, 0x80 + r1]
    else if n < 0x10000 then [0xE0 + q2, 0x80 + r2, 0x80 + r1]
    else [0xF0 + q3, 0x80 + r3, 0x80 + r2, 0x80 + r1]
  }

  /** `str::as_bytes`: the UTF-8 encoding of a whole string. */
  function Encode(s: string): (r: seq<byte>)
    ensures |r| >= |s|
    ensures s == [] <==> r == []
  {
    if s == [] then [] else EncodeChar(s[0]) + Encode(s[1..])
  }

  /** Decodes the first scalar value of `b` and says how many bytes it took;
      None when `b` does not start with a well-formed UTF-8 sequence
      (no overlong forms, no surrogates, nothing above U+10FFFF). */
  function DecodeFirst(b: seq<byte>): (r: Option<(char, nat)>)
    requires |b| > 0
    ensures r.Some? ==> 1 <= r.value.1 <= |b| && r.value.1 <= 4
  {
    var b0 := b[0] as int;
    if b0 < 0x80 then Some((b0 as char, 1))
    else if 0xC2 <= b0 < 0xE0 then
      if |b| >= 2 && IsContinuation(b[1]) then
        Some((((b0 - 0xC0) * 64 + (b[1] as int - 0x80)) as char, 2))
      else None
    else if 0xE0 <= b0 < 0xF0 then
      if |b| >= 3 && IsContinuation(b[1]) && IsContinuation(b[2]) then
        var v := ((b0 - 0xE0) * 64 + (b[1] as int - 0x80)) * 64 + (b[2] as int - 0x80);
        if 0x800 <= v && !(0xD800 <= v < 0xE000) then Some((v as char, 3)) else None
      else None
    else if 0xF0 <= b0 < 0xF5 then
      if |b| >= 4 && IsContinuation(b[1]) && IsContinuation(b[2]) && IsContinuation(b[3]) then
        var v := (((b0 - 0xF0) * 64 + (b[1] as int - 0x80)) * 64 + (b[2] as int - 0x80)) * 64 + (b[3] as int - 0x80);
        if 0x10000 <= v < 0x110000 then Some((v as char, 4)) else None
      else None
    else None
  }

  /** `String::from_utf8`: the decoded string, or None on malformed input. */
  function Decode(b: seq<byte>): (r: Option<string>)
    ensures r.Some? ==> |r.value| <= |b|
    decreases |b|
  {
    if b == [] then Some([])
    else
      match DecodeFirst(b)
      case None => None
      case Some((c, k)) =>
        match Decode(b[k..])
        case None => None
        case Some(rest) => Some([c] + rest)
  }

  lemma DecodeFirstOfEncodeChar(c: char, rest: seq<byte>)
    ensures DecodeFirst(EncodeChar(c) + rest) == Some((c, |EncodeChar(c)|))
  {
    var n := c as int;
    var q1 := n / 64;
    var q2 := q1 / 64;
    assert n == q1 * 64 + n % 64;
    assert q1 == q2 * 64 + q1 % 64;
    assert q2 == (q2 / 64) * 64 + q2 % 64;
    var b := EncodeChar(c) + rest;
    var x0, x1, x2, x3 := b[0] as int, if |b| > 1 then b[1] as int else 0,
      if |b| > 2 then b[2] as int else 0, if |b| > 3 then b[3] as int else 0;
    if n < 0x80 {
    } else if n < 0x800 {
      assert (x0 - 0xC0) * 64 + (x1 - 0x80) == n;
    } else if n < 0x10000 {
      assert ((x0 - 0xE0) * 64 + (x1 - 0x80)) * 64 + (x2 - 0x80) == n;
    } else {
      assert (((x0 - 0xF0) * 64 + (x1 - 0x80)) * 64 + (x2 - 0x80)) * 64 + (x3 - 0x80) == n;
    }
  }

  /** Reading back what was written gives the same string. */
  lemma {:induction false} DecodeEncode(s: string)
    ensures Decode(Encode(s)) == Some(s)
  {
    if s != [] {
      var e, tail := EncodeChar(s[0]), Encode(s[1..]);
      assert Encode(s) == e + tail;
      DecodeFirstOfEncodeChar(s[0], tail);
      assert (e + tail)[|e|..] == tail;
      DecodeEncode(s[1..]);
      assert Decode(Encode(s)) == Some([s[0]] + s[1..]);
      assert [s[0]] + s[1..] == s;
    }
  }

  lemma DivMod64(n: int, q: int, r: int)
    requires 0 <= r < 64 && n == q * 64 + r
    ensures n / 64 == q && n % 64 == r
  {
  }

  /** The bytes the decoder takes for one scalar value are exactly that
      value's shortest encoding, so nothing else is accepted. */
  lemma DecodeFirstIsEncodeChar(b: seq<byte>)
    requires |b| > 0 && DecodeFirst(b).Some?
    ensures var (c, k) := DecodeFirst(b).value; b[..k] == EncodeChar(c)
  {
    var (c, k) := DecodeFirst(b).value;
    var b0 := b[0] as int;
    if b0 < 0x80 {
      assert b[..k] == [b[0]];
    } else if 0xC2 <= b0 < 0xE0 {
      var r1 := b[1] as int - 0x80;
      DivMod64(c as int, b0 - 0xC0, r1);
      assert b[..k] == [b[0], b[1]];
    } else if 0xE0 <= b0 < 0xF0 {
      var q2, r2, r1 := b0 - 0xE0, b[1] as int - 0x80, b[2] as int - 0x80;
      DivMod64(c as int, q2 * 64 + r2, r1);
      DivMod64(q2 * 64 + r2, q2, r2);
      assert b[..k] == [b[0], b[1], b[2]];
    } else {
      var q3, r3, r2, r1 := b0 - 0xF0, b[1] as int - 0x80, b[2] as int - 0x80, b[3] as int - 0x80;
      DivMod64(c as int, (q3 * 64 + r3) * 64 + r2, r1);
      DivMod64((q3 * 64 + r3) * 64 + r2, q3 * 64 + r3, r2);
      DivMod64(q3 * 64 + r3, q3, r3);
      assert b[..k] == [b[0], b[1], b[2], b[3]];
    }
  }

  /** One step of a successful decode: the first character's bytes are its
      encoding, and the rest decodes on its own. */
  lemma DecodeSplit(b: seq<byte>) returns (c: char, k: nat)
    requires b != [] && Decode(b).Some?
    ensures 1 <= k <= |b| && b[..k] == EncodeChar(c)
    ensures Decode(b[k..]).Some? && Decode(b).value == [c] + Decode(b[k..]).value
  {
    c, k := DecodeFirst(b).value.0, DecodeFirst(b).value.1;
    DecodeFirstIsEncodeChar(b);
  }

  /** Encoding a string that starts with `c` starts with the encoding of `c`. */
  lemma EncodeCons(c: char, rest: string)
    ensures Encode([c] + rest) == EncodeChar(c) + Encode(rest)
  {
    assert ([c] + rest)[0] == c && ([c] + rest)[1..] == rest;
  }

  /** The other round trip: every byte sequence the decoder accepts is the
      encoding of what it decodes to, so malformed bytes are refused. */
  lemma {:induction false} EncodeDecode(b: seq<byte>)
    requires Decode(b).Some?
    ensures Encode(Decode(b).value) == b
    decreases |b|
  {
    if b != [] {
      var c, k := DecodeSplit(b);
      var tail := b[k..];
      EncodeDecode(tail);
      EncodeCons(c, Decode(tail).value);
      assert b == b[..k] + tail;
    }
  }

  /** Encoding is injective: distinct strings never share a digest file's bytes. */
  lemma EncodeInjective(s: string, t: string)
    requires Encode(s) == Encode(t)
    ensures s == t
  {
    DecodeEncode(s);
    DecodeEncode(t);
  }
}
