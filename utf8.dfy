/** The UTF-8 codec behind `Buffer.from(text)` and `buf.toString('utf-8')`:
    encoding of scalar values (RFC 3629, section 3) and the decoder of the
    WHATWG Encoding Standard, which turns each maximal ill-formed subsequence
    into one U+FFFD. */
module Utf8 {
  import opened Bytes

  const Replacement: char := '\U{FFFD}'

  /** The UTF-8 bytes of one scalar value. */
  function EncodeChar(c: char): (r: seq<byte>)
    ensures 1 <= |r| <= 4
  {
    var v := c as int;
    if v < 0x80 then [v]
    else if v < 0x800 then [0xC0 + v / 64, 0x80 + v % 64]
    else if v < 0x10000 then [0xE0 + v / 4096, 0x80 + (v / 64) % 64, 0x80 + v % 64]
    else [0xF0 + v / 262144, 0x80 + (v / 4096) % 64, 0x80 + (v / 64) % 64, 0x80 + v % 64]
  }

  /** `Buffer.from(text)`: the UTF-8 bytes of a text. */
  function Encode(s: string): (r: seq<byte>)
    ensures |s| <= |r| <= 4 * |s|
  {
    if s == [] then [] else EncodeChar(s[0]) + Encode(s[1..])
  }

  predicate IsContinuation(b: byte, lo: int, hi: int) {
    lo <= b <= hi
  }

  /** One step of the decoder on a non-empty input: the next scalar value, or
      U+FFFD for an ill-formed prefix, and the number of bytes it consumed.
      A byte that cannot continue the sequence is not consumed; an input that
      ends inside a sequence is consumed whole. */
  function DecodeStep(b: seq<byte>): (r: (char, nat))
    requires |b| > 0
    ensures 1 <= r.1 <= |b|
  {
    var lead: int := b[0];
    if lead < 0x80 then (lead as char, 1)
    else if 0xC2 <= lead <= 0xDF then
      if |b| < 2 then (Replacement, 1)
      else if !IsContinuation(b[1], 0x80, 0xBF) then (Replacement, 1)
      else (((lead - 0xC0) * 64 + (b[1] as int - 0x80)) as char, 2)
    else if 0xE0 <= lead <= 0xEF then
      var lo := if lead == 0xE0 then 0xA0 else 0x80;
      var hi := if lead == 0xED then 0x9F else 0xBF;
      if |b| < 2 then (Replacement, 1)
      else if !IsContinuation(b[1], lo, hi) then (Replacement, 1)
      else if |b| < 3 then (Replacement, 2)
      else if !IsContinuation(b[2], 0x80, 0xBF) then (Replacement, 2)
      else (((lead - 0xE0) * 4096 + (b[1] as int - 0x80) * 64 + (b[2] as int - 0x80)) as char, 3)
    else if 0xF0 <= lead <= 0xF4 then
      var lo := if lead == 0xF0 then 0x90 else 0x80;
      var hi := if lead == 0xF4 then 0x8F else 0xBF;
      if |b| < 2 then (Replacement, 1)
      else if !IsContinuation(b[1], lo, hi) then (Replacement, 1)
      else if |b| < 3 then (Replacement, 2)
      else if !IsContinuation(b[2], 0x80, 0xBF) then (Replacement, 2)
      else if |b| < 4 then (Replacement, 3)
      else if !IsContinuation(b[3], 0x80, 0xBF) then (Replacement, 3)
      else (((lead - 0xF0) * 262144 + (b[1] as int - 0x80) * 4096 + (b[2] as int - 0x80) * 64 + (b[3] as int - 0x80)) as char, 4)
    else (Replacement, 1)
  }

  /** `buf.toString('utf-8')`. */
  function Decode(b: seq<byte>): (r: string)
    ensures |r| <= |b|
    ensures b != [] ==> |r| > 0
    decreases |b|
  {
    if b == [] then []
    else
      var (c, n) := DecodeStep(b);
      [c] + Decode(b[n..])
  }

  /** The decoder reads back one encoded scalar value, whatever follows it. */
  lemma DecodeStepEncodeChar(c: char, rest: seq<byte>)
    ensures DecodeStep(EncodeChar(c) + rest) == (c, |EncodeChar(c)|)
  {
    var v := c as int;
    if v < 0x80 {
    } else if v < 0x800 {
      DecodeTwo(c, rest);
    } else if v < 0x10000 {
      DecodeThree(c, rest);
    } else {
      DecodeFour(c, rest);
    }
  }

  lemma DecodeTwo(c: char, rest: seq<byte>)
    requires 0x80 <= c as int < 0x800
    ensures DecodeStep(EncodeChar(c) + rest) == (c, 2)
  {
    var v := c as int;
    var b := EncodeChar(c) + rest;
    var q, r := v / 64, v % 64;
    assert v == q * 64 + r && 2 <= q < 32 && 0 <= r < 64;
    assert b[0] as int == 0xC0 + q && b[1] as int == 0x80 + r;
  }

  lemma DecodeThree(c: char, rest: seq<byte>)
    requires 0x800 <= c as int < 0x10000
    ensures DecodeStep(EncodeChar(c) + rest) == (c, 3)
  {
    var v := c as int;
    var b := EncodeChar(c) + rest;
    var q1, r1 := v / 64, v % 64;
    var q2, r2 := q1 / 64, q1 % 64;
    assert v == q1 * 64 + r1 && 0 <= r1 < 64;
    assert q1 == q2 * 64 + r2 && 0 <= r2 < 64;
    assert q2 == v / 4096 && 0 <= q2 < 16;
    assert v == q2 * 4096 + r2 * 64 + r1;
    assert q2 == 0 ==> r2 >= 32;
    assert q2 == 13 ==> r2 < 32;
    assert b[0] as int == 0xE0 + q2 && b[1] as int == 0x80 + r2 && b[2] as int == 0x80 + r1;
  }

  lemma DecodeFour(c: char, rest: seq<byte>)
    requires 0x10000 <= c as int
    ensures DecodeStep(EncodeChar(c) + rest) == (c, 4)
  {
    var v := c as int;
    assert v < 0x110000;
    var b := EncodeChar(c) + rest;
    var q1, r1 := v / 64, v % 64;
    var q2, r2 := q1 / 64, q1 % 64;
    var q3, r3 := q2 / 64, q2 % 64;
    assert v == q1 * 64 + r1 && 0 <= r1 < 64;
    assert q1 == q2 * 64 + r2 && 0 <= r2 < 64;
    assert q2 == q3 * 64 + r3 && 0 <= r3 < 64;
    assert q2 == v / 4096 && q3 == v / 262144 && 0 <= q3 <= 4;
    assert v == q3 * 262144 + r3 * 4096 + r2 * 64 + r1;
    assert q3 == 0 ==> r3 >= 16;
    assert q3 == 4 ==> r3 < 16;
    assert b[0] as int == 0xF0 + q3 && b[1] as int == 0x80 + r3;
    assert b[2] as int == 0x80 + r2 && b[3] as int == 0x80 + r1;
  }

  /** Decoding the UTF-8 encoding of a text gives the text back. */
  lemma {:induction false} DecodeEncode(s: string)
    ensures Decode(Encode(s)) == s
  {
    if s != [] {
      var e := EncodeChar(s[0]);
      DecodeStepEncodeChar(s[0], Encode(s[1..]));
      assert (e + Encode(s[1..]))[|e|..] == Encode(s[1..]);
      DecodeEncode(s[1..]);
      assert s == [s[0]] + s[1..];
    }
  }
}
