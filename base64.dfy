/** The base64 codec behind `buf.toString('base64')` and
    `Buffer.from(text, 'base64')`: the encoding of RFC 4648, section 4 (with
    `=` padding), and Node's lenient decoder, which also accepts the URL-safe
    letters `-` and `_` of section 5, skips characters outside the alphabet
    and stops at the first `=`. */
module Base64 {
  import opened Wrappers
  import opened Bytes

  type sextet = x: int | 0 <= x < 64

  /** The letter of a 6-bit value (RFC 4648, section 4, Table 1). */
  function Letter(i: sextet): char {
    if i < 26 then ('A' as int + i) as char
    else if i < 52 then ('a' as int + i - 26) as char
    else if i < 62 then ('0' as int + i - 52) as char
    else if i == 62 then '+' else '/'
  }

  /** The 6-bit value of a character for the decoder, `None` outside the alphabet. */
  function ValueOf(c: char): Option<sextet> {
    if 'A' <= c <= 'Z' then Some(c as int - 'A' as int)
    else if 'a' <= c <= 'z' then Some(c as int - 'a' as int + 26)
    else if '0' <= c <= '9' then Some(c as int - '0' as int + 52)
    else if c == '+' || c == '-' then Some(62)
    else if c == '/' || c == '_' then Some(63)
    else None
  }

  /** Every letter reads back as its value, and none is the pad `=`. */
  lemma ValueOfLetter(i: sextet)
    ensures ValueOf(Letter(i)) == Some(i) && Letter(i) != '='
  {
  }

  /** Each 3 bytes become 4 letters; a final 1 or 2 bytes become 2 or 3
      letters padded with `=` to 4 (the missing bits are zero). */
  function Encode(b: seq<byte>): (r: string)
    ensures |r| == (|b| + 2) / 3 * 4
  {
    if |b| == 0 then ""
    else if |b| == 1 then Letters(Group(b[0], 0, 0)[..2]) + "=="
    else if |b| == 2 then Letters(Group(b[0], b[1], 0)[..3]) + "="
    else Letters(Group(b[0], b[1], b[2])) + Encode(b[3..])
  }

  /** The values of the alphabet characters of `s`, in order, up to the first `=`. */
  function Sextets(s: string): (q: seq<sextet>)
    ensures |q| <= |s|
  {
    if s == [] || s[0] == '=' then []
    else match ValueOf(s[0])
      case None => Sextets(s[1..])
      case Some(v) => [v] + Sextets(s[1..])
  }

  /** Each 4 values become 3 bytes; a final 2 or 3 values become 1 or 2 bytes,
      and a single leftover value is dropped. */
  function FromSextets(q: seq<sextet>): (r: seq<byte>)
    ensures |r| * 4 <= |q| * 3
  {
    if |q| >= 4 then [First(q[0], q[1]), Second(q[1], q[2]), Third(q[2], q[3])] + FromSextets(q[4..])
    else if |q| == 3 then [First(q[0], q[1]), Second(q[1], q[2])]
    else if |q| == 2 then [First(q[0], q[1])]
    else []
  }

  /** The first byte of a group: 6 bits of the first value, 2 of the second. */
  function First(q0: sextet, q1: sextet): byte {
    q0 as int * 4 + q1 as int / 16
  }

  /** The second byte: 4 bits of the second value, 4 of the third. */
  function Second(q1: sextet, q2: sextet): byte {
    (q1 as int % 16) * 16 + q2 as int / 4
  }

  /** The third byte: 2 bits of the third value, 6 of the fourth. */
  function Third(q2: sextet, q3: sextet): byte {
    (q2 as int % 4) * 64 + q3 as int
  }

  /** `Buffer.from(s, 'base64')`: at most 3 bytes for every 4 characters. */
  function Decode(s: string): (r: seq<byte>)
    ensures |r| * 4 <= |s| * 3
  {
    FromSextets(Sextets(s))
  }

  /** Letters before the rest of the input contribute their values in order. */
  lemma SextetsOfLetters(letters: seq<sextet>, rest: string)
    ensures Sextets(Letters(letters) + rest) == letters + Sextets(rest)
  {
    var s := Letters(letters);
    if letters != [] {
      ValueOfLetter(letters[0]);
      assert (s + rest)[0] == Letter(letters[0]);
      assert (s + rest)[1..] == Letters(letters[1..]) + rest;
      SextetsOfLetters(letters[1..], rest);
      assert letters == [letters[0]] + letters[1..];
    } else {
      assert s + rest == rest;
    }
  }

  /** The padding `==` or `=` ends the values. */
  lemma SextetsOfPadding(rest: string)
    requires rest != [] && rest[0] == '='
    ensures Sextets(rest) == []
  {
  }

  /** The values of one group of three bytes. */
  function Group(b0: byte, b1: byte, b2: byte): (q: seq<sextet>)
    ensures |q| == 4
  {
    [b0 / 4, (b0 % 4) * 16 + b1 / 16, (b1 % 16) * 4 + b2 / 64, b2 % 64]
  }

  /** The bytes of one group of three survive the trip through four values. */
  lemma GroupRoundTrip(b0: byte, b1: byte, b2: byte)
    ensures var q := Group(b0, b1, b2);
            First(q[0], q[1]) == b0 && Second(q[1], q[2]) == b1 && Third(q[2], q[3]) == b2
  {
    var q1: int := (b0 % 4) * 16 + b1 / 16;
    assert q1 / 16 == b0 % 4 && q1 % 16 == b1 / 16;
    var q2: int := (b1 % 16) * 4 + b2 / 64;
    assert q2 / 4 == b1 % 16 && q2 % 4 == b2 / 64;
  }

  function Letters(q: seq<sextet>): string {
    seq(|q|, i requires 0 <= i < |q| => Letter(q[i]))
  }

  /** One byte: two values and `==`. */
  lemma DecodeEncodeOne(b: seq<byte>)
    requires |b| == 1
    ensures Decode(Encode(b)) == b
  {
    var q := Group(b[0], 0, 0)[..2];
    SextetsOfLetters(q, "==");
    assert Sextets("==") == [];
    assert Sextets(Encode(b)) == q;
    GroupRoundTrip(b[0], 0, 0);
    assert FromSextets(q) == [First(q[0], q[1])];
  }

  /** Two bytes: three values and `=`. */
  lemma DecodeEncodeTwo(b: seq<byte>)
    requires |b| == 2
    ensures Decode(Encode(b)) == b
  {
    var q := Group(b[0], b[1], 0)[..3];
    SextetsOfLetters(q, "=");
    assert Sextets("=") == [];
    assert Sextets(Encode(b)) == q;
    GroupRoundTrip(b[0], b[1], 0);
    assert FromSextets(q) == [First(q[0], q[1]), Second(q[1], q[2])];
  }

  lemma GroupBytes(b: seq<byte>)
    requires |b| >= 3
    ensures var q := Group(b[0], b[1], b[2]);
            [First(q[0], q[1]), Second(q[1], q[2]), Third(q[2], q[3])] == b[..3]
  {
    GroupRoundTrip(b[0], b[1], b[2]);
  }

  /** A full group of three bytes in front of the rest. */
  lemma DecodeEncodeGroup(b: seq<byte>)
    requires |b| >= 3
    ensures Decode(Encode(b)) == b[..3] + Decode(Encode(b[3..]))
  {
    var q := Group(b[0], b[1], b[2]);
    var rest := Encode(b[3..]);
    SextetsOfLetters(q, rest);
    var all := q + Sextets(rest);
    assert Sextets(Encode(b)) == all;
    assert all[4..] == Sextets(rest) && all[..4] == q;
    GroupBytes(b);
    assert FromSextets(all) == [First(q[0], q[1]), Second(q[1], q[2]), Third(q[2], q[3])] + FromSextets(Sextets(rest));
    assert Decode(Encode(b)) == FromSextets(all);
    assert Decode(Encode(b[3..])) == FromSextets(Sextets(rest));
  }

  /** Decoding the encoding of any bytes gives the bytes back. */
  lemma {:induction false} DecodeEncode(b: seq<byte>)
    ensures Decode(Encode(b)) == b
  {
    if |b| == 1 {
      DecodeEncodeOne(b);
    } else if |b| == 2 {
      DecodeEncodeTwo(b);
    } else if |b| >= 3 {
      DecodeEncodeGroup(b);
      DecodeEncode(b[3..]);
      assert b == b[..3] + b[3..];
    }
  }
}
