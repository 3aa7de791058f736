/**
 * Base64 as defined in section 4 of RFC 4648 ("base64", alphabet
 * `A-Z a-z 0-9 + /`, `=` padding to a multiple of four characters):
 * what Node's `Buffer.prototype.toString('base64')` produces, and the
 * decoder that undoes it.
 */
module Base64 {
  import opened Wrappers

  type byte = b: int | 0 <= b < 256

  /** A member of the 64-character alphabet of section 4 of RFC 4648. */
  predicate InAlphabet(c: char) {
    ('A' <= c <= 'Z') || ('a' <= c <= 'z') || ('0' <= c <= '9') || c == '+' || c == '/'
  }

  /** The character that encodes the 6-bit value `x` (Table 1 of RFC 4648). */
  function Sextet(x: int): (c: char)
    requires 0 <= x < 64
    ensures InAlphabet(c)
    ensures IndexOf(c) == Some(x)
  {
    if x < 26 then ('A' as int + x) as char
    else if x < 52 then ('a' as int + x - 26) as char
    else if x < 62 then ('0' as int + x - 52) as char
    else if x == 62 then '+'
    else '/'
  }

  /** The 6-bit value a character encodes, or None outside the alphabet. */
  function IndexOf(c: char): (r: Option<int>)
    ensures r.Some? <==> InAlphabet(c)
    ensures r.Some? ==> 0 <= r.value < 64
  {
    if 'A' <= c <= 'Z' then Some(c as int - 'A' as int)
    else if 'a' <= c <= 'z' then Some(c as int - 'a' as int + 26)
    else if '0' <= c <= '9' then Some(c as int - '0' as int + 52)
    else if c == '+' then Some(62)
    else if c == '/' then Some(63)
    else None
  }

  /** Three bytes as four characters: each character carries six of the 24 bits, most significant first. */
  function EncodeQuantum(b0: byte, b1: byte, b2: byte): string {
    [Sextet(b0 / 4), Sextet((b0 % 4) * 16 + b1 / 16), Sextet((b1 % 16) * 4 + b2 / 64), Sextet(b2 % 64)]
  }

  /** Base64 encoding with `=` padding (section 4 of RFC 4648). */
  function Encode(b: seq<byte>): string
    decreases |b|
  {
    if |b| == 0 then []
    else if |b| == 1 then [Sextet(b[0] / 4), Sextet((b[0] % 4) * 16), '=', '=']
    else if |b| == 2 then [Sextet(b[0] / 4), Sextet((b[0] % 4) * 16 + b[1] / 16), Sextet((b[1] % 16) * 4), '=']
    else EncodeQuantum(b[0], b[1], b[2]) + Encode(b[3..])
  }

  /** Four 6-bit values back to the three bytes they carry. */
  function DecodeQuantum(i0: int, i1: int, i2: int, i3: int): (r: seq<byte>)
    requires 0 <= i0 < 64 && 0 <= i1 < 64 && 0 <= i2 < 64 && 0 <= i3 < 64
    ensures |r| == 3
  {
    [i0 * 4 + i1 / 16, (i1 % 16) * 16 + i2 / 4, (i2 % 4) * 64 + i3]
  }

  /**
   * Base64 decoding of a padded string: None when the length is not a
   * multiple of four, a character is outside the alphabet, or padding
   * appears anywhere but in the last one or two positions.
   */
  function Decode(s: string): Option<seq<byte>>
    decreases |s|
  {
    if s == [] then Some([])
    else if |s| < 4 then None
    else
      var o0, o1, o2, o3 := IndexOf(s[0]), IndexOf(s[1]), IndexOf(s[2]), IndexOf(s[3]);
      if o0.None? || o1.None? then None
      else if |s| == 4 && s[2] == '=' && s[3] == '=' then
        Some(DecodeQuantum(o0.value, o1.value, 0, 0)[..1])
      else if |s| == 4 && o2.Some? && s[3] == '=' then
        Some(DecodeQuantum(o0.value, o1.value, o2.value, 0)[..2])
      else if o2.None? || o3.None? then None
      else
        match Decode(s[4..])
        case None => None
        case Some(rest) => Some(DecodeQuantum(o0.value, o1.value, o2.value, o3.value) + rest)
  }

  /** One quantum survives encoding and decoding. */
  lemma QuantumRoundTrip(b0: byte, b1: byte, b2: byte)
    ensures DecodeQuantum(b0 / 4, (b0 % 4) * 16 + b1 / 16, (b1 % 16) * 4 + b2 / 64, b2 % 64) == [b0, b1, b2]
  {
    assert ((b0 % 4) * 16 + b1 / 16) / 16 == b0 % 4;
    assert ((b0 % 4) * 16 + b1 / 16) % 16 == b1 / 16;
    assert ((b1 % 16) * 4 + b2 / 64) / 4 == b1 % 16;
    assert ((b1 % 16) * 4 + b2 / 64) % 4 == b2 / 64;
  }

  /** A final single byte, padded with `==`, decodes back to that byte. */
  lemma EncodeDecodeOne(b0: byte)
    ensures Decode(Encode([b0])) == Some([b0])
  {
    var i0, i1 := b0 / 4, (b0 % 4) * 16;
    var e := Encode([b0]);
    assert e == [Sextet(i0), Sextet(i1), '=', '='];
    QuantumRoundTrip(b0, 0, 0);
    assert DecodeQuantum(i0, i1, 0, 0) == [b0, 0, 0];
    assert Decode(e) == Some(DecodeQuantum(i0, i1, 0, 0)[..1]);
    assert [b0, 0, 0][..1] == [b0];
  }

  /** A final pair of bytes, padded with `=`, decodes back to those bytes. */
  lemma EncodeDecodeTwo(b0: byte, b1: byte)
    ensures Decode(Encode([b0, b1])) == Some([b0, b1])
  {
    var i0, i1, i2 := b0 / 4, (b0 % 4) * 16 + b1 / 16, (b1 % 16) * 4;
    var e := Encode([b0, b1]);
    assert e == [Sextet(i0), Sextet(i1), Sextet(i2), '='];
    QuantumRoundTrip(b0, b1, 0);
    assert DecodeQuantum(i0, i1, i2, 0) == [b0, b1, 0];
    assert Decode(e) == Some(DecodeQuantum(i0, i1, i2, 0)[..2]);
    assert [b0, b1, 0][..2] == [b0, b1];
  }

  /** The padded encoding decodes back to the original bytes. */
  lemma {:induction false} EncodeDecode(b: seq<byte>)
    ensures Decode(Encode(b)) == Some(b)
    decreases |b|
  {
    if |b| == 1 {
      EncodeDecodeOne(b[0]);
      assert b == [b[0]];
    } else if |b| == 2 {
      EncodeDecodeTwo(b[0], b[1]);
      assert b == [b[0], b[1]];
    } else if |b| >= 3 {
      assert Encode(b) == EncodeQuantum(b[0], b[1], b[2]) + Encode(b[3..]);
      DecodeAfterQuantum(b[0], b[1], b[2], Encode(b[3..]));
      EncodeDecode(b[3..]);
      assert b == [b[0], b[1], b[2]] + b[3..];
    }
  }

  /** A leading group of four unpadded characters decodes to its three bytes, in front of whatever the rest decodes to. */
  lemma DecodeAfterQuantum(b0: byte, b1: byte, b2: byte, rest: string)
    ensures Decode(EncodeQuantum(b0, b1, b2) + rest) ==
      match Decode(rest)
      case None => None
      case Some(r) => Some([b0, b1, b2] + r)
  {
    var q := EncodeQuantum(b0, b1, b2);
    var s := q + rest;
    assert s[..4] == q && s[4..] == rest;
    assert s[2] != '=' && s[3] != '=';
    QuantumRoundTrip(b0, b1, b2);
  }

  /** Four characters for every started group of three bytes. */
  lemma {:induction false} EncodeLength(b: seq<byte>)
    ensures |Encode(b)| == 4 * ((|b| + 2) / 3)
    decreases |b|
  {
    if |b| >= 3 {
      EncodeLength(b[3..]);
    }
  }

  /** `s` with every occurrence of `c` removed (`s.replace(/c/g, '')`). */
  function RemoveAll(s: string, c: char): (r: string)
    ensures c !in r
  {
    if s == [] then [] else (if s[0] == c then [] else [s[0]]) + RemoveAll(s[1..], c)
  }

  lemma {:induction false} RemoveAllAppend(s: string, t: string, c: char)
    ensures RemoveAll(s + t, c) == RemoveAll(s, c) + RemoveAll(t, c)
    decreases |s|
  {
    if s == [] {
      assert s + t == t;
    } else {
      assert (s + t)[1..] == s[1..] + t;
      RemoveAllAppend(s[1..], t, c);
    }
  }

  lemma {:induction false} RemoveAllAbsent(s: string, c: char)
    requires c !in s
    ensures RemoveAll(s, c) == s
    decreases |s|
  {
    if s != [] {
      RemoveAllAbsent(s[1..], c);
    }
  }

  /** `s` followed by as many `=` as bring its length up to a multiple of four. */
  function Pad(s: string): string {
    var k := (4 - |s| % 4) % 4;
    s + seq(k, _ => '=')
  }
}
