/**
 * UTF-8, the encoding `Buffer.from(string)` applies before `urnify`
 * base64-encodes an object id: each Unicode scalar value becomes one to
 * four bytes.
 */
module Utf8 {
  import opened Wrappers
  import opened Base64

  /** The UTF-8 bytes of one scalar value. */
  function EncodeChar(c: char): (r: seq<byte>)
    ensures 1 <= |r| <= 4
  {
    var v := c as int;
    if v < 0x80 then [v]
    else if v < 0x800 then [0xC0 + v / 64, 0x80 + v % 64]
    else if v < 0x10000 then [0xE0 + v / 4096, 0x80 + (v / 64) % 64, 0x80 + v % 64]
    else [0xF0 + v / 262144, 0x80 + (v / 4096) % 64, 0x80 + (v / 64) % 64, 0x80 + v % 64]
  }

  /** `Buffer.from(s)`: the concatenated UTF-8 bytes of every character of `s`. */
  function Encode(s: string): seq<byte> {
    if s == [] then [] else EncodeChar(s[0]) + Encode(s[1..])
  }

  /** The number of bytes a sequence starting with lead byte `b0` takes, or 0 for a byte that cannot lead. */
  function SequenceLength(b0: byte): nat {
    if b0 < 0x80 then 1
    else if 0xC0 <= b0 < 0xE0 then 2
    else if 0xE0 <= b0 < 0xF0 then 3
    else if 0xF0 <= b0 < 0xF8 then 4
    else 0
  }

  predicate IsContinuation(b: byte) {
    0x80 <= b < 0xC0
  }

  /** The scalar value of one well-formed encoded character. */
  function DecodeValue(b: seq<byte>): int
    requires 1 <= |b| <= 4
  {
    if |b| == 1 then b[0]
    else if |b| == 2 then (b[0] as int - 0xC0) * 64 + (b[1] as int - 0x80)
    else if |b| == 3 then (b[0] as int - 0xE0) * 4096 + (b[1] as int - 0x80) * 64 + (b[2] as int - 0x80)
    else (b[0] as int - 0xF0) * 262144 + (b[1] as int - 0x80) * 4096 + (b[2] as int - 0x80) * 64 + (b[3] as int - 0x80)
  }

  predicate IsScalar(v: int) {
    (0 <= v < 0xD800) || (0xE000 <= v < 0x11_0000)
  }

  /** UTF-8 decoding: None on a bad lead byte, a missing or bad continuation byte, or a value that is not a scalar. */
  function Decode(b: seq<byte>): Option<string>
    decreases |b|
  {
    if b == [] then Some([])
    else
      var n := SequenceLength(b[0]);
      if n == 0 || |b| < n then None
      else if exists k :: 1 <= k < n && !IsContinuation(b[k]) then None
      else
        var v := DecodeValue(b[..n]);
        if !IsScalar(v) then None
        else
          match Decode(b[n..])
          case None => None
          case Some(rest) => Some([v as char] + rest)
  }

  /** One character's bytes: a lead byte that announces their number, continuation bytes after it, and the same value back. */
  lemma CharRoundTrip(c: char)
    ensures SequenceLength(EncodeChar(c)[0]) == |EncodeChar(c)|
    ensures forall k :: 1 <= k < |EncodeChar(c)| ==> IsContinuation(EncodeChar(c)[k])
    ensures DecodeValue(EncodeChar(c)) == c as int
  {
    var v := c as int;
    assert v == (v / 64) * 64 + v % 64;
    assert v / 64 == (v / 4096) * 64 + (v / 64) % 64;
    assert v / 4096 == (v / 262144) * 64 + (v / 4096) % 64;
  }

  /** Decoding the bytes of a string gives the string back. */
  lemma {:induction false} EncodeDecode(s: string)
    ensures Decode(Encode(s)) == Some(s)
  {
    if s != [] {
      var e := EncodeChar(s[0]);
      var b := Encode(s);
      assert b == e + Encode(s[1..]);
      CharRoundTrip(s[0]);
      assert b[..|e|] == e;
      assert b[|e|..] == Encode(s[1..]);
      assert forall k :: 1 <= k < |e| ==> b[k] == e[k];
      EncodeDecode(s[1..]);
      assert (s[0] as int) as char == s[0];
      assert s == [s[0]] + s[1..];
    }
  }

  /** Distinct strings have distinct byte encodings. */
  lemma EncodeInjective(s: string, t: string)
    requires Encode(s) == Encode(t)
    ensures s == t
  {
    EncodeDecode(s);
    EncodeDecode(t);
  }
}
