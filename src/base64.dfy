/** Base 64 encoding with the standard alphabet and `=` padding, as section 4
    of RFC 4648 defines it: every group of three octets becomes four
    characters, a final group of one or two octets is padded with "==" or "=". */
module Base64 {
  import opened Common

  type uint8 = x: int | 0 <= x < 256

  /** A 6-bit group, the value one encoding character stands for. */
  type Sextet = x: int | 0 <= x < 64

  predicate IsAlphabetChar(c: char)
  {
    ('A' <= c <= 'Z') || ('a' <= c <= 'z') || ('0' <= c <= '9') || c == '+' || c == '/'
  }

  /** The value a character of the alphabet stands for. */
  function ValueOf(c: char): Sextet
    requires IsAlphabetChar(c)
  {
    if 'A' <= c <= 'Z' then c as int - 'A' as int
    else if 'a' <= c <= 'z' then c as int - 'a' as int + 26
    else if '0' <= c <= '9' then c as int - '0' as int + 52
    else if c == '+' then 62
    else 63
  }

  /** Table 1 of RFC 4648: the character for a 6-bit value; ValueOf undoes it. */
  function CharOf(v: Sextet): (c: char)
    ensures IsAlphabetChar(c) && ValueOf(c) == v
  {
    if v < 26 then ('A' as int + v) as char
    else if v < 52 then ('a' as int + (v - 26)) as char
    else if v < 62 then ('0' as int + (v - 52)) as char
    else if v == 62 then '+'
    else '/'
  }

  /** Characters of an encoding: the alphabet and the pad character. */
  predicate IsEncodingChar(c: char)
  {
    IsAlphabetChar(c) || c == '='
  }

  /** The four characters for three octets (24 bits, most significant first). */
  function EncodeTriple(b0: uint8, b1: uint8, b2: uint8): (q: string)
    ensures |q| == 4 && forall i :: 0 <= i < 4 ==> IsAlphabetChar(q[i])
  {
    [CharOf(b0 / 4), CharOf((b0 % 4) * 16 + b1 / 16), CharOf((b1 % 16) * 4 + b2 / 64), CharOf(b2 % 64)]
  }

  /** The padded base 64 encoding of an octet sequence. */
  function Encode(bytes: seq<uint8>): (s: string)
    ensures |s| == 4 * ((|bytes| + 2) / 3)
    ensures forall i :: 0 <= i < |s| ==> IsEncodingChar(s[i])
    decreases |bytes|
  {
    if |bytes| == 0 then ""
    else if |bytes| == 1 then
      [CharOf(bytes[0] / 4), CharOf((bytes[0] % 4) * 16), '=', '=']
    else if |bytes| == 2 then
      [CharOf(bytes[0] / 4), CharOf((bytes[0] % 4) * 16 + bytes[1] / 16), CharOf((bytes[1] % 16) * 4), '=']
    else
      assert (|bytes| + 2) / 3 == (|bytes[3..]| + 2) / 3 + 1;
      EncodeTriple(bytes[0], bytes[1], bytes[2]) + Encode(bytes[3..])
  }

  /** One group of four characters back to its octets; padding is accepted
      only in the final group. */
  function DecodeQuad(q: string, last: bool): (r: Option<seq<uint8>>)
    requires |q| == 4
    ensures r.Some? ==> 1 <= |r.value| <= 3
    ensures r.Some? && |r.value| < 3 ==> last
  {
    if !IsAlphabetChar(q[0]) || !IsAlphabetChar(q[1]) then None
    else
      var c0: int, c1: int := ValueOf(q[0]), ValueOf(q[1]);
      if q[2] == '=' then
        if q[3] == '=' && last then Some([c0 * 4 + c1 / 16]) else None
      else if !IsAlphabetChar(q[2]) then None
      else
        var c2: int := ValueOf(q[2]);
        if q[3] == '=' then
          if last then Some([c0 * 4 + c1 / 16, (c1 % 16) * 16 + c2 / 4]) else None
        else if !IsAlphabetChar(q[3]) then None
        else
          var c3: int := ValueOf(q[3]);
          Some([c0 * 4 + c1 / 16, (c1 % 16) * 16 + c2 / 4, (c2 % 4) * 64 + c3])
  }

  /** Decoding of a padded base 64 text; None for a text that is not one. */
  function Decode(s: string): (r: Option<seq<uint8>>)
    ensures r.Some? ==> |s| % 4 == 0
    decreases |s|
  {
    if |s| == 0 then Some([])
    else if |s| < 4 then None
    else
      match DecodeQuad(s[..4], |s| == 4)
      case None => None
      case Some(head) =>
        match Decode(s[4..])
        case None => None
        case Some(tail) => Some(head + tail)
  }

  /** The arithmetic behind one group: the four 6-bit values of three octets
      give those octets back. */
  lemma {:induction false} TripleBits(b0: uint8, b1: uint8, b2: uint8)
    ensures (b0 / 4) * 4 + ((b0 % 4) * 16 + b1 / 16) / 16 == b0
    ensures (((b0 % 4) * 16 + b1 / 16) % 16) * 16 + ((b1 % 16) * 4 + b2 / 64) / 4 == b1
    ensures (((b1 % 16) * 4 + b2 / 64) % 4) * 64 + b2 % 64 == b2
  {
    var h0 := b0 % 4;
    var l1 := b1 / 16;
    assert (h0 * 16 + l1) / 16 == h0 && (h0 * 16 + l1) % 16 == l1;
    var h1 := b1 % 16;
    var l2 := b2 / 64;
    assert (h1 * 4 + l2) / 4 == h1 && (h1 * 4 + l2) % 4 == l2;
  }

  lemma {:induction false} TripleRoundTrip(b0: uint8, b1: uint8, b2: uint8, last: bool)
    ensures DecodeQuad(EncodeTriple(b0, b1, b2), last) == Some([b0, b1, b2])
  {
    var q := EncodeTriple(b0, b1, b2);
    var v0: int, v1: int, v2: int, v3: int := b0 / 4, (b0 % 4) * 16 + b1 / 16, (b1 % 16) * 4 + b2 / 64, b2 % 64;
    assert ValueOf(q[0]) == v0 && ValueOf(q[1]) == v1 && ValueOf(q[2]) == v2 && ValueOf(q[3]) == v3;
    assert q[2] != '=' && q[3] != '=';
    TripleBits(b0, b1, b2);
    assert DecodeQuad(q, last) == Some([v0 * 4 + v1 / 16, (v1 % 16) * 16 + v2 / 4, (v2 % 4) * 64 + v3]);
  }

  lemma {:induction false} SingleRoundTrip(b0: uint8)
    ensures Decode(Encode([b0])) == Some([b0])
  {
    TripleBits(b0, 0, 0);
    var s := Encode([b0]);
    assert s[..4] == s && s[4..] == "";
    var c0: int, c1: int := ValueOf(s[0]), ValueOf(s[1]);
    assert c0 * 4 + c1 / 16 == b0;
    assert DecodeQuad(s, true) == Some([b0]);
    assert Decode(s[4..]) == Some([]);
    assert [b0] + [] == [b0];
  }

  lemma {:induction false} PairRoundTrip(b0: uint8, b1: uint8)
    ensures Decode(Encode([b0, b1])) == Some([b0, b1])
  {
    TripleBits(b0, b1, 0);
    var s := Encode([b0, b1]);
    assert s[..4] == s && s[4..] == "";
    var c0: int, c1: int, c2: int := ValueOf(s[0]), ValueOf(s[1]), ValueOf(s[2]);
    assert c0 * 4 + c1 / 16 == b0;
    assert (c1 % 16) * 16 + c2 / 4 == b1;
    assert DecodeQuad(s, true) == Some([b0, b1]);
    assert Decode(s[4..]) == Some([]);
    assert [b0, b1] + [] == [b0, b1];
  }

  /** Section 4 of RFC 4648 round trip: decoding the encoding of any octet
      sequence gives the sequence back. */
  lemma {:induction false} DecodeEncode(bytes: seq<uint8>)
    ensures Decode(Encode(bytes)) == Some(bytes)
    decreases |bytes|
  {
    if |bytes| == 1 {
      SingleRoundTrip(bytes[0]);
      assert bytes == [bytes[0]];
    } else if |bytes| == 2 {
      PairRoundTrip(bytes[0], bytes[1]);
      assert bytes == [bytes[0], bytes[1]];
    } else if |bytes| >= 3 {
      DecodeEncode(bytes[3..]);
      GroupStep(bytes);
    }
  }

  /** One full group in front of a sequence that round-trips. */
  lemma {:induction false} GroupStep(bytes: seq<uint8>)
    requires |bytes| >= 3 && Decode(Encode(bytes[3..])) == Some(bytes[3..])
    ensures Decode(Encode(bytes)) == Some(bytes)
  {
    var s := Encode(bytes);
    var q := EncodeTriple(bytes[0], bytes[1], bytes[2]);
    var tail := Encode(bytes[3..]);
    EncodeGroup(bytes);
    SplitAfter(q, tail);
    TripleRoundTrip(bytes[0], bytes[1], bytes[2], |s| == 4);
    DecodeGroup(s, [bytes[0], bytes[1], bytes[2]], bytes[3..]);
    GroupOf(bytes);
  }

  /** A concatenation splits back into its parts. */
  lemma SplitAfter(q: string, tail: string)
    ensures (q + tail)[..|q|] == q && (q + tail)[|q|..] == tail
  {
  }

  /** A sequence of three or more octets is its first group and the rest. */
  lemma GroupOf(bytes: seq<uint8>)
    requires |bytes| >= 3
    ensures bytes == [bytes[0], bytes[1], bytes[2]] + bytes[3..]
  {
  }

  /** Encoding writes the first group, then the rest. */
  lemma EncodeGroup(bytes: seq<uint8>)
    requires |bytes| >= 3
    ensures Encode(bytes) == EncodeTriple(bytes[0], bytes[1], bytes[2]) + Encode(bytes[3..])
  {
  }

  /** Decoding reads the first group, then the rest. */
  lemma DecodeGroup(s: string, head: seq<uint8>, tail: seq<uint8>)
    requires |s| >= 4 && DecodeQuad(s[..4], |s| == 4) == Some(head) && Decode(s[4..]) == Some(tail)
    ensures Decode(s) == Some(head + tail)
  {
  }

  /** Distinct octet sequences have distinct encodings. */
  lemma EncodeInjective(a: seq<uint8>, b: seq<uint8>)
    requires Encode(a) == Encode(b)
    ensures a == b
  {
    DecodeEncode(a);
    DecodeEncode(b);
  }
}
