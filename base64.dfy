/**
 * Base 64 encoding as section 4 of RFC 4648 defines it: the standard alphabet
 * A-Z a-z 0-9 + /, with '=' padding so that the text is a whole number of
 * four-character quanta. This is the `STANDARD` engine of the `base64` crate.
 */
module Base64 {
  import opened Wrappers

  type byte = x: int | 0 <= x < 256

  /** A six-bit group, the value one encoded character carries. */
  type sextet = x: int | 0 <= x < 64

  const PAD: char := '='

  /** Table 1 of RFC 4648: the character that encodes a six-bit value. */
  function Alphabet(v: sextet): char {
    if v < 26 then ('A' as int + v) as char
    else if v < 52 then ('a' as int + (v - 26)) as char
    else if v < 62 then ('0' as int + (v - 52)) as char
    else if v == 62 then '+'
    else '/'
  }

  predicate InAlphabet(c: char) {
    ('A' <= c <= 'Z') || ('a' <= c <= 'z') || ('0' <= c <= '9') || c == '+' || c == '/'
  }

  /** The six-bit value an alphabet character encodes: the inverse of the table. */
  function ValueOf(c: char): (v: sextet)
    requires InAlphabet(c)
    ensures Alphabet(v) == c
  {
    if 'A' <= c <= 'Z' then c as int - 'A' as int
    else if 'a' <= c <= 'z' then c as int - 'a' as int + 26
    else if '0' <= c <= '9' then c as int - '0' as int + 52
    else if c == '+' then 62
    else 63
  }

  lemma AlphabetValue(v: sextet)
    ensures InAlphabet(Alphabet(v)) && ValueOf(Alphabet(v)) == v
  {
  }

  /** Three bytes (24 bits) become four characters of six bits each. */
  function EncodeTriple(b0: byte, b1: byte, b2: byte): string {
    [Alphabet(b0 / 4), Alphabet((b0 % 4) * 16 + b1 / 16), Alphabet((b1 % 16) * 4 + b2 / 64), Alphabet(b2 % 64)]
  }

  /** A final group of two bytes: three characters, zero-filled, and one pad. */
  function EncodePair(b0: byte, b1: byte): string {
    [Alphabet(b0 / 4), Alphabet((b0 % 4) * 16 + b1 / 16), Alphabet((b1 % 16) * 4), PAD]
  }

  /** A final single byte: two characters, zero-filled, and two pads. */
  function EncodeSingle(b0: byte): string {
    [Alphabet(b0 / 4), Alphabet((b0 % 4) * 16), PAD, PAD]
  }

  /** `STANDARD.encode(bytes)`. */
  function Encode(bytes: seq<byte>): string
    decreases |bytes|
  {
    if |bytes| == 0 then ""
    else if |bytes| == 1 then EncodeSingle(bytes[0])
    else if |bytes| == 2 then EncodePair(bytes[0], bytes[1])
    else EncodeTriple(bytes[0], bytes[1], bytes[2]) + Encode(bytes[3..])
  }

  /** The encoding is four characters for every started group of three bytes. */
  lemma {:induction false} EncodeLength(bytes: seq<byte>)
    ensures |Encode(bytes)| == 4 * ((|bytes| + 2) / 3)
    decreases |bytes|
  {
    if |bytes| > 3 {
      EncodeGroupLength(bytes);
      EncodeLength(bytes[3..]);
      QuantaCount(|bytes[3..]|);
    } else if |bytes| > 0 {
      ShortLength(bytes);
    }
  }

  /** One to three bytes make one quantum. */
  lemma ShortLength(bytes: seq<byte>)
    requires 1 <= |bytes| <= 3
    ensures |Encode(bytes)| == 4 && 4 * ((|bytes| + 2) / 3) == 4
  {
    if |bytes| == 3 {
      assert Encode(bytes) == EncodeTriple(bytes[0], bytes[1], bytes[2]) + Encode([]);
    }
  }

  /** A leading group of three bytes adds one quantum. */
  lemma EncodeGroupLength(bytes: seq<byte>)
    requires |bytes| > 3
    ensures |Encode(bytes)| == 4 + |Encode(bytes[3..])|
  {
  }

  /** Three more bytes start exactly one more group. */
  lemma QuantaCount(n: nat)
    ensures 4 * ((n + 3 + 2) / 3) == 4 + 4 * ((n + 2) / 3)
  {
    assert (n + 3 + 2) / 3 == (n + 2) / 3 + 1;
  }

  /** Decodes one four-character quantum; padding yields one or two bytes. */
  function DecodeQuantum(q: string): (r: Option<seq<byte>>)
    requires |q| == 4
    ensures r.Some? ==> 1 <= |r.value| <= 3
  {
    if !InAlphabet(q[0]) || !InAlphabet(q[1]) then None
    else
      var c0, c1 := ValueOf(q[0]), ValueOf(q[1]);
      var b0 := c0 * 4 + c1 / 16;
      if q[2] == PAD && q[3] == PAD then Some([b0])
      else if !InAlphabet(q[2]) then None
      else
        var c2 := ValueOf(q[2]);
        var b1 := (c1 % 16) * 16 + c2 / 4;
        if q[3] == PAD then Some([b0, b1])
        else if !InAlphabet(q[3]) then None
        else Some([b0, b1, (c2 % 4) * 64 + ValueOf(q[3])])
  }

  /**
   * Decodes padded base 64 text; fails on a length that is not a multiple of four,
   * on a character outside the alphabet, and on padding before the last quantum.
   */
  function Decode(s: string): Option<seq<byte>>
    decreases |s|
  {
    if |s| == 0 then Some([])
    else if |s| < 4 then None
    else match DecodeQuantum(s[..4])
      case None => None
      case Some(head) =>
        if |head| < 3 && |s| > 4 then None
        else match Decode(s[4..])
          case None => None
          case Some(tail) => Some(head + tail)
  }

  /** Four alphabet characters decode to the three bytes their 24 bits spell. */
  lemma DecodeFour(c0: sextet, c1: sextet, c2: sextet, c3: sextet)
    ensures DecodeQuantum([Alphabet(c0), Alphabet(c1), Alphabet(c2), Alphabet(c3)])
      == Some([c0 * 4 + c1 / 16, (c1 % 16) * 16 + c2 / 4, (c2 % 4) * 64 + c3])
  {
    AlphabetValue(c0);
    AlphabetValue(c1);
    AlphabetValue(c2);
    AlphabetValue(c3);
  }

  /** Three characters and a pad decode to the two bytes their first 16 bits spell. */
  lemma DecodeThree(c0: sextet, c1: sextet, c2: sextet)
    ensures DecodeQuantum([Alphabet(c0), Alphabet(c1), Alphabet(c2), PAD])
      == Some([c0 * 4 + c1 / 16, (c1 % 16) * 16 + c2 / 4])
  {
    AlphabetValue(c0);
    AlphabetValue(c1);
    AlphabetValue(c2);
  }

  /** Two characters and two pads decode to the byte their first 8 bits spell. */
  lemma DecodeTwo(c0: sextet, c1: sextet)
    ensures DecodeQuantum([Alphabet(c0), Alphabet(c1), PAD, PAD]) == Some([c0 * 4 + c1 / 16])
  {
    AlphabetValue(c0);
    AlphabetValue(c1);
  }

  /** Regrouping the six-bit groups of three bytes gives the bytes back. */
  lemma TripleBits(b0: byte, b1: byte, b2: byte)
    ensures (b0 / 4) * 4 + ((b0 % 4) * 16 + b1 / 16) / 16 == b0
    ensures (((b0 % 4) * 16 + b1 / 16) % 16) * 16 + ((b1 % 16) * 4 + b2 / 64) / 4 == b1
    ensures (((b1 % 16) * 4 + b2 / 64) % 4) * 64 + b2 % 64 == b2
  {
    assert ((b0 % 4) * 16 + b1 / 16) / 16 == b0 % 4;
    assert ((b0 % 4) * 16 + b1 / 16) % 16 == b1 / 16;
    assert ((b1 % 16) * 4 + b2 / 64) / 4 == b1 % 16;
    assert ((b1 % 16) * 4 + b2 / 64) % 4 == b2 / 64;
  }

  lemma TripleRoundTrip(b0: byte, b1: byte, b2: byte)
    ensures DecodeQuantum(EncodeTriple(b0, b1, b2)) == Some([b0, b1, b2])
  {
    DecodeFour(b0 / 4, (b0 % 4) * 16 + b1 / 16, (b1 % 16) * 4 + b2 / 64, b2 % 64);
    TripleBits(b0, b1, b2);
  }

  lemma PairRoundTrip(b0: byte, b1: byte)
    ensures DecodeQuantum(EncodePair(b0, b1)) == Some([b0, b1])
  {
    DecodeThree(b0 / 4, (b0 % 4) * 16 + b1 / 16, (b1 % 16) * 4);
    assert ((b0 % 4) * 16 + b1 / 16) / 16 == b0 % 4;
    assert ((b0 % 4) * 16 + b1 / 16) % 16 == b1 / 16;
    assert ((b1 % 16) * 4) / 4 == b1 % 16;
  }

  lemma SingleRoundTrip(b0: byte)
    ensures DecodeQuantum(EncodeSingle(b0)) == Some([b0])
  {
    DecodeTwo(b0 / 4, (b0 % 4) * 16);
    assert ((b0 % 4) * 16) / 16 == b0 % 4;
  }

  /** A text of one quantum decodes to what that quantum decodes to. */
  lemma DecodeLastQuantum(q: string)
    requires |q| == 4
    ensures Decode(q) == DecodeQuantum(q)
  {
    assert q[..4] == q;
    assert q[4..] == "";
    if DecodeQuantum(q).Some? {
      assert DecodeQuantum(q).value + [] == DecodeQuantum(q).value;
    }
  }

  /** A full quantum in front of more text contributes its three bytes in front. */
  lemma DecodeFullQuantum(q: string, rest: string, head: seq<byte>)
    requires |q| == 4 && |rest| > 0
    requires DecodeQuantum(q) == Some(head) && |head| == 3
    ensures Decode(q + rest) == if Decode(rest).Some? then Some(head + Decode(rest).value) else None
  {
    assert (q + rest)[..4] == q;
    assert (q + rest)[4..] == rest;
  }

  /** One byte encodes to one quantum that decodes back to it. */
  lemma SingleQuantum(group: seq<byte>)
    requires |group| == 1
    ensures |Encode(group)| == 4 && DecodeQuantum(Encode(group)) == Some(group)
  {
    assert [group[0]] == group;
    assert Encode(group) == EncodeSingle(group[0]);
    SingleRoundTrip(group[0]);
  }

  /** Two bytes encode to one quantum that decodes back to them. */
  lemma PairQuantum(group: seq<byte>)
    requires |group| == 2
    ensures |Encode(group)| == 4 && DecodeQuantum(Encode(group)) == Some(group)
  {
    assert [group[0], group[1]] == group;
    assert Encode(group) == EncodePair(group[0], group[1]);
    PairRoundTrip(group[0], group[1]);
  }

  /** A group of three bytes encodes to one full quantum that decodes back to it. */
  lemma TripleQuantum(group: seq<byte>)
    requires |group| == 3
    ensures |Encode(group)| == 4 && DecodeQuantum(Encode(group)) == Some(group)
  {
    assert [group[0], group[1], group[2]] == group;
    var q := EncodeTriple(group[0], group[1], group[2]);
    assert Encode(group) == q + Encode(group[3..]);
    assert q + Encode(group[3..]) == q;
    TripleRoundTrip(group[0], group[1], group[2]);
  }

  /** An input of one to three bytes round-trips through its single quantum. */
  lemma DecodeEncodeShort(bytes: seq<byte>)
    requires 1 <= |bytes| <= 3
    ensures Decode(Encode(bytes)) == Some(bytes)
  {
    if |bytes| == 1 {
      SingleQuantum(bytes);
    } else if |bytes| == 2 {
      PairQuantum(bytes);
    } else {
      TripleQuantum(bytes);
    }
    DecodeLastQuantum(Encode(bytes));
  }

  /** Longer inputs are encoded three bytes at a time from the front. */
  lemma EncodeUnfold(bytes: seq<byte>)
    requires |bytes| > 3
    ensures Encode(bytes) == Encode(bytes[..3]) + Encode(bytes[3..])
  {
    var group := bytes[..3];
    assert group[3..] == [];
    assert Encode(group) == EncodeTriple(bytes[0], bytes[1], bytes[2]) + Encode([]);
  }

  lemma DecodeEncodeCons(bytes: seq<byte>)
    requires |bytes| > 3 && Decode(Encode(bytes[3..])) == Some(bytes[3..])
    ensures Decode(Encode(bytes)) == Some(bytes)
  {
    var group, rest := bytes[..3], bytes[3..];
    assert group + rest == bytes;
    EncodeUnfold(bytes);
    TripleQuantum(group);
    DecodeFullQuantum(Encode(group), Encode(rest), group);
  }

  /** Decoding undoes encoding: the bytes come back exactly. */
  lemma {:induction false} DecodeEncode(bytes: seq<byte>)
    ensures Decode(Encode(bytes)) == Some(bytes)
    decreases |bytes|
  {
    if |bytes| > 3 {
      DecodeEncode(bytes[3..]);
      DecodeEncodeCons(bytes);
    } else if |bytes| > 0 {
      DecodeEncodeShort(bytes);
    }
  }
}
