/** The base 64 encoding of section 4 of RFC 4648 (alphabet A-Z a-z 0-9 + /,
    '=' padding), which is what the key store uses as its "encryption". */
module Base64 {
  import opened Common

  /** Index of the alphabet: value 0..63 to its character (Table 1 of RFC 4648). */
  function Sextet(v: int): (c: char)
    requires 0 <= v < 64
  {
    if v < 26 then ('A' as int + v) as char
    else if v < 52 then ('a' as int + (v - 26)) as char
    else if v < 62 then ('0' as int + (v - 52)) as char
    else if v == 62 then '+'
    else '/'
  }

  /** Inverse of the alphabet: a character to its value, or None outside the alphabet
      (the pad character '=' included). */
  function SextetValue(c: char): (r: Option<int>)
    ensures r.Some? ==> 0 <= r.value < 64 && Sextet(r.value) == c
  {
    if 'A' <= c <= 'Z' then Some(c as int - 'A' as int)
    else if 'a' <= c <= 'z' then Some(c as int - 'a' as int + 26)
    else if '0' <= c <= '9' then Some(c as int - '0' as int + 52)
    else if c == '+' then Some(62)
    else if c == '/' then Some(63)
    else None
  }

  lemma SextetRoundTrip(v: int)
    requires 0 <= v < 64
    ensures SextetValue(Sextet(v)) == Some(v)
    ensures Sextet(v) != '='
  {
  }

  /** Three bytes (24 bits) to four characters. */
  function EncodeGroup(b0: byte, b1: byte, b2: byte): seq<char> {
    [Sextet(b0 / 4), Sextet((b0 % 4) * 16 + b1 / 16), Sextet((b1 % 16) * 4 + b2 / 64), Sextet(b2 % 64)]
  }

  /** A final one-byte group: two characters and two pad characters. */
  function EncodeTail1(b0: byte): seq<char> {
    [Sextet(b0 / 4), Sextet((b0 % 4) * 16), '=', '=']
  }

  /** A final two-byte group: three characters and one pad character. */
  function EncodeTail2(b0: byte, b1: byte): seq<char> {
    [Sextet(b0 / 4), Sextet((b0 % 4) * 16 + b1 / 16), Sextet((b1 % 16) * 4), '=']
  }

  function Encode(s: seq<byte>): (r: string)
    ensures |r| == 4 * ((|s| + 2) / 3)
    decreases |s|
  {
    if |s| == 0 then []
    else if |s| == 1 then EncodeTail1(s[0])
    else if |s| == 2 then EncodeTail2(s[0], s[1])
    else EncodeGroup(s[0], s[1], s[2]) + Encode(s[3..])
  }

  /** Four alphabet characters to three bytes. */
  function DecodeGroup(q: seq<char>): Option<seq<byte>>
    requires |q| == 4
  {
    match (SextetValue(q[0]), SextetValue(q[1]), SextetValue(q[2]), SextetValue(q[3]))
    case (Some(c0), Some(c1), Some(c2), Some(c3)) =>
      Some([c0 * 4 + c1 / 16, (c1 % 16) * 16 + c2 / 4, (c2 % 4) * 64 + c3])
    case _ => None
  }

  /** The last group of an encoding: full, or padded with one or two '='.
      The bits the padding leaves over must be zero (the canonical form). */
  function DecodeLast(q: seq<char>): Option<seq<byte>>
    requires |q| == 4
  {
    if q[3] != '=' then DecodeGroup(q)
    else if q[2] != '=' then
      match (SextetValue(q[0]), SextetValue(q[1]), SextetValue(q[2]))
      case (Some(c0), Some(c1), Some(c2)) =>
        if c2 % 4 == 0 then Some([c0 * 4 + c1 / 16, (c1 % 16) * 16 + c2 / 4]) else None
      case _ => None
    else
      match (SextetValue(q[0]), SextetValue(q[1]))
      case (Some(c0), Some(c1)) =>
        if c1 % 16 == 0 then Some([c0 * 4 + c1 / 16]) else None
      case _ => None
  }

  /** Decoding of canonical base 64 text; None for anything else. */
  function Decode(s: string): Option<seq<byte>>
    decreases |s|
  {
    if |s| == 0 then Some([])
    else if |s| < 4 then None
    else if |s| == 4 then DecodeLast(s)
    else
      match DecodeGroup(s[..4])
      case None => None
      case Some(head) =>
        match Decode(s[4..])
        case None => None
        case Some(rest) => Some(head + rest)
  }

  lemma GroupRoundTrip(b0: byte, b1: byte, b2: byte)
    ensures DecodeGroup(EncodeGroup(b0, b1, b2)) == Some([b0, b1, b2])
  {
    var c0, c1, c2, c3 := b0 / 4, (b0 % 4) * 16 + b1 / 16, (b1 % 16) * 4 + b2 / 64, b2 % 64;
    SextetRoundTrip(c0); SextetRoundTrip(c1); SextetRoundTrip(c2); SextetRoundTrip(c3);
    Unpack16(b0 % 4, b1 / 16);
    Unpack4(b1 % 16, b2 / 64);
  }

  lemma Tail1RoundTrip(b0: byte)
    ensures DecodeLast(EncodeTail1(b0)) == Some([b0])
  {
    var c0, c1 := b0 / 4, (b0 % 4) * 16;
    SextetRoundTrip(c0); SextetRoundTrip(c1);
    assert c1 / 16 == b0 % 4 && c1 % 16 == 0;
  }

  lemma Tail2RoundTrip(b0: byte, b1: byte)
    ensures DecodeLast(EncodeTail2(b0, b1)) == Some([b0, b1])
  {
    var c0, c1, c2 := b0 / 4, (b0 % 4) * 16 + b1 / 16, (b1 % 16) * 4;
    SextetRoundTrip(c0); SextetRoundTrip(c1); SextetRoundTrip(c2);
    assert c1 / 16 == b0 % 4 && c1 % 16 == b1 / 16;
    assert c2 / 4 == b1 % 16 && c2 % 4 == 0;
  }

  lemma FullLastRoundTrip(b0: byte, b1: byte, b2: byte)
    ensures DecodeLast(EncodeGroup(b0, b1, b2)) == Some([b0, b1, b2])
  {
    SextetRoundTrip(b2 % 64);
    GroupRoundTrip(b0, b1, b2);
  }

  /** Decoding a full group followed by more text. */
  lemma DecodeConcat(h: string, t: string, a: seq<byte>, b: seq<byte>)
    requires |h| == 4 && |t| > 0
    requires DecodeGroup(h) == Some(a) && Decode(t) == Some(b)
    ensures Decode(h + t) == Some(a + b)
  {
    var e := h + t;
    assert e[..4] == h && e[4..] == t;
  }

  /** One step of Encode on more than three bytes. */
  lemma EncodeStep(s: seq<byte>)
    requires |s| > 3
    ensures Encode(s) == EncodeGroup(s[0], s[1], s[2]) + Encode(s[3..])
    ensures |Encode(s[3..])| > 0
  {
  }

  lemma DecodeFour(q: string)
    requires |q| == 4
    ensures Decode(q) == DecodeLast(q)
  {
  }

  lemma ShortRoundTrip(s: seq<byte>)
    requires 1 <= |s| <= 3
    ensures Decode(Encode(s)) == Some(s)
  {
    DecodeFour(Encode(s));
    if |s| == 1 {
      OneRoundTrip(s);
    } else if |s| == 2 {
      TwoRoundTrip(s);
    } else {
      ThreeRoundTrip(s);
    }
  }

  lemma OneRoundTrip(s: seq<byte>)
    requires |s| == 1
    ensures DecodeLast(Encode(s)) == Some(s)
  {
    Tail1RoundTrip(s[0]);
    assert [s[0]] == s;
  }

  lemma TwoRoundTrip(s: seq<byte>)
    requires |s| == 2
    ensures DecodeLast(Encode(s)) == Some(s)
  {
    Tail2RoundTrip(s[0], s[1]);
    assert [s[0], s[1]] == s;
  }

  lemma ThreeRoundTrip(s: seq<byte>)
    requires |s| == 3
    ensures DecodeLast(Encode(s)) == Some(s)
  {
    assert Encode(s[3..]) == [];
    assert Encode(s) == EncodeGroup(s[0], s[1], s[2]);
    FullLastRoundTrip(s[0], s[1], s[2]);
    assert [s[0], s[1], s[2]] == s;
  }

  /** Decoding undoes encoding, for every byte string. */
  lemma {:induction false} RoundTrip(s: seq<byte>)
    ensures Decode(Encode(s)) == Some(s)
    decreases |s|
  {
    if |s| == 0 {
    } else if |s| <= 3 {
      ShortRoundTrip(s);
    } else {
      RoundTrip(s[3..]);
      StepRoundTrip(s);
    }
  }

  /** The inductive step of the round trip: a full group in front of a
      string that already round-trips. */
  lemma StepRoundTrip(s: seq<byte>)
    requires |s| > 3 && Decode(Encode(s[3..])) == Some(s[3..])
    ensures Decode(Encode(s)) == Some(s)
  {
    SplitThree(s);
    EncodeStep(s);
    GroupRoundTrip(s[0], s[1], s[2]);
    DecodeConcat(EncodeGroup(s[0], s[1], s[2]), Encode(s[3..]), s[..3], s[3..]);
  }

  /** The first three bytes and the rest make up the whole. */
  lemma SplitThree(s: seq<byte>)
    requires |s| > 3
    ensures [s[0], s[1], s[2]] == s[..3] && s[..3] + s[3..] == s
  {
    assert [s[0], s[1], s[2]] == s[..3];
  }

  /** Splitting a packed value back into its two parts, for the three field
      widths of a group. */
  lemma Unpack4(hi: int, lo: int)
    requires 0 <= lo < 4
    ensures (hi * 4 + lo) / 4 == hi && (hi * 4 + lo) % 4 == lo
  {
  }

  lemma Unpack16(hi: int, lo: int)
    requires 0 <= lo < 16
    ensures (hi * 16 + lo) / 16 == hi && (hi * 16 + lo) % 16 == lo
  {
  }

  lemma Unpack64(hi: int, lo: int)
    requires 0 <= lo < 64
    ensures (hi * 64 + lo) / 64 == hi && (hi * 64 + lo) % 64 == lo
  {
  }

  lemma GroupCanonical(q: seq<char>)
    requires |q| == 4 && DecodeGroup(q).Some?
    ensures |DecodeGroup(q).value| == 3
    ensures EncodeGroup(DecodeGroup(q).value[0], DecodeGroup(q).value[1], DecodeGroup(q).value[2]) == q
  {
    var c0, c1, c2, c3 := SextetValue(q[0]).value, SextetValue(q[1]).value, SextetValue(q[2]).value, SextetValue(q[3]).value;
    var b0, b1, b2 := c0 * 4 + c1 / 16, (c1 % 16) * 16 + c2 / 4, (c2 % 4) * 64 + c3;
    assert DecodeGroup(q).value == [b0, b1, b2];
    Unpack4(c0, c1 / 16);
    Unpack16(c1 % 16, c2 / 4);
    Unpack64(c2 % 4, c3);
    assert (b0 % 4) * 16 + b1 / 16 == c1;
    assert (b1 % 16) * 4 + b2 / 64 == c2;
    assert EncodeGroup(b0, b1, b2) == [Sextet(c0), Sextet(c1), Sextet(c2), Sextet(c3)];
    assert q == [q[0], q[1], q[2], q[3]];
  }

  lemma LastCanonical(q: seq<char>)
    requires |q| == 4 && DecodeLast(q).Some?
    ensures 1 <= |DecodeLast(q).value| <= 3
    ensures Encode(DecodeLast(q).value) == q
  {
    var b := DecodeLast(q).value;
    if q[3] != '=' {
      GroupCanonical(q);
      assert Encode(b) == EncodeGroup(b[0], b[1], b[2]) + Encode(b[3..]);
      assert b[3..] == [];
    } else if q[2] != '=' {
      var c0, c1, c2 := SextetValue(q[0]).value, SextetValue(q[1]).value, SextetValue(q[2]).value;
      assert b[0] / 4 == c0 && b[0] % 4 == c1 / 16;
      assert b[1] / 16 == c1 % 16 && (b[1] % 16) * 4 == c2;
    } else {
      var c0, c1 := SextetValue(q[0]).value, SextetValue(q[1]).value;
      assert b[0] / 4 == c0 && (b[0] % 4) * 16 == c1;
    }
  }

  /** Every text the decoder accepts is the encoding of what it decodes to, so
      accepted texts and byte strings correspond one to one. */
  lemma {:induction false} Canonical(s: string)
    requires Decode(s).Some?
    ensures Encode(Decode(s).value) == s
    decreases |s|
  {
    if |s| == 0 {
    } else if |s| == 4 {
      LastCanonical(s);
    } else {
      var head := DecodeGroup(s[..4]).value;
      var rest := Decode(s[4..]).value;
      GroupCanonical(s[..4]);
      Canonical(s[4..]);
      var b := head + rest;
      assert b[..3] == head && b[3..] == rest;
      assert Encode(b) == EncodeGroup(b[0], b[1], b[2]) + Encode(b[3..]);
      assert s == s[..4] + s[4..];
    }
  }
}
