/**
 * The "base64url" encoding of section 5 of RFC 4648 with '=' padding, as
 * Go's base64.URLEncoding encodes and decodes it. The decoder is Go's
 * default (non-strict) one: carriage returns and line feeds anywhere in the
 * input are skipped, and the unused low bits of the last character before
 * padding are ignored rather than required to be zero.
 */
module Base64Url {
  import opened Wrappers

  type Byte = b: int | 0 <= b < 256

  const Pad: char := '='

  /** Table 2 of RFC 4648: the URL- and filename-safe alphabet. */
  predicate IsAlphabetChar(c: char)
  {
    ('A' <= c <= 'Z') || ('a' <= c <= 'z') || ('0' <= c <= '9') || c == '-' || c == '_'
  }

  function SextetChar(v: nat): (c: char)
    requires v < 64
    ensures IsAlphabetChar(c)
  {
    if v < 26 then (('A' as int) + v) as char
    else if v < 52 then (('a' as int) + (v - 26)) as char
    else if v < 62 then (('0' as int) + (v - 52)) as char
    else if v == 62 then '-'
    else '_'
  }

  function CharSextet(c: char): (v: nat)
    requires IsAlphabetChar(c)
    ensures v < 64 && SextetChar(v) == c
  {
    if 'A' <= c <= 'Z' then (c as int) - ('A' as int)
    else if 'a' <= c <= 'z' then (c as int) - ('a' as int) + 26
    else if '0' <= c <= '9' then (c as int) - ('0' as int) + 52
    else if c == '-' then 62
    else 63
  }

  lemma SextetCharInverse(v: nat)
    requires v < 64
    ensures CharSextet(SextetChar(v)) == v
  {
  }

  /** Three bytes become four characters, six bits each, most significant first. */
  function EncodeQuantum(b0: Byte, b1: Byte, b2: Byte): (s: string)
    ensures |s| == 4
  {
    [SextetChar(b0 / 4), SextetChar((b0 % 4) * 16 + b1 / 16),
     SextetChar((b1 % 16) * 4 + b2 / 64), SextetChar(b2 % 64)]
  }

  /**
   * base64.URLEncoding.EncodeToString: whole quanta first, then a final one-
   * or two-byte group padded with "==" or "=".
   */
  function Encode(b: seq<Byte>): (s: string)
    ensures |s| == 4 * ((|b| + 2) / 3)
    ensures forall i :: 0 <= i < |s| ==> IsAlphabetChar(s[i]) || s[i] == Pad
    decreases |b|
  {
    if |b| == 0 then ""
    else if |b| == 1 then [SextetChar(b[0] / 4), SextetChar((b[0] % 4) * 16), Pad, Pad]
    else if |b| == 2 then
      [SextetChar(b[0] / 4), SextetChar((b[0] % 4) * 16 + b[1] / 16), SextetChar((b[1] % 16) * 4), Pad]
    else EncodeQuantum(b[0], b[1], b[2]) + Encode(b[3..])
  }

  predicate IsNewline(c: char) { c == '\r' || c == '\n' }

  /** The input with every carriage return and line feed removed. */
  function StripNewlines(s: string): (r: string)
    ensures forall i :: 0 <= i < |r| ==> !IsNewline(r[i])
    ensures forall c :: c in r <==> c in s && !IsNewline(c)
    ensures |r| <= |s|
    decreases |s|
  {
    if s == [] then []
    else if IsNewline(s[0]) then StripNewlines(s[1..])
    else [s[0]] + StripNewlines(s[1..])
  }

  function Byte0(v0: nat, v1: nat): Byte requires v0 < 64 && v1 < 64 { v0 * 4 + v1 / 16 }
  function Byte1(v1: nat, v2: nat): Byte requires v1 < 64 && v2 < 64 { (v1 % 16) * 16 + v2 / 4 }
  function Byte2(v2: nat, v3: nat): Byte requires v2 < 64 && v3 < 64 { (v2 % 4) * 64 + v3 }

  predicate AllAlphabet(q: string) { forall i :: 0 <= i < |q| ==> IsAlphabetChar(q[i]) }

  /**
   * Decoding of newline-free text: groups of four characters; only the last
   * group may end in "==" (one byte) or "=" (two bytes).
   */
  function DecodeQuanta(s: string): (r: Option<seq<Byte>>)
    ensures r.Some? ==> |s| % 4 == 0
    ensures r.Some? ==> forall i :: 0 <= i < |s| ==> IsAlphabetChar(s[i]) || s[i] == Pad
    ensures r.Some? ==> |r.value| <= 3 * (|s| / 4)
    decreases |s|
  {
    if s == [] then Some([])
    else if |s| < 4 then None
    else if |s| > 4 then
      if AllAlphabet(s[..4]) then
        match DecodeQuanta(s[4..])
        case None => None
        case Some(rest) =>
          var v0, v1, v2, v3 := CharSextet(s[0]), CharSextet(s[1]), CharSextet(s[2]), CharSextet(s[3]);
          Some([Byte0(v0, v1), Byte1(v1, v2), Byte2(v2, v3)] + rest)
      else None
    else if AllAlphabet(s) then
      var v0, v1, v2, v3 := CharSextet(s[0]), CharSextet(s[1]), CharSextet(s[2]), CharSextet(s[3]);
      Some([Byte0(v0, v1), Byte1(v1, v2), Byte2(v2, v3)])
    else if AllAlphabet(s[..3]) && s[3] == Pad then
      var v0, v1, v2 := CharSextet(s[0]), CharSextet(s[1]), CharSextet(s[2]);
      Some([Byte0(v0, v1), Byte1(v1, v2)])
    else if AllAlphabet(s[..2]) && s[2] == Pad && s[3] == Pad then
      Some([Byte0(CharSextet(s[0]), CharSextet(s[1]))])
    else None
  }

  /** base64.URLEncoding.DecodeString; None is Go's CorruptInputError. */
  function Decode(s: string): (r: Option<seq<Byte>>)
    ensures r.Some? ==> |StripNewlines(s)| % 4 == 0
    ensures r.Some? ==> forall i :: 0 <= i < |s| ==> IsAlphabetChar(s[i]) || s[i] == Pad || IsNewline(s[i])
  {
    var t := StripNewlines(s);
    var r := DecodeQuanta(t);
    if r.Some? then
      assert forall i :: 0 <= i < |s| && !IsNewline(s[i]) ==> s[i] in t;
      r
    else r
  }

  lemma QuantumRoundTrip(b0: Byte, b1: Byte, b2: Byte)
    ensures Byte0(b0 / 4, (b0 % 4) * 16 + b1 / 16) == b0
    ensures Byte1((b0 % 4) * 16 + b1 / 16, (b1 % 16) * 4 + b2 / 64) == b1
    ensures Byte2((b1 % 16) * 4 + b2 / 64, b2 % 64) == b2
  {
  }

  lemma {:induction false} NoNewlinesStripped(s: string)
    requires forall i :: 0 <= i < |s| ==> !IsNewline(s[i])
    ensures StripNewlines(s) == s
    decreases |s|
  {
    if s != [] {
      NoNewlinesStripped(s[1..]);
    }
  }

  lemma DecodeOneByte(b0: Byte)
    ensures DecodeQuanta(Encode([b0])) == Some([b0])
  {
    var s := Encode([b0]);
    QuantumRoundTrip(b0, 0, 0);
    SextetCharInverse(b0 / 4);
    SextetCharInverse((b0 % 4) * 16);
    assert !IsAlphabetChar(s[3]) && !IsAlphabetChar(s[2]);
    assert s[..2] == [s[0], s[1]];
    assert AllAlphabet(s[..2]);
  }

  lemma DecodeTwoBytes(b0: Byte, b1: Byte)
    ensures DecodeQuanta(Encode([b0, b1])) == Some([b0, b1])
  {
    var s := Encode([b0, b1]);
    QuantumRoundTrip(b0, b1, 0);
    SextetCharInverse(b0 / 4);
    SextetCharInverse((b0 % 4) * 16 + b1 / 16);
    SextetCharInverse((b1 % 16) * 4);
    assert !IsAlphabetChar(s[3]);
    assert s[..3] == [s[0], s[1], s[2]];
    assert AllAlphabet(s[..3]);
  }

  /** The sextets of an encoded quantum decode back to its three bytes. */
  lemma QuantumSextets(b0: Byte, b1: Byte, b2: Byte)
    ensures var q := EncodeQuantum(b0, b1, b2);
      && AllAlphabet(q)
      && Byte0(CharSextet(q[0]), CharSextet(q[1])) == b0
      && Byte1(CharSextet(q[1]), CharSextet(q[2])) == b1
      && Byte2(CharSextet(q[2]), CharSextet(q[3])) == b2
  {
    QuantumRoundTrip(b0, b1, b2);
    SextetCharInverse(b0 / 4);
    SextetCharInverse((b0 % 4) * 16 + b1 / 16);
    SextetCharInverse((b1 % 16) * 4 + b2 / 64);
    SextetCharInverse(b2 % 64);
  }

  lemma DecodeQuantumThen(b0: Byte, b1: Byte, b2: Byte, rest: string, tail: seq<Byte>)
    requires DecodeQuanta(rest) == Some(tail)
    ensures DecodeQuanta(EncodeQuantum(b0, b1, b2) + rest) == Some([b0, b1, b2] + tail)
  {
    var q := EncodeQuantum(b0, b1, b2);
    var s := q + rest;
    QuantumSextets(b0, b1, b2);
    assert s[..4] == q;
    assert s[0] == q[0] && s[1] == q[1] && s[2] == q[2] && s[3] == q[3];
    if rest == [] {
      assert s == q;
      assert tail == [];
      assert [b0, b1, b2] + tail == [b0, b1, b2];
    } else {
      assert s[4..] == rest;
    }
  }

  lemma DecodeLongerEncode(b: seq<Byte>)
    requires |b| >= 3
    requires DecodeQuanta(Encode(b[3..])) == Some(b[3..])
    ensures DecodeQuanta(Encode(b)) == Some(b)
  {
    EncodeLonger(b);
    var tail := b[3..];
    var rest := Encode(tail);
    DecodeQuantumThen(b[0], b[1], b[2], rest, tail);
    SplitThree(b);
  }

  lemma SplitThree(b: seq<Byte>)
    requires |b| >= 3
    ensures b == [b[0], b[1], b[2]] + b[3..]
  {
  }

  lemma EncodeLonger(b: seq<Byte>)
    requires |b| >= 3
    ensures Encode(b) == EncodeQuantum(b[0], b[1], b[2]) + Encode(b[3..])
  {
  }

  lemma DecodeShortEncode(b: seq<Byte>)
    requires |b| < 3
    ensures DecodeQuanta(Encode(b)) == Some(b)
  {
    if |b| == 1 {
      assert b == [b[0]];
      DecodeOneByte(b[0]);
    } else if |b| == 2 {
      assert b == [b[0], b[1]];
      DecodeTwoBytes(b[0], b[1]);
    }
  }

  lemma {:induction false} DecodeQuantaEncode(b: seq<Byte>)
    ensures DecodeQuanta(Encode(b)) == Some(b)
    decreases |b|
  {
    if |b| < 3 {
      DecodeShortEncode(b);
    } else {
      DecodeQuantaEncode(b[3..]);
      DecodeLongerEncode(b);
    }
  }

  /** Decoding undoes encoding for every byte string. */
  lemma {:induction false} DecodeEncode(b: seq<Byte>)
    ensures Decode(Encode(b)) == Some(b)
  {
    NoNewlinesStripped(Encode(b));
    DecodeQuantaEncode(b);
  }

  /**
   * The non-strict decoder ignores the low four bits of the character before
   * "==", so distinct texts decode to the same bytes.
   */
  lemma PaddingBitsIgnored(c0: char, c1: char, d1: char)
    requires IsAlphabetChar(c0) && IsAlphabetChar(c1) && IsAlphabetChar(d1)
    requires CharSextet(c1) / 16 == CharSextet(d1) / 16
    ensures Decode([c0, c1, Pad, Pad]) == Decode([c0, d1, Pad, Pad])
    ensures Decode([c0, c1, Pad, Pad]).Some?
  {
    OnePaddedByte(c0, c1);
    OnePaddedByte(c0, d1);
  }

  /** "AA==" and "AB==" both decode to the single byte 0. */
  lemma NonCanonicalAccepted()
    ensures Decode(['A', 'A', Pad, Pad]) == Decode(['A', 'B', Pad, Pad]) == Some([0])
  {
    PaddingBitsIgnored('A', 'A', 'B');
    OnePaddedByte('A', 'A');
    assert Byte0(CharSextet('A'), CharSextet('A')) == 0;
  }

  /** Every character other than a line break is kept, as often as it occurs. */
  lemma {:induction false} StripKeepsCount(s: string, c: char)
    requires !IsNewline(c)
    ensures multiset(StripNewlines(s))[c] == multiset(s)[c]
    decreases |s|
  {
    if s != [] {
      assert s == [s[0]] + s[1..];
      StripKeepsCount(s[1..], c);
    }
  }

  /** Removing line breaks commutes with concatenation, so the kept characters stay in order. */
  lemma {:induction false} StripConcat(a: string, b: string)
    ensures StripNewlines(a + b) == StripNewlines(a) + StripNewlines(b)
    decreases |a|
  {
    if a != [] {
      assert (a + b)[1..] == a[1..] + b;
      StripConcat(a[1..], b);
    } else {
      assert a + b == b;
    }
  }

  /** A line break anywhere in the text is skipped. */
  lemma LineBreakSkipped(a: string, b: string)
    ensures Decode(a + "\n" + b) == Decode(a + b)
  {
    StripConcat(a, "\n" + b);
    StripConcat("\n", b);
    StripConcat(a, b);
    assert ("\n" + b)[1..] == b;
    assert StripNewlines("\n") == [];
    assert a + "\n" + b == a + ("\n" + b);
  }

  lemma OnePaddedByte(c0: char, c1: char)
    requires IsAlphabetChar(c0) && IsAlphabetChar(c1)
    ensures Decode([c0, c1, Pad, Pad]) == Some([Byte0(CharSextet(c0), CharSextet(c1))])
  {
    var s := [c0, c1, Pad, Pad];
    assert !IsNewline(c0) && !IsNewline(c1);
    NoNewlinesStripped(s);
    assert !IsAlphabetChar(s[3]) && !IsAlphabetChar(s[..3][2]);
    assert s[..2] == [c0, c1];
  }
}
