/** Percent encoding of a path component into a caller's buffer, and back (sections 2.1 and 2.3 of RFC 3986). */
module PercentCodec {
  import opened Wrappers
  import opened Bytes

  /** A C string's bytes: none of them is the terminator. */
  predicate IsCString(s: Bytes) {
    forall i :: 0 <= i < |s| ==> s[i] != 0
  }

  /** The byte at `i` of a C string, its terminator included. */
  function At(s: Bytes, i: nat): byte
    requires i <= |s|
  {
    if i < |s| then s[i] else 0
  }

  predicate IsUnreserved(c: byte) {
    || 0x41 <= c <= 0x5A || 0x61 <= c <= 0x7A || 0x30 <= c <= 0x39
    || c == 0x2D || c == 0x5F || c == 0x2E || c == 0x7E
  }

  function HexDigit(n: nat): byte
    requires n < 16
  {
    if n < 10 then 0x30 + n else 0x41 + (n - 10)
  }

  function EncodeByte(c: byte): Bytes {
    if IsUnreserved(c) then [c] else [0x25, HexDigit(c / 16), HexDigit(c % 16)]
  }

  function Encode(s: Bytes): Bytes {
    if s == [] then [] else Encode(s[..|s| - 1]) + EncodeByte(s[|s| - 1])
  }

  /** What a buffer holds as a C string, once `text` and a terminator were written to it. */
  predicate HoldsText(buffer: Bytes, text: Bytes) {
    |text| < |buffer| && buffer[..|text|] == text && buffer[|text|] == 0
  }

  /** `url_encode_component`: succeeds exactly when the encoding and its terminator fit. */
  method UrlEncodeComponent(src: Bytes, dst: array<byte>) returns (ok: bool)
    requires IsCString(src)
    modifies dst
    ensures ok <==> |Encode(src)| < dst.Length
    ensures ok ==> HoldsText(dst[..], Encode(src))
  {
    if dst.Length == 0 { return false; }
    var i, j := 0, 0;
    while At(src, i) != 0
      invariant 0 <= i <= |src| && 0 <= j < dst.Length
      invariant dst[..j] == Encode(src[..i])
      decreases |src| - i
    {
      var c := src[i];
      assert src[..i + 1][..i] == src[..i];
      if IsUnreserved(c) {
        if j + 1 >= dst.Length {
          EncodeGrows(src, i + 1);
          return false;
        }
        dst[j] := c;
        j := j + 1;
      } else {
        if j + 3 >= dst.Length {
          EncodeGrows(src, i + 1);
          return false;
        }
        dst[j], dst[j + 1], dst[j + 2] := 0x25, HexDigit(c / 16), HexDigit(c % 16);
        j := j + 3;
      }
      i := i + 1;
    }
    assert src[..i] == src;
    dst[j] := 0;
    return true;
  }

  lemma {:induction false} EncodeGrows(s: Bytes, n: nat)
    requires n <= |s|
    ensures |Encode(s[..n])| <= |Encode(s)|
    decreases |s|
  {
    if n < |s| {
      assert s[..|s| - 1][..n] == s[..n];
      EncodeGrows(s[..|s| - 1], n);
    } else {
      assert s[..n] == s;
    }
  }

  // ------------------------------------------------------------------ decoding

  predicate IsCSpace(c: byte) {
    c == 0x20 || 0x09 <= c <= 0x0D
  }

  function HexValue(c: byte): Option<int> {
    if 0x30 <= c <= 0x39 then Some(c - 0x30)
    else if 0x41 <= c <= 0x46 then Some(c - 0x41 + 10)
    else if 0x61 <= c <= 0x66 then Some(c - 0x61 + 10)
    else None
  }

  /**
   * `strtol(text, &end, 16)` on two characters, where it must consume both: two digits, or one digit
   * after a sign or a white-space character, which is how it differs from a strict reading.
   */
  function StrtolTwo(a: byte, b: byte): Option<int> {
    var high, low := HexValue(a), HexValue(b);
    if low.None? then None
    else if high.Some? then Some(16 * high.value + low.value)
    else if a == 0x2B || IsCSpace(a) then Some(low.value)
    else if a == 0x2D then Some(-low.value)
    else None
  }

  /** `(char)value`. */
  function ToByte(value: int): byte {
    value % 256
  }

  /** Decoding from position `i`; None when an escape is cut short or not a number. */
  function DecodeFrom(s: Bytes, i: nat): Option<Bytes>
    requires i <= |s|
    decreases |s| - i
  {
    if At(s, i) == 0 then Some([])
    else if s[i] == 0x25 then
      if At(s, i + 1) == 0 || At(s, i + 2) == 0 || StrtolTwo(s[i + 1], s[i + 2]).None? then None
      else Prepend(ToByte(StrtolTwo(s[i + 1], s[i + 2]).value), DecodeFrom(s, i + 3))
    else if s[i] == 0x2B then Prepend(0x20, DecodeFrom(s, i + 1))
    else Prepend(s[i], DecodeFrom(s, i + 1))
  }

  function Prepend(b: byte, rest: Option<Bytes>): Option<Bytes> {
    if rest.Some? then Some([b] + rest.value) else None
  }

  function Decode(s: Bytes): Option<Bytes> {
    DecodeFrom(s, 0)
  }

  /** `url_decode_component`: succeeds exactly when the text decodes and the result and its terminator fit. */
  method UrlDecodeComponent(src: Bytes, dst: array<byte>) returns (ok: bool)
    requires IsCString(src)
    modifies dst
    ensures ok <==> Decode(src).Some? && |Decode(src).value| < dst.Length
    ensures ok ==> HoldsText(dst[..], Decode(src).value)
  {
    if dst.Length == 0 { return false; }
    var i, j := 0, 0;
    PrependNothing(DecodeFrom(src, 0));
    while At(src, i) != 0
      invariant 0 <= i <= |src| && 0 <= j < dst.Length
      invariant Decode(src) == PrependAll(dst[..j], DecodeFrom(src, i))
      decreases |src| - i
    {
      var c := src[i];
      var decoded: byte := c;
      var width := 1;
      if c == 0x25 {
        if At(src, i + 1) == 0 || At(src, i + 2) == 0 { return false; }
        var value := StrtolTwo(src[i + 1], src[i + 2]);
        if value.None? { return false; }
        decoded, width := ToByte(value.value), 3;
      } else if c == 0x2B {
        decoded := 0x20;
      }
      assert DecodeFrom(src, i) == Prepend(decoded, DecodeFrom(src, i + width));
      if j + 1 >= dst.Length { return false; }
      ghost var done := dst[..j];
      dst[j] := decoded;
      j := j + 1;
      assert dst[..j] == done + [decoded];
      i := i + width;
      PrependAllStep(done, decoded, DecodeFrom(src, i));
    }
    assert Decode(src) == Some(dst[..j]) by { assert dst[..j] + [] == dst[..j]; }
    dst[j] := 0;
    return true;
  }

  function PrependAll(front: Bytes, rest: Option<Bytes>): Option<Bytes> {
    if rest.Some? then Some(front + rest.value) else None
  }

  lemma PrependNothing(rest: Option<Bytes>)
    ensures PrependAll([], rest) == rest
  {
    if rest.Some? { assert [] + rest.value == rest.value; }
  }

  lemma PrependAllStep(front: Bytes, b: byte, rest: Option<Bytes>)
    ensures PrependAll(front, Prepend(b, rest)) == PrependAll(front + [b], rest)
  {
    if rest.Some? { assert front + ([b] + rest.value) == front + [b] + rest.value; }
  }

  // ------------------------------------------------------------------ the round trip

  lemma HexRoundTrip(c: byte)
    ensures StrtolTwo(HexDigit(c / 16), HexDigit(c % 16)) == Some(c as int)
    ensures HexDigit(c / 16) != 0 && HexDigit(c % 16) != 0
  {
  }

  lemma {:induction false} EncodeIsCString(s: Bytes)
    requires IsCString(s)
    ensures IsCString(Encode(s))
  {
    if s != [] { EncodeIsCString(s[..|s| - 1]); }
  }

  /** Decoding one encoded byte. */
  lemma DecodesByte(e: Bytes, at: nat, c: byte)
    requires c != 0 && at + |EncodeByte(c)| <= |e| && e[at..at + |EncodeByte(c)|] == EncodeByte(c)
    ensures DecodeFrom(e, at) == Prepend(c, DecodeFrom(e, at + |EncodeByte(c)|))
  {
    HexRoundTrip(c);
    forall i | 0 <= i < |EncodeByte(c)|
      ensures e[at + i] == EncodeByte(c)[i]
    {
      assert e[at..at + |EncodeByte(c)|][i] == e[at + i];
    }
  }

  lemma EncodedByteAt(s: Bytes, k: nat)
    requires k < |s|
    ensures var at := |Encode(s[..k])|;
            && |Encode(s[..k + 1])| == at + |EncodeByte(s[k])| <= |Encode(s)|
            && Encode(s)[at..at + |EncodeByte(s[k])|] == EncodeByte(s[k])
  {
    assert s[..k + 1][..k] == s[..k];
    EncodePrefix(s, k + 1);
    assert Encode(s[..k + 1]) == Encode(s[..k]) + EncodeByte(s[k]);
  }

  lemma HeadAndTail(s: Bytes, k: nat)
    requires k < |s|
    ensures [s[k]] + s[k + 1..] == s[k..]
  {
  }

  /** Decoding an encoded tail gives the tail. */
  lemma {:induction false} DecodesTail(s: Bytes, k: nat)
    requires IsCString(s) && k <= |s|
    ensures |Encode(s[..k])| <= |Encode(s)|
    ensures DecodeFrom(Encode(s), |Encode(s[..k])|) == Some(s[k..])
    decreases |s| - k
  {
    if k == |s| {
      assert s[..k] == s && s[k..] == [];
    } else {
      EncodedByteAt(s, k);
      DecodesTail(s, k + 1);
      DecodesByte(Encode(s), |Encode(s[..k])|, s[k]);
      HeadAndTail(s, k);
    }
  }

  lemma {:induction false} EncodePrefix(s: Bytes, n: nat)
    requires n <= |s|
    ensures Encode(s[..n]) <= Encode(s)
    decreases |s|
  {
    if n < |s| {
      assert s[..|s| - 1][..n] == s[..n];
      EncodePrefix(s[..|s| - 1], n);
    } else {
      assert s[..n] == s;
    }
  }

  /** Round trip: what encodes decodes to itself, for every string without a terminator inside. */
  lemma RoundTrip(s: Bytes)
    requires IsCString(s)
    ensures IsCString(Encode(s)) && Decode(Encode(s)) == Some(s)
  {
    EncodeIsCString(s);
    DecodesTail(s, 0);
    assert s[0..] == s;
  }

  /** Every byte of an encoding is unreserved, a percent sign, or one of its upper-case hex digits. */
  lemma {:induction false} EncodingIsSafe(s: Bytes)
    ensures forall i :: 0 <= i < |Encode(s)| ==> IsUnreserved(Encode(s)[i]) || Encode(s)[i] == 0x25
  {
    if s != [] { EncodingIsSafe(s[..|s| - 1]); }
  }

  /** Letters, digits and the four marks that an encoding leaves as they are. */
  lemma UnreservedAre(c: byte)
    ensures IsUnreserved(c) <==>
      || 0x41 <= c <= 0x5A || 0x61 <= c <= 0x7A || 0x30 <= c <= 0x39 || c == 0x2D || c == 0x2E || c == 0x5F || c == 0x7E
  {
  }

  lemma {:induction false} EncodeConcat(a: Bytes, b: Bytes)
    ensures Encode(a + b) == Encode(a) + Encode(b)
  {
    if b == [] {
      assert a + b == a;
    } else {
      var last := |b| - 1;
      assert (a + b)[..|a + b| - 1] == a + b[..last];
      EncodeConcat(a, b[..last]);
      Associative(Encode(a), Encode(b[..last]), EncodeByte(b[last]));
    }
  }

  /** An unreserved byte is written as it is, any other as its own upper-case escape. */
  lemma ByteIsEncoded(c: byte)
    ensures IsUnreserved(c) ==> EncodeByte(c) == [c]
    ensures !IsUnreserved(c) ==>
              && |EncodeByte(c)| == 3 && EncodeByte(c)[0] == 0x25
              && HexValue(EncodeByte(c)[1]) == Some(c as int / 16) && HexValue(EncodeByte(c)[2]) == Some(c as int % 16)
              && EncodeByte(c)[1] < 0x61 && EncodeByte(c)[2] < 0x61
  {
  }

  /** An encoding writes byte by byte, and nothing else. */
  lemma EncodesEach(a: Bytes, c: byte, b: Bytes)
    ensures Encode(a + [c] + b) == Encode(a) + EncodeByte(c) + Encode(b)
  {
    EncodeConcat(a + [c], b);
    EncodeConcat(a, [c]);
    var none: Bytes := [];
    assert [c][..0] == none && none + EncodeByte(c) == EncodeByte(c);
  }

  /** A plus sign stands for a space, and any other byte but a percent sign for itself. */
  lemma PlainBytesDecode(c: byte, s: Bytes)
    requires IsCString([c] + s) && c != 0x25
    ensures Decode([c] + s) == Prepend(if c == 0x2B then 0x20 else c, Decode(s))
  {
    DecodesRest([c] + s, 1);
    assert ([c] + s)[1..] == s;
  }

  /** Decoding from a position is decoding what is left. */
  lemma {:induction false} DecodesRest(s: Bytes, i: nat)
    requires i <= |s|
    ensures DecodeFrom(s, i) == Decode(s[i..])
  {
    DecodesShifted(s, i, 0);
  }

  lemma {:induction false} DecodesShifted(s: Bytes, i: nat, k: nat)
    requires i + k <= |s|
    ensures DecodeFrom(s, i + k) == DecodeFrom(s[i..], k)
    decreases |s| - i - k
  {
    var rest := s[i..];
    assert forall j :: 0 <= j < |rest| ==> rest[j] == s[i + j];
    if At(s, i + k) != 0 {
      DecodesShifted(s, i, k + 1);
      if At(s, i + k + 1) != 0 && At(s, i + k + 2) != 0 { DecodesShifted(s, i, k + 3); }
    }
  }

  // ------------------------------------------------------------------ escapes that are not two digits

  /** Decoding that takes an escape only as a percent sign and two hexadecimal digits. */
  function StrictFrom(s: Bytes, i: nat): Option<Bytes>
    requires i <= |s|
    decreases |s| - i
  {
    if At(s, i) == 0 then Some([])
    else if s[i] == 0x25 then
      if i + 2 >= |s| || HexValue(s[i + 1]).None? || HexValue(s[i + 2]).None? then None
      else Prepend(16 * HexValue(s[i + 1]).value + HexValue(s[i + 2]).value, StrictFrom(s, i + 3))
    else if s[i] == 0x2B then Prepend(0x20, StrictFrom(s, i + 1))
    else Prepend(s[i], StrictFrom(s, i + 1))
  }

  predicate IsEscape(s: Bytes, i: nat)
    requires i < |s|
  {
    i + 2 < |s| && HexValue(s[i + 1]).Some? && HexValue(s[i + 2]).Some?
  }

  /** From `i` on, every percent sign is followed by two hexadecimal digits. */
  predicate HexEscapes(s: Bytes, i: nat) {
    forall k :: i <= k < |s| && s[k] == 0x25 ==> IsEscape(s, k)
  }

  /** A text decodes strictly exactly when each of its percent signs starts an escape. */
  lemma {:induction false} StrictWhenHexEscapes(s: Bytes, i: nat)
    requires IsCString(s) && i <= |s|
    ensures StrictFrom(s, i).Some? <==> HexEscapes(s, i)
    decreases |s| - i
  {
    if i < |s| {
      if s[i] == 0x25 {
        if IsEscape(s, i) {
          StrictWhenHexEscapes(s, i + 3);
          assert s[i + 1] != 0x25 && s[i + 2] != 0x25;
        }
      } else {
        StrictWhenHexEscapes(s, i + 1);
      }
    }
  }

  /** On such a text the decoder gives what a strict one gives. */
  lemma {:induction false} DecodesStrictly(s: Bytes, i: nat)
    requires IsCString(s) && i <= |s| && HexEscapes(s, i)
    ensures DecodeFrom(s, i) == StrictFrom(s, i)
    decreases |s| - i
  {
    if i < |s| {
      if s[i] == 0x25 {
        assert IsEscape(s, i);
        DecodesStrictly(s, i + 3);
      } else {
        DecodesStrictly(s, i + 1);
      }
    }
  }

  /**
   * The decoder is as strict as section 2.1 of RFC 3986 asks exactly on the texts it refuses and on those
   * whose every percent sign is followed by two hexadecimal digits.
   */
  lemma StrictIff(s: Bytes)
    requires IsCString(s)
    ensures Decode(s) == StrictFrom(s, 0) <==> Decode(s).None? || HexEscapes(s, 0)
    ensures StrictFrom(s, 0).Some? <==> Decode(s).Some? && HexEscapes(s, 0)
  {
    StrictWhenHexEscapes(s, 0);
    if HexEscapes(s, 0) { DecodesStrictly(s, 0); }
  }

  /** A sign before one digit passes for an escape: `%+5` decodes to the byte 5. */
  lemma SignedEscapeIsAccepted()
    ensures Decode([0x25, 0x2B, 0x35]) == Some([5]) && StrictFrom([0x25, 0x2B, 0x35], 0) == None
    ensures !HexEscapes([0x25, 0x2B, 0x35], 0)
  {
    var s: Bytes := [0x25, 0x2B, 0x35];
    assert StrtolTwo(s[1], s[2]) == Some(5);
    assert DecodeFrom(s, 3) == Some([]);
    assert DecodeFrom(s, 0) == Prepend(5, DecodeFrom(s, 3));
    var none: Bytes, five: Bytes := [], [5];
    assert five + none == five;
    assert !IsEscape(s, 0);
  }

  /** What the encoder writes has only such escapes, so the decoder reads it strictly. */
  lemma {:induction false} EncodingHasHexEscapes(s: Bytes)
    ensures HexEscapes(Encode(s), 0)
  {
    if s != [] {
      var front, c := s[..|s| - 1], s[|s| - 1];
      EncodingHasHexEscapes(front);
      AppendedEscapes(Encode(front), c);
    }
  }

  lemma AppendedEscapes(e: Bytes, c: byte)
    requires HexEscapes(e, 0)
    ensures HexEscapes(e + EncodeByte(c), 0)
  {
    var all := e + EncodeByte(c);
    forall k | 0 <= k < |all| && all[k] == 0x25
      ensures IsEscape(all, k)
    {
      if k < |e| {
        assert IsEscape(e, k);
      } else {
        assert k == |e| && !IsUnreserved(c);
      }
    }
  }
}
