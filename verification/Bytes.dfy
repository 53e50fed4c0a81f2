/** Bytes, digests and the few string operations the protocol uses. */
module Bytes {

  type byte = x: int | 0 <= x < 256

  type Bytes = seq<byte>

  /** SHA-256 as lower-case hexadecimal text; the models take it as a parameter. */
  type Digest = Bytes -> string

  predicate IsHexDigit(c: char) {
    '0' <= c <= '9' || 'a' <= c <= 'f' || 'A' <= c <= 'F'
  }

  predicate IsHexSha256(s: string) {
    |s| == 64 && forall i :: 0 <= i < |s| ==> IsHexDigit(s[i])
  }

  function LowerChar(c: char): char {
    if 'A' <= c <= 'Z' then ((c as int) + 32) as char else c
  }

  function LowerAscii(s: string): (r: string)
    ensures |r| == |s|
  {
    seq(|s|, i requires 0 <= i < |s| => LowerChar(s[i]))
  }

  /** A digest function writes 64 lower-case hexadecimal characters. */
  ghost predicate WritesLowerHex(h: Digest) {
    forall b {:trigger h(b)} :: IsHexSha256(h(b)) && LowerAscii(h(b)) == h(b)
  }

  /** No two payloads of `universe` share a digest. */
  ghost predicate CollisionFree(h: Digest, universe: set<Bytes>) {
    forall a, b {:trigger h(a), h(b)} :: a in universe && b in universe && h(a) == h(b) ==> a == b
  }

  lemma LowerIsIdempotent(s: string)
    ensures LowerAscii(LowerAscii(s)) == LowerAscii(s)
    ensures IsHexSha256(s) ==> IsHexSha256(LowerAscii(s))
  {
  }

  /** The number of bytes of a text in UTF-8, which is what `strlen` counts. */
  function Utf8Length(s: string): nat {
    if s == "" then 0 else Utf8Length(s[..|s| - 1]) + CharBytes(s[|s| - 1])
  }

  function CharBytes(c: char): nat {
    var n := c as int;
    if n < 0x80 then 1 else if n < 0x800 then 2 else if n < 0x10000 then 3 else 4
  }

  lemma {:induction false} AsciiLength(s: string)
    requires forall i :: 0 <= i < |s| ==> (s[i] as int) < 0x80
    ensures Utf8Length(s) == |s|
  {
    if s != "" { AsciiLength(s[..|s| - 1]); }
  }

  predicate HasDotDot(s: string) {
    exists i :: 0 <= i < |s| - 1 && s[i] == '.' && s[i + 1] == '.'
  }
}
