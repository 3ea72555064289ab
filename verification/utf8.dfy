/**
 How Go stores a string: the UTF-8 encoding of its characters, one byte per
 element. `len` and slicing count these bytes, not characters.
 */
module Utf8 {

  /** One byte of a Go string. */
  newtype byte = x: int | 0 <= x < 0x100

  /** The number of bytes UTF-8 spends on one character. */
  function Width(ch: char): (n: nat)
    ensures 1 <= n <= 4
    ensures (ch as int < 0x80) <==> n == 1
  {
    if ch as int < 0x80 then 1
    else if ch as int < 0x800 then 2
    else if ch as int < 0x10000 then 3
    else 4
  }

  /** A byte that continues a character (`10xxxxxx`) rather than starting one. */
  predicate IsContinuation(b: byte)
  {
    0x80 <= b < 0xC0
  }

  /** A continuation byte carrying the low six bits of `v`. */
  function Continuation(v: nat): (b: byte)
    ensures IsContinuation(b)
  {
    (0x80 + v % 64) as byte
  }

  /** A lead byte: the width marker `base` with the character's high bits `v` below it. */
  function Lead(base: nat, v: nat): (b: byte)
    requires 0xC0 <= base && base + v < 0x100
    ensures b >= 0xC0
  {
    (base + v) as byte
  }

  /**
   The bytes of one character: a lead byte that carries the width in its
   high bits, then one continuation byte per six remaining bits.
   */
  function EncodeChar(ch: char): (b: seq<byte>)
    ensures |b| == Width(ch)
    ensures !IsContinuation(b[0])
    ensures forall k :: 1 <= k < |b| ==> IsContinuation(b[k])
    ensures |b| == 1 ==> b[0] as int == ch as int
    ensures |b| > 1 ==> b[0] >= 0xC0
  {
    var c: nat := ch as int;
    if c < 0x80 then [c as byte]
    else if c < 0x800 then [Lead(0xC0, c / 64), Continuation(c)]
    else if c < 0x10000 then [Lead(0xE0, c / 4096), Continuation(c / 64), Continuation(c)]
    else [Lead(0xF0, c / 262144), Continuation(c / 4096), Continuation(c / 64), Continuation(c)]
  }

  /** The UTF-8 encoding of a text: its characters' bytes, in order. */
  function Encode(s: string): (r: seq<byte>)
    ensures |s| <= |r| <= 4 * |s|
    ensures r == [] <==> s == []
  {
    if |s| == 0 then [] else EncodeChar(s[0]) + Encode(s[1..])
  }

  /** Encoding a concatenation concatenates the encodings. */
  lemma {:induction false} EncodeAppend(s: string, t: string)
    ensures Encode(s + t) == Encode(s) + Encode(t)
  {
    if |s| == 0 {
      assert s + t == t;
    } else {
      assert (s + t)[1..] == s[1..] + t;
      EncodeAppend(s[1..], t);
    }
  }

  /** ASCII text is stored one byte per character, each byte the character's code. */
  lemma {:induction false} AsciiEncode(s: string)
    requires forall i :: 0 <= i < |s| ==> s[i] as int < 0x80
    ensures |Encode(s)| == |s|
    ensures forall i :: 0 <= i < |s| ==> Encode(s)[i] as int == s[i] as int
  {
    if |s| > 0 {
      assert forall i :: 0 <= i < |s[1..]| ==> s[1..][i] == s[i + 1];
      AsciiEncode(s[1..]);
    }
  }

  /**
   For ASCII text, cutting the bytes is cutting the characters: the first
   `n` bytes are the encoding of the first `n` characters.
   */
  lemma AsciiPrefix(s: string, n: nat)
    requires forall i :: 0 <= i < |s| ==> s[i] as int < 0x80
    requires n <= |s|
    ensures Encode(s)[..n] == Encode(s[..n])
  {
    assert s == s[..n] + s[n..];
    EncodeAppend(s[..n], s[n..]);
    AsciiEncode(s[..n]);
  }

  /** A run of `n` copies of one character takes `n` times its width in bytes. */
  lemma {:induction false} EncodeRun(ch: char, n: nat)
    ensures |Encode(seq(n, _ => ch))| == n * Width(ch)
  {
    if n > 0 {
      var run := seq(n, _ => ch);
      assert run[1..] == seq(n - 1, _ => ch);
      EncodeRun(ch, n - 1);
    }
  }
}
