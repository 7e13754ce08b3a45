/**
 SHA-1. The definitions follow RFC 3174: padding is its section 4, the functions
 and constants its section 5, the message schedule and the rounds its section 6.1.
 `SHA1` is the streaming class of common/sha1.cpp with its 64-byte carry buffer.
 */
module Sha1 {
  import opened Bytes
  import opened Codec

  type Word = bv32

  /** The five chaining words `h_[5]`. */
  type Chain = h: seq<Word> | |h| == 5 witness [0, 0, 0, 0, 0]

  /** The working registers a..e of one block. */
  datatype Regs = Regs(a: Word, b: Word, c: Word, d: Word, e: Word)

  const Initial: Chain := [0x67452301, 0xEFCDAB89, 0x98BADCFE, 0x10325476, 0xC3D2E1F0]

  // ----- RFC 3174, sections 3, 5 and 6.1 ------------------------------------

  function Rol(v: Word, n: nat): Word
    requires 0 < n < 32
  {
    (v << n) | (v >> (32 - n))
  }

  function Ch(b: Word, c: Word, d: Word): Word { (b & c) | (!b & d) }

  function Parity(b: Word, c: Word, d: Word): Word { b ^ c ^ d }

  function Maj(b: Word, c: Word, d: Word): Word { (b & c) | (b & d) | (c & d) }

  function F(t: nat, b: Word, c: Word, d: Word): Word
    requires t < 80
  {
    if t < 20 then Ch(b, c, d)
    else if t < 40 then Parity(b, c, d)
    else if t < 60 then Maj(b, c, d)
    else Parity(b, c, d)
  }

  function K(t: nat): Word
    requires t < 80
  {
    if t < 20 then 0x5A827999 else if t < 40 then 0x6ED9EBA1 else if t < 60 then 0x8F1BBCDC else 0xCA62C1D6
  }

  /** Four bytes as a big-endian word. */
  function BigEndian(p: Byte, q: Byte, r: Byte, s: Byte): Word {
    (p as Word << 24) | (q as Word << 16) | (r as Word << 8) | s as Word
  }

  function Mix(x: Word, y: Word, z: Word, v: Word): Word { Rol(x ^ y ^ z ^ v, 1) }

  /** The message schedule. */
  function W(block: Str, t: nat): Word
    requires |block| == 64 && t < 80
    decreases |block|, t
  {
    if t < 16 then BigEndian(block[4 * t], block[4 * t + 1], block[4 * t + 2], block[4 * t + 3])
    else Mix(W(block, t - 3), W(block, t - 8), W(block, t - 14), W(block, t - 16))
  }

  /** The word TEMP of a round; addition wraps modulo 2^32. */
  function Temp(a: Word, f: Word, e: Word, k: Word, w: Word): Word { Rol(a, 5) + f + e + k + w }

  function Round(s: Regs, t: nat, w: Word): Regs
    requires t < 80
  {
    Regs(Temp(s.a, F(t, s.b, s.c, s.d), s.e, K(t), w), s.a, Rol(s.b, 30), s.c, s.d)
  }

  /** The registers after the first t rounds on a block. */
  function Rounds(block: Str, h: Chain, t: nat): Regs
    requires |block| == 64 && t <= 80
    decreases |block|, t
  {
    if t == 0 then Regs(h[0], h[1], h[2], h[3], h[4])
    else Round(Rounds(block, h, t - 1), t - 1, W(block, t - 1))
  }

  function Reg(r: Regs, i: nat): Word {
    if i == 0 then r.a else if i == 1 then r.b else if i == 2 then r.c else if i == 3 then r.d else r.e
  }

  function Plus(x: Word, y: Word): Word { x + y }

  function Compress(h: Chain, block: Str): Chain
    requires |block| == 64
  {
    seq(5, i requires 0 <= i < 5 => Plus(h[i], Reg(Rounds(block, h, 80), i)))
  }

  /** Every whole block of `s`, folded in order. */
  function FoldBlocks(h: Chain, s: Str): Chain
    decreases |s|
  {
    if |s| < 64 then h else FoldBlocks(Compress(h, s[..64]), s[64..])
  }

  // ----- RFC 3174, section 4 ------------------------------------------------

  function Zeros(n: nat): (z: Str)
    ensures |z| == n
  {
    seq(n, _ => 0)
  }

  /** The number of zeros between the marker byte and the length field. */
  function PadZeros(n: nat): (k: nat)
    ensures k < 64 && (n + 1 + k) % 64 == 56
  {
    (119 - n % 64) % 64
  }

  /** The length is a 64-bit count of bits; a longer message wraps, as the code's counter does. */
  function BitLength(n: nat): U64 { (8 * n) % 0x1_0000_0000_0000_0000 }

  function Pad(m: Str): Str {
    m + [0x80] + Zeros(PadZeros(|m|)) + BE(BitLength(|m|), 8)
  }

  // ----- the printed digest -------------------------------------------------

  /** One lowercase hexadecimal digit, as a character code. */
  function HexDigit(d: Word): Byte {
    if d == 0 then 48 else if d == 1 then 49 else if d == 2 then 50 else if d == 3 then 51
    else if d == 4 then 52 else if d == 5 then 53 else if d == 6 then 54 else if d == 7 then 55
    else if d == 8 then 56 else if d == 9 then 57 else if d == 10 then 97 else if d == 11 then 98
    else if d == 12 then 99 else if d == 13 then 100 else if d == 14 then 101 else 102
  }

  /** The k-th of the eight digits of `%08x`. */
  function Nibble(w: Word, k: nat): Word
    requires k < 8
  {
    if k == 0 then w >> 28
    else if k == 1 then (w >> 24) & 0xF
    else if k == 2 then (w >> 20) & 0xF
    else if k == 3 then (w >> 16) & 0xF
    else if k == 4 then (w >> 12) & 0xF
    else if k == 5 then (w >> 8) & 0xF
    else if k == 6 then (w >> 4) & 0xF
    else w & 0xF
  }

  function Hex(h: Chain): (x: Str)
    ensures |x| == 40
  {
    seq(40, i requires 0 <= i < 40 => HexDigit(Nibble(h[i / 8], i % 8)))
  }

  function HexDigest(m: Str): (x: Str)
    ensures |x| == 40
  {
    Hex(FoldBlocks(Initial, Pad(m)))
  }

  /** Two different strings with one digest. */
  ghost predicate Collides(x: Str, y: Str) { x != y && HexDigest(x) == HexDigest(y) }

  // ----- the padding is a code: whole blocks, minimal, injective ------------

  lemma PadShape(m: Str)
    ensures |Pad(m)| % 64 == 0 && |m| + 9 <= |Pad(m)| < |m| + 9 + 64
    ensures Pad(m)[..|m|] == m && Pad(m)[|m|] == 0x80 && Pad(m)[|Pad(m)| - 8..] == BE(BitLength(|m|), 8)
    ensures forall i | |m| < i < |Pad(m)| - 8 :: Pad(m)[i] == 0
  {
    hide PadZeros, BitLength, BE;
    var z, l := Zeros(PadZeros(|m|)), BE(BitLength(|m|), 8);
    var front := m + [0x80] + z;
    assert Pad(m) == front + l;
    assert |front| % 64 == 56 && (front + l)[|front|..] == l;
    assert front[..|m|] == m && (front + l)[..|m|] == front[..|m|];
    forall i | |m| < i < |Pad(m)| - 8 ensures Pad(m)[i] == 0 { assert Pad(m)[i] == z[i - |m| - 1]; }
  }

  lemma BitLengthExact(n: nat)
    requires 8 * n < 0x1_0000_0000_0000_0000
    ensures BitLength(n) == 8 * n
  {
  }

  lemma BitLengthAdd(n: nat, k: nat)
    ensures (BitLength(n) + 8 * k) % 0x1_0000_0000_0000_0000 == BitLength(n + k)
  {
  }

  lemma BitLengthInjective(i: nat, j: nat)
    requires 8 * i < 0x1_0000_0000_0000_0000 && 8 * j < 0x1_0000_0000_0000_0000
    requires BE(BitLength(i), 8) == BE(BitLength(j), 8)
    ensures i == j
  {
    Bounds();
    BitLengthExact(i);
    BitLengthExact(j);
    BEInjective(8 * i, 8 * j, 8);
  }

  lemma PadInjective(m: Str, n: Str)
    requires 8 * |m| < 0x1_0000_0000_0000_0000 && 8 * |n| < 0x1_0000_0000_0000_0000
    requires Pad(m) == Pad(n)
    ensures m == n
  {
    PadShape(m);
    PadShape(n);
    var p := Pad(m);
    assert p[|p| - 8..] == BE(BitLength(|m|), 8) == BE(BitLength(|n|), 8);
    BitLengthInjective(|m|, |n|);
  }

  lemma HexDigitInjective(d: Word, e: Word)
    requires d < 16 && e < 16 && HexDigit(d) == HexDigit(e)
    ensures d == e
  {
  }

  lemma NibblesDetermine(v: Word, w: Word)
    requires Nibble(v, 0) == Nibble(w, 0) && Nibble(v, 1) == Nibble(w, 1)
    requires Nibble(v, 2) == Nibble(w, 2) && Nibble(v, 3) == Nibble(w, 3)
    requires Nibble(v, 4) == Nibble(w, 4) && Nibble(v, 5) == Nibble(w, 5)
    requires Nibble(v, 6) == Nibble(w, 6) && Nibble(v, 7) == Nibble(w, 7)
    ensures v == w
  {
  }

  /** Two digests print alike only when the final chaining words agree. */
  lemma HexInjective(g: Chain, h: Chain)
    requires Hex(g) == Hex(h)
    ensures g == h
  {
    forall i | 0 <= i < 5 ensures g[i] == h[i] {
      forall k | 0 <= k < 8 ensures Nibble(g[i], k) == Nibble(h[i], k) {
        assert (8 * i + k) / 8 == i && (8 * i + k) % 8 == k;
        assert Hex(g)[8 * i + k] == Hex(h)[8 * i + k];
        HexDigitInjective(Nibble(g[i], k), Nibble(h[i], k));
      }
      NibblesDetermine(g[i], h[i]);
    }
  }

  lemma RoundsStep(block: Str, h: Chain, t: nat)
    requires |block| == 64 && t < 80
    ensures Rounds(block, h, t + 1) == Round(Rounds(block, h, t), t, W(block, t))
  {
  }

  lemma CompressIs(h: Chain, block: Str)
    requires |block| == 64
    ensures var r := Rounds(block, h, 80);
      Compress(h, block) == [Plus(h[0], r.a), Plus(h[1], r.b), Plus(h[2], r.c), Plus(h[3], r.d), Plus(h[4], r.e)]
  {
  }

  // ----- folding block by block ---------------------------------------------

  lemma {:induction false} FoldAppend(h: Chain, s: Str, t: Str)
    requires |s| % 64 == 0
    ensures FoldBlocks(h, s + t) == FoldBlocks(FoldBlocks(h, s), t)
    decreases |s|
  {
    if s == [] {
      assert s + t == t;
    } else {
      assert (s + t)[..64] == s[..64];
      assert (s + t)[64..] == s[64..] + t;
      FoldAppend(Compress(h, s[..64]), s[64..], t);
    }
  }

  /** `h` has digested all of `s` but the `carry` at its end. */
  ghost predicate Digests(h: Chain, carry: Str, s: Str) {
    && |carry| < 64 && |carry| <= |s| && (|s| - |carry|) % 64 == 0
    && carry == s[|s| - |carry|..]
    && h == FoldBlocks(Initial, s[..|s| - |carry|])
  }

  lemma CarryLength(h: Chain, carry: Str, s: Str)
    requires Digests(h, carry, s)
    ensures |carry| == |s| % 64
  {
  }

  lemma PadZerosUnique(n: nat, k: nat)
    requires k < 64 && (n + 1 + k) % 64 == 56
    ensures k == PadZeros(n)
  {
  }

  lemma DigestsNothing()
    ensures Digests(Initial, [], [])
  {
  }

  lemma DigestsAll(h: Chain, s: Str)
    requires Digests(h, [], s)
    ensures h == FoldBlocks(Initial, s)
  {
    assert s[..|s| - 0] == s;
  }

  lemma DigestsLonger(h: Chain, carry: Str, s: Str, x: Str)
    requires Digests(h, carry, s) && |carry| + |x| < 64
    ensures Digests(h, carry + x, s + x)
  {
    var n := |s| - |carry|;
    assert (s + x)[..n] == s[..n];
    assert (s + x)[n..] == carry + x;
  }

  lemma DigestsBlock(h: Chain, carry: Str, s: Str, x: Str)
    requires Digests(h, carry, s) && |carry| + |x| == 64
    ensures Digests(Compress(h, carry + x), [], s + x)
  {
    var n := |s| - |carry|;
    var block := carry + x;
    assert s + x == s[..n] + block;
    FoldAppend(Initial, s[..n], block);
    assert block[..64] == block;
    assert FoldBlocks(Compress(h, block), block[64..]) == Compress(h, block);
    assert (s + x)[..|s + x| - 0] == s + x;
  }

  // ----- the streaming class ------------------------------------------------

  class SHA1 {
    var h: Chain
    const buf: array<Byte>
    var bufUsed: nat
    var totalBits: U64
    /** Every byte passed to Update so far. */
    ghost var fed: Str

    ghost predicate Digesting(s: Str)
      reads this, buf
    {
      buf.Length == 64 && bufUsed < 64 && Digests(h, buf[..bufUsed], s)
    }

    ghost predicate Valid()
      reads this, buf
    {
      Digesting(fed) && totalBits == BitLength(|fed|)
    }

    constructor ()
      ensures Valid() && fed == [] && fresh(buf)
    {
      h := Initial;
      buf := new Byte[64];
      bufUsed := 0;
      totalBits := 0;
      fed := [];
      new;
      DigestsNothing();
      assert buf[..0] == [];
    }

    method Schedule(p: Str) returns (ws: seq<Word>)
      requires |p| == 64
      ensures |ws| == 80 && forall j {:trigger ws[j]} | 0 <= j < 80 :: ws[j] == W(p, j)
    {
      hide BigEndian, Mix;
      var w := new Word[80];
      for i := 0 to 16
        invariant forall j {:trigger w[j]} | 0 <= j < i :: w[j] == W(p, j)
      {
        w[i] := BigEndian(p[4 * i], p[4 * i + 1], p[4 * i + 2], p[4 * i + 3]);
      }
      for i := 16 to 80
        invariant forall j {:trigger w[j]} | 0 <= j < i :: w[j] == W(p, j)
      {
        w[i] := Mix(w[i - 3], w[i - 8], w[i - 14], w[i - 16]);
      }
      ws := w[..];
    }

    method Transform(p: Str)
      requires |p| == 64
      modifies this`h
      ensures h == Compress(old(h), p)
    {
      hide Rol, Ch, Parity, Maj, Temp, Plus, W;
      var w := Schedule(p);
      var a, b, c, d, e := h[0], h[1], h[2], h[3], h[4];
      for i := 0 to 80
        invariant Regs(a, b, c, d, e) == Rounds(p, h, i)
        invariant h == old(h)
      {
        var f, k;
        if i < 20 { f, k := Ch(b, c, d), 0x5A827999; }
        else if i < 40 { f, k := Parity(b, c, d), 0x6ED9EBA1; }
        else if i < 60 { f, k := Maj(b, c, d), 0x8F1BBCDC; }
        else { f, k := Parity(b, c, d), 0xCA62C1D6; }
        assert f == F(i, b, c, d) && k == K(i);
        var t := Temp(a, f, e, k, w[i]);
        assert w[i] == W(p, i);
        assert Regs(t, a, Rol(b, 30), c, d) == Round(Regs(a, b, c, d, e), i, W(p, i));
        RoundsStep(p, h, i);
        a, b, c, d, e := t, a, Rol(b, 30), c, d;
      }
      CompressIs(h, p);
      h := [Plus(h[0], a), Plus(h[1], b), Plus(h[2], c), Plus(h[3], d), Plus(h[4], e)];
    }

    /** One pass of the copying loop: fill the carry buffer, and digest it once it is full. */
    method Absorb(x: Str, ghost s: Str)
      requires Digesting(s) && bufUsed + |x| <= 64
      modifies this`h, this`bufUsed, buf
      ensures Digesting(s + x)
    {
      hide Digests, Compress;
      ghost var carry := buf[..bufUsed];
      forall i | 0 <= i < |x| { buf[bufUsed + i] := x[i]; }
      assert buf[..bufUsed + |x|] == carry + x;
      bufUsed := bufUsed + |x|;
      if bufUsed == 64 {
        assert buf[..] == carry + x;
        DigestsBlock(h, carry, s, x);
        Transform(buf[..]);
        bufUsed := 0;
        assert buf[..0] == [];
      } else {
        DigestsLonger(h, carry, s, x);
      }
    }

    method Update(data: Str)
      requires Valid()
      modifies this, buf
      ensures Valid() && fed == old(fed) + data
    {
      hide Digests, BitLength;
      BitLengthAdd(|fed|, |data|);
      totalBits := (totalBits + 8 * |data|) % 0x1_0000_0000_0000_0000;
      var p := 0;
      assert fed + data[..0] == fed;
      while p < |data|
        invariant p <= |data|
        invariant Digesting(fed + data[..p])
        invariant fed == old(fed) && totalBits == BitLength(|fed| + |data|)
      {
        var take := if 64 - bufUsed > |data| - p then |data| - p else 64 - bufUsed;
        Absorb(data[p..p + take], fed + data[..p]);
        assert fed + data[..p] + data[p..p + take] == fed + data[..p + take];
        p := p + take;
      }
      assert data[..p] == data;
      fed := fed + data;
    }

    method FinalHex() returns (r: Str)
      requires Valid()
      modifies this, buf
      ensures r == HexDigest(old(fed))
    {
      hide Digests, BitLength;
      var bits := totalBits;
      Update([0x80]);
      ghost var m := old(fed);
      ghost var k := 0;
      assert m + [0x80] + Zeros(0) == m + [0x80];
      while bufUsed != 56
        invariant Valid() && k <= PadZeros(|m|) && fed == m + [0x80] + Zeros(k)
        decreases PadZeros(|m|) - k
      {
        CarryLength(h, buf[..bufUsed], fed);
        assert |fed| == |m| + 1 + k;
        assert Zeros(k + 1) == Zeros(k) + [0];
        Update([0x00]);
        k := k + 1;
        assert fed == m + [0x80] + Zeros(k);
      }
      CarryLength(h, buf[..bufUsed], fed);
      assert |fed| == |m| + 1 + k;
      PadZerosUnique(|m|, k);
      assert Pad(m) == fed + BE(bits, 8);
      Absorb(BE(bits, 8), fed);
      assert buf[..bufUsed] == [] by { CarryLength(h, buf[..bufUsed], Pad(m)); PadShape(m); }
      DigestsAll(h, Pad(m));
      r := Hex(h);
    }
  }

  method HashBuffer(data: Str) returns (r: Str)
    ensures r == HexDigest(data)
  {
    var s := new SHA1();
    s.Update(data);
    assert s.fed == data;
    r := s.FinalHex();
  }

  function Flatten(chunks: seq<Str>): Str {
    if chunks == [] then [] else chunks[0] + Flatten(chunks[1..])
  }

  lemma {:induction false} FlattenSnoc(chunks: seq<Str>, c: Str)
    ensures Flatten(chunks + [c]) == Flatten(chunks) + c
  {
    if chunks == [] {
      assert chunks + [c] == [c];
      assert Flatten([c]) == c + Flatten([]);
    } else {
      assert (chunks + [c])[1..] == chunks[1..] + [c];
      FlattenSnoc(chunks[1..], c);
    }
  }

  /** However the message is cut into Update calls, the digest is the one-shot digest. */
  method HashStream(chunks: seq<Str>) returns (r: Str)
    ensures r == HexDigest(Flatten(chunks))
  {
    var s := new SHA1();
    assert chunks[..0] == [];
    for i := 0 to |chunks|
      invariant s.Valid() && fresh(s) && fresh(s.buf) && s.fed == Flatten(chunks[..i])
    {
      s.Update(chunks[i]);
      FlattenSnoc(chunks[..i], chunks[i]);
      assert chunks[..i + 1] == chunks[..i] + [chunks[i]];
    }
    assert chunks[..|chunks|] == chunks;
    r := s.FinalHex();
  }
}
