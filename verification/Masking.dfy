/**
 Payload masking (section 5.3 of RFC 6455). Exclusive or is defined bit by bit on
 naturals of any width, so one lemma covers the 4-byte words of the scalar
 kernel and the 64-byte blocks of the vector kernel.
 */
module Masking {
  import opened Common

  function Pow2(k: nat): (p: nat)
    ensures p >= 1
  {
    if k == 0 then 1 else 2 * Pow2(k - 1)
  }

  /** Exclusive or of the low `w` bits. */
  function Xor(a: nat, b: nat, w: nat): (r: nat)
    ensures r < Pow2(w)
  {
    if w == 0 then 0 else (a + b) % 2 + 2 * Xor(a / 2, b / 2, w - 1)
  }

  function XorByte(a: byte, b: byte): byte {
    assert Pow2(8) == 256;
    Xor(a, b, 8)
  }

  lemma {:induction false} XorInvolutive(a: nat, b: nat, w: nat)
    requires a < Pow2(w)
    ensures Xor(Xor(a, b, w), b, w) == a
  {
    if w != 0 {
      hide Xor, Pow2;
      HalfBelow(a, w);
      var x := Xor(a / 2, b / 2, w - 1);
      XorInvolutive(a / 2, b / 2, w - 1);
      XorUnfold(a, b, w);
      ParityBack(a, b, x);
      XorUnfold(Xor(a, b, w), b, w);
    }
  }

  /** Bit `k` of `a`, counted from the low end. */
  function BitAt(a: nat, k: nat): bool { if k == 0 then a % 2 == 1 else BitAt(a / 2, k - 1) }

  /** Exclusive or sets exactly the bits in which its arguments differ. */
  lemma {:induction false} XorBits(a: nat, b: nat, w: nat, k: nat)
    requires k < w
    ensures BitAt(Xor(a, b, w), k) <==> BitAt(a, k) != BitAt(b, k)
  {
    hide Xor, Pow2;
    var x := Xor(a / 2, b / 2, w - 1);
    XorUnfold(a, b, w);
    ParityBack(a, b, x);
    LowParity(a, b, x);
    if k > 0 { XorBits(a / 2, b / 2, w - 1, k - 1); }
  }

  lemma {:induction false} LowParity(a: nat, b: nat, x: nat)
    ensures ((a + b) % 2 + 2 * x) % 2 == 1 <==> (a % 2 == 1) != (b % 2 == 1)
  {
  }

  lemma {:induction false} HalfBelow(a: nat, w: nat)
    requires w > 0 && a < Pow2(w)
    ensures a / 2 < Pow2(w - 1)
  {
  }

  lemma {:induction false} ParityBack(a: nat, b: nat, x: nat)
    ensures var r := (a + b) % 2 + 2 * x; r / 2 == x && (r + b) % 2 == a % 2
  {
  }

  /** `c` moved up by `k` bits. */
  function Shift(c: nat, k: nat): nat { if k == 0 then c else 2 * Shift(c, k - 1) }

  /** Exclusive or acts on the low `k` bits and the rest separately. */
  lemma {:induction false} XorSplits(a: nat, a': nat, b: nat, b': nat, k: nat, w: nat)
    requires a < Pow2(k) && b < Pow2(k)
    ensures Xor(a + Shift(a', k), b + Shift(b', k), k + w) == Xor(a, b, k) + Shift(Xor(a', b', w), k)
  {
    hide Xor, Pow2, Shift;
    if k == 0 {
      XorSplitsBase(a, a', b, b', w);
    } else {
      HalfBelow(a, k);
      HalfBelow(b, k);
      XorSplits(a / 2, a', b / 2, b', k - 1, w);
      XorSplitsStep(a, a', b, b', k, w);
    }
  }

  lemma {:induction false} XorSplitsBase(a: nat, a': nat, b: nat, b': nat, w: nat)
    requires a < Pow2(0) && b < Pow2(0)
    ensures Xor(a + Shift(a', 0), b + Shift(b', 0), 0 + w) == Xor(a, b, 0) + Shift(Xor(a', b', w), 0)
  {
    assert a == 0 && b == 0;
  }

  lemma {:induction false} XorSplitsStep(a: nat, a': nat, b: nat, b': nat, k: nat, w: nat)
    requires k > 0
    requires Xor(a / 2 + Shift(a', k - 1), b / 2 + Shift(b', k - 1), k - 1 + w) ==
             Xor(a / 2, b / 2, k - 1) + Shift(Xor(a', b', w), k - 1)
    ensures Xor(a + Shift(a', k), b + Shift(b', k), k + w) == Xor(a, b, k) + Shift(Xor(a', b', w), k)
  {
    hide *;
    ShiftUnfold(a', k);
    ShiftUnfold(b', k);
    ShiftUnfold(Xor(a', b', w), k);
    var x, y := a + Shift(a', k), b + Shift(b', k);
    LowBit(a, Shift(a', k - 1), b, Shift(b', k - 1));
    assert x / 2 == a / 2 + Shift(a', k - 1) && y / 2 == b / 2 + Shift(b', k - 1);
    XorUnfold(x, y, k + w);
    XorUnfold(a, b, k);
    assert k + w - 1 == k - 1 + w;
  }

  lemma {:induction false} ShiftUnfold(c: nat, k: nat)
    requires k > 0
    ensures Shift(c, k) == 2 * Shift(c, k - 1)
  {
  }

  lemma {:induction false} XorUnfold(a: nat, b: nat, w: nat)
    requires w > 0
    ensures Xor(a, b, w) == (a + b) % 2 + 2 * Xor(a / 2, b / 2, w - 1)
  {
  }

  lemma {:induction false} LowBit(a: nat, c: nat, b: nat, d: nat)
    ensures (a + 2 * c) / 2 == a / 2 + c && (b + 2 * d) / 2 == b / 2 + d
    ensures (a + 2 * c + (b + 2 * d)) % 2 == (a + b) % 2
  {
  }

  lemma {:induction false} ShiftByte(c: nat)
    ensures Shift(c, 8) == 256 * c && Pow2(8) == 256
  {
    assert Shift(c, 1) == 2 * c;
    assert Shift(c, 3) == 8 * c;
    assert Shift(c, 5) == 32 * c;
    assert Shift(c, 7) == 128 * c;
  }

  /** A block of bytes as one little-endian word, and back. */
  function Word(s: bytes): nat { if s == [] then 0 else s[0] + 256 * Word(s[1..]) }

  function Unword(n: nat, k: nat): (s: bytes)
    ensures |s| == k
  {
    if k == 0 then [] else [n % 256] + Unword(n / 256, k - 1)
  }

  lemma {:induction false} UnwordWord(s: bytes)
    ensures Unword(Word(s), |s|) == s
  {
    if s != [] {
      UnwordWord(s[1..]);
      assert Word(s) % 256 == s[0] && Word(s) / 256 == Word(s[1..]);
    }
  }

  /** `src[i] ^ mask[i mod 4]`, the definition of masking. */
  function Masked(src: bytes, mask: bytes): (r: bytes)
    requires |mask| == 4
    ensures |r| == |src|
  {
    seq(|src|, i requires 0 <= i < |src| => XorByte(src[i], mask[i % 4]))
  }

  /** Masking flips bit `k` of byte `i` exactly if the mask byte for `i` has it set. */
  lemma {:induction false} MaskedBits(src: bytes, mask: bytes, i: nat, k: nat)
    requires |mask| == 4 && i < |src| && k < 8
    ensures BitAt(Masked(src, mask)[i], k) <==> BitAt(src[i], k) != BitAt(mask[i % 4], k)
  {
    hide Xor, BitAt;
    XorBits(src[i], mask[i % 4], 8, k);
  }

  lemma {:induction false} MaskedInvolutive(src: bytes, mask: bytes)
    requires |mask| == 4
    ensures Masked(Masked(src, mask), mask) == src
  {
    forall i | 0 <= i < |src| ensures Masked(Masked(src, mask), mask)[i] == src[i] {
      assert Pow2(8) == 256;
      XorInvolutive(src[i], mask[i % 4], 8);
    }
  }

  /** The mask repeated over `k` bytes. */
  function Repeated(mask: bytes, k: nat): (r: bytes)
    requires |mask| == 4
    ensures |r| == k
  {
    seq(k, i requires 0 <= i < k => mask[i % 4])
  }

  function XorBytes(a: bytes, b: bytes): bytes
    requires |a| == |b|
  {
    if a == [] then [] else [XorByte(a[0], b[0])] + XorBytes(a[1..], b[1..])
  }

  /** One wide exclusive or is the exclusive or of all bytes at once. */
  lemma {:induction false} WordXor(a: bytes, b: bytes)
    requires |a| == |b|
    ensures Xor(Word(a), Word(b), 8 * |a|) == Word(XorBytes(a, b))
    ensures |XorBytes(a, b)| == |a|
  {
    if a != [] {
      WordXor(a[1..], b[1..]);
      WordXorStep(a, b);
    }
  }

  lemma {:induction false} WordXorStep(a: bytes, b: bytes)
    requires |a| == |b| > 0
    requires Xor(Word(a[1..]), Word(b[1..]), 8 * |a[1..]|) == Word(XorBytes(a[1..], b[1..]))
    requires |XorBytes(a[1..], b[1..])| == |a| - 1
    ensures Xor(Word(a), Word(b), 8 * |a|) == Word(XorBytes(a, b))
    ensures |XorBytes(a, b)| == |a|
  {
    hide Xor, XorByte, XorBytes, Word;
    var u, v, w := Word(a[1..]), Word(b[1..]), 8 * |a[1..]|;
    XorBytesUnfold(a, b);
    WordUnfold(a);
    WordUnfold(b);
    WordUnfold(XorBytes(a, b));
    XorSplitsByte(a[0], u, b[0], v, w);
  }

  lemma {:induction false} XorBytesUnfold(a: bytes, b: bytes)
    requires |a| == |b| > 0
    ensures var x := XorBytes(a, b);
            x != [] && x[0] == XorByte(a[0], b[0]) && x[1..] == XorBytes(a[1..], b[1..]) && |x| == 1 + |x[1..]|
  {
    hide XorByte;
  }

  lemma {:induction false} WordUnfold(s: bytes)
    requires s != []
    ensures Word(s) == s[0] + 256 * Word(s[1..])
  {
  }

  lemma {:induction false} XorSplitsByte(x: byte, u: nat, y: byte, v: nat, w: nat)
    ensures Xor(x + 256 * u, y + 256 * v, 8 + w) == XorByte(x, y) + 256 * Xor(u, v, w)
  {
    hide Shift, Pow2, Xor;
    ShiftByte(u);
    ShiftByte(v);
    ShiftByte(Xor(u, v, w));
    XorSplits(x, u, y, v, 8, w);
  }

  lemma {:induction false} XorBytesAt(a: bytes, b: bytes, i: nat)
    requires |a| == |b| && i < |a|
    ensures |XorBytes(a, b)| == |a| && XorBytes(a, b)[i] == XorByte(a[i], b[i])
  {
    if i == 0 {
      WordXor(a, b);
    } else {
      XorBytesAt(a[1..], b[1..], i - 1);
    }
  }

  /** Load a block, exclusive-or it with the repeated mask, store it. */
  function MaskBlock(block: bytes, mask: bytes): (r: bytes)
    requires |mask| == 4
    ensures |r| == |block|
  {
    Unword(Xor(Word(block), Word(Repeated(mask, |block|)), 8 * |block|), |block|)
  }

  lemma {:induction false} MaskBlockIsMasked(block: bytes, mask: bytes)
    requires |mask| == 4
    ensures MaskBlock(block, mask) == Masked(block, mask)
  {
    var m := Repeated(mask, |block|);
    WordXor(block, m);
    UnwordWord(XorBytes(block, m));
    forall i | 0 <= i < |block| ensures XorBytes(block, m)[i] == Masked(block, mask)[i] {
      XorBytesAt(block, m, i);
    }
  }

  /** A block that starts at a multiple of four is masked in phase. */
  lemma {:induction false} BlockInPhase(src: bytes, mask: bytes, off: nat, k: nat, j: nat)
    requires |mask| == 4 && off % 4 == 0 && off + k <= |src| && j < k
    ensures MaskBlock(src[off..off + k], mask)[j] == XorByte(src[off + j], mask[(off + j) % 4])
  {
    hide XorByte, MaskBlock;
    MaskBlockIsMasked(src[off..off + k], mask);
    SamePhase(off + j, off);
  }

  /** `dst[lo..]` holds the first `n` masked bytes of `src`. */
  ghost predicate Holds(dst: seq<byte>, lo: nat, src: bytes, mask: bytes, n: nat)
    requires |mask| == 4 && n <= |src| && lo + |src| == |dst|
  {
    forall j :: 0 <= j < n ==> dst[lo + j] == XorByte(src[j], mask[j % 4])
  }

  lemma {:induction false} HoldsAll(dst: seq<byte>, lo: nat, src: bytes, mask: bytes)
    requires |mask| == 4 && lo + |src| == |dst| && Holds(dst, lo, src, mask, |src|)
    ensures dst[lo..] == Masked(src, mask)
  {
    hide XorByte;
  }

  /** Scalar kernel: 4-byte words, then at most three single bytes. Writes `dst[lo..]`. */
  method CopyMaskedFallback(dst: array<byte>, lo: nat, src: bytes, mask: bytes)
    requires |mask| == 4 && lo + |src| == dst.Length
    modifies dst
    ensures dst[lo..] == Masked(src, mask)
    ensures dst[..lo] == old(dst[..lo])
  {
    hide XorByte, MaskBlock, Masked;
    var words := |src| / 4;
    var i := 0;
    while i < words
      invariant i <= words && Holds(dst[..], lo, src, mask, 4 * i)
      invariant dst[..lo] == old(dst[..lo])
    {
      var off := 4 * i;
      InPhase(i);
      var v := MaskBlock(src[off..off + 4], mask);
      StoreBlock(dst, lo, src, mask, off, v);
      i := i + 1;
    }
    var n := 4 * words;
    InPhase(words);
    i := n;
    while i < |src|
      invariant n <= i <= |src| && Holds(dst[..], lo, src, mask, i)
      invariant dst[..lo] == old(dst[..lo])
    {
      SamePhase(i, n);
      dst[lo + i] := XorByte(src[i], mask[(i - n) % 4]);
      i := i + 1;
    }
    HoldsAll(dst[..], lo, src, mask);
    assert dst[lo..] == dst[..][lo..];
  }

  /** Store one masked block. */
  method StoreBlock(dst: array<byte>, lo: nat, src: bytes, mask: bytes, off: nat, v: bytes)
    requires |mask| == 4 && lo + |src| == dst.Length && off + |v| <= |src| && off % 4 == 0
    requires v == MaskBlock(src[off..off + |v|], mask)
    requires Holds(dst[..], lo, src, mask, off)
    modifies dst
    ensures Holds(dst[..], lo, src, mask, off + |v|)
    ensures dst[..lo] == old(dst[..lo])
  {
    hide XorByte, MaskBlock;
    forall j | 0 <= j < |v| ensures v[j] == XorByte(src[off + j], mask[(off + j) % 4]) {
      BlockInPhase(src, mask, off, |v|, j);
    }
    ghost var before := dst[..];
    forall j | 0 <= j < |v| { dst[lo + off + j] := v[j]; }
    assert forall j :: 0 <= j < lo + off ==> dst[j] == before[j];
    forall j | 0 <= j < off + |v| ensures dst[lo + j] == XorByte(src[j], mask[j % 4]) {
      if j >= off {
        assert dst[lo + off + (j - off)] == v[j - off];
      } else {
        assert dst[lo + j] == before[lo + j];
      }
    }
  }

  /** Vector kernel: 64-byte blocks, then the scalar kernel on the tail. */
  method CopyMaskedWide(dst: array<byte>, src: bytes, mask: bytes)
    requires |mask| == 4 && |src| == dst.Length
    modifies dst
    ensures dst[..] == Masked(src, mask)
  {
    HoldsNone(dst[..], src, mask);
    hide XorByte, MaskBlock, Masked, Holds;
    var full := |src| / 64;
    WholeBlocks(|src|, full);
    var i := 0;
    while i < full
      invariant i <= full && Holds(dst[..], 0, src, mask, 64 * i)
    {
      var off := 64 * i;
      InPhase(16 * i);
      var v := MaskBlock(src[off..off + 64], mask);
      StoreBlock(dst, 0, src, mask, off, v);
      i := i + 1;
    }
    var tail := 64 * full;
    InPhase(16 * full);
    if tail < |src| {
      ghost var before := dst[..];
      CopyMaskedFallback(dst, tail, src[tail..], mask);
      assert dst[..][..tail] == before[..tail];
      TailInPhase(before, dst[..], src, mask, tail);
    }
    HoldsAll(dst[..], 0, src, mask);
    assert dst[..] == dst[..][0..];
  }

  lemma {:induction false} WholeBlocks(n: nat, full: nat)
    requires full == n / 64
    ensures 64 * full <= n
  {
  }

  lemma {:induction false} InPhase(k: nat)
    ensures (4 * k) % 4 == 0
  {
  }

  lemma {:induction false} HoldsNone(dst: seq<byte>, src: bytes, mask: bytes)
    requires |mask| == 4 && |src| == |dst|
    ensures Holds(dst, 0, src, mask, 0)
  {
  }

  lemma {:induction false} TailInPhase(before: seq<byte>, dst: seq<byte>, src: bytes, mask: bytes, tail: nat)
    requires |mask| == 4 && |src| == |dst| == |before| && tail <= |src| && tail % 4 == 0
    requires Holds(before, 0, src, mask, tail) && dst[..tail] == before[..tail]
    requires dst[tail..] == Masked(src[tail..], mask)
    ensures Holds(dst, 0, src, mask, |src|)
  {
    hide XorByte;
    assert forall j :: 0 <= j < tail ==> dst[0 + j] == dst[..tail][j] == before[0 + j];
    forall j | tail <= j < |src| ensures dst[0 + j] == XorByte(src[j], mask[j % 4]) {
      hide Holds;
      assert dst[j] == dst[tail..][j - tail];
      assert src[j] == src[tail..][j - tail];
      SamePhase(j, tail);
    }
  }

  lemma {:induction false} SamePhase(j: nat, tail: nat)
    requires tail <= j && tail % 4 == 0
    ensures j % 4 == (j - tail) % 4
  {
  }
}
