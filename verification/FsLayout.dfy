/** The on-disk format of kernel/fs.h: blocks of bytes, little-endian words and bits inside them,
    and the regions of the disk.  Divisors are written as literals: 1024 is BSIZE, 8192 is BPB
    and 16 is IPB. */
module FsLayout {
  import opened Collections

  const BSIZE: nat := 1024
  const NDIRECT: nat := 12
  const NINDIRECT: nat := 256
  const MAXFILE: nat := NDIRECT + NINDIRECT
  const BPB: nat := 8 * BSIZE
  const UINT: nat := 0x1_0000_0000

  type Byte = x: int | 0 <= x < 256
  type Block = seq<Byte>

  datatype Super = Super(size: nat, ninodes: nat, inodestart: nat, bmapstart: nat, datastart: nat) {
    /** Inode blocks, then bitmap blocks, then data, without overlap. */
    predicate Ok() {
      && 1 <= inodestart <= bmapstart <= datastart <= size < UINT
      && ninodes <= (bmapstart - inodestart) * 16
      && size <= (datastart - bmapstart) * 8192
    }
  }

  function IBlock(sb: Super, i: nat): nat {
    sb.inodestart + i / 16
  }

  function BBlock(sb: Super, b: nat): nat {
    sb.bmapstart + b / 8192
  }

  lemma RegionsDisjoint(sb: Super, i: nat, b: nat)
    requires sb.Ok() && i < sb.ninodes && b < sb.size
    ensures 0 < IBlock(sb, i) < sb.bmapstart <= BBlock(sb, b) < sb.datastart
  {
  }

  function ZeroBlock(): (z: Block)
    ensures |z| == BSIZE && forall k :: 0 <= k < BSIZE ==> z[k] == 0
  {
    seq(BSIZE, _ => 0)
  }

  // ---- 32-bit words ----

  function Word(b: Block, j: nat): (w: nat)
    requires 4 * j + 4 <= |b|
    ensures w < UINT
  {
    var b0: int, b1: int, b2: int, b3: int := b[4 * j], b[4 * j + 1], b[4 * j + 2], b[4 * j + 3];
    b0 + 256 * b1 + 65536 * b2 + 16777216 * b3
  }

  function PutWord(b: Block, j: nat, w: nat): (b': Block)
    requires 4 * j + 4 <= |b|
    ensures |b'| == |b|
  {
    b[4 * j := w % 256][4 * j + 1 := w / 256 % 256][4 * j + 2 := w / 65536 % 256][4 * j + 3 := w / 16777216 % 256]
  }

  lemma WordOfPut(b: Block, j: nat, w: nat, k: nat)
    requires 4 * j + 4 <= |b| && 4 * k + 4 <= |b| && w < UINT
    ensures Word(PutWord(b, j, w), k) == if k == j then w else Word(b, k)
  {
    BytesOfWord(w);
  }

  lemma BytesOfWord(w: nat)
    requires w < UINT
    ensures w == w % 256 + 256 * (w / 256 % 256) + 65536 * (w / 65536 % 256) + 16777216 * (w / 16777216 % 256)
  {
    var q1 := w / 256;
    var q2 := q1 / 256;
    var q3 := q2 / 256;
    assert w == 256 * q1 + w % 256 && q1 == 256 * q2 + q1 % 256 && q2 == 256 * q3 + q2 % 256;
    Quotient(w, 65536, q2, 256 * (q1 % 256) + w % 256);
    Quotient(w, 16777216, q3, 65536 * (q2 % 256) + 256 * (q1 % 256) + w % 256);
    assert q3 < 256;
  }

  // ---- bits ----

  /** `1 << k` */
  function Mask(k: nat): nat {
    if k == 0 then 1 else 2 * Mask(k - 1)
  }

  predicate ByteBit(x: nat, k: nat) {
    if k == 0 then x % 2 == 1 else ByteBit(x / 2, k - 1)
  }

  /** `x |= m` for a clear bit and `x &= ~m` for a set one, with m = 1 << k. */
  function FlipBit(x: nat, k: nat): (y: nat)
    ensures y == if ByteBit(x, k) then x - Mask(k) else x + Mask(k)
  {
    if k == 0 then (if x % 2 == 1 then x - 1 else x + 1)
    else 2 * FlipBit(x / 2, k - 1) + x % 2
  }

  lemma {:induction false} FlipBitFits(x: nat, k: nat, width: nat)
    requires k < width && x < Mask(width)
    ensures FlipBit(x, k) < Mask(width)
  {
    var half, low, m := x / 2, x % 2, Mask(width - 1);
    assert x == 2 * half + low && Mask(width) == 2 * m;
    if k > 0 {
      FlipBitFits(half, k - 1, width - 1);
      assert FlipBit(x, k) == 2 * FlipBit(half, k - 1) + low;
    } else {
      assert FlipBit(x, 0) == 2 * half + (1 - low);
    }
    hide Mask;
    hide FlipBit;
  }

  lemma {:induction false} FlipBitFlips(x: nat, k: nat, j: nat)
    ensures ByteBit(FlipBit(x, k), j) == if j == k then !ByteBit(x, j) else ByteBit(x, j)
  {
    var half, low := x / 2, x % 2;
    assert x == 2 * half + low;
    if k > 0 {
      var y := FlipBit(half, k - 1);
      assert FlipBit(x, k) == 2 * y + low;
      Halves(y, low);
      if j > 0 {
        FlipBitFlips(half, k - 1, j - 1);
        assert ByteBit(2 * y + low, j) == ByteBit(y, j - 1);
      }
    } else {
      Halves(half, 1 - low);
      assert FlipBit(x, 0) == 2 * half + (1 - low);
    }
  }

  lemma Halves(half: nat, low: nat)
    requires low < 2
    ensures (2 * half + low) / 2 == half && (2 * half + low) % 2 == low
  {
  }

  predicate Bit(b: Block, i: nat)
    requires i < BPB && |b| == BSIZE
  {
    ByteBit(b[i / 8], i % 8)
  }

  function Flip(b: Block, i: nat): (b': Block)
    requires i < BPB && |b| == BSIZE
    ensures |b'| == BSIZE
  {
    FlipBitFits(b[i / 8], i % 8, 8);
    assert Mask(4) == 16;
    b[i / 8 := FlipBit(b[i / 8], i % 8)]
  }

  lemma FlipFlips(b: Block, i: nat, j: nat)
    requires i < BPB && j < BPB && |b| == BSIZE
    ensures Bit(Flip(b, i), j) == if j == i then !Bit(b, j) else Bit(b, j)
  {
    if i / 8 == j / 8 {
      FlipBitFlips(b[i / 8], i % 8, j % 8);
    }
  }
}
