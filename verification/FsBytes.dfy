/** Files as byte sequences, and inodes as the 64 bytes they occupy on disk. */
module FsBytes {
  import opened FsLayout
  import opened FsState

  // ---- bytes of a file ----

  const MAXBYTES: nat := MAXFILE * BSIZE

  function ByteAt(sb: Super, fs: Fs, i: int, o: nat): Byte
    requires Shape(sb, fs) && 0 <= i < |fs.inodes| && o < MAXBYTES
  {
    FileBlock(sb, fs, i, o / 1024)[o % 1024]
  }

  /** The file as its users see it: `size` bytes. */
  function Content(sb: Super, fs: Fs, i: nat): (c: seq<Byte>)
    requires Shape(sb, fs) && i < |fs.inodes|
    ensures |c| == fs.inodes[i].size
  {
    seq(fs.inodes[i].size, o requires 0 <= o < fs.inodes[i].size => ByteAt(sb, fs, i, o))
  }

  /** From fs to fs', the bytes `data` have appeared at offset `off` of file i and no other byte
      of any file has changed. */
  ghost predicate Spliced(sb: Super, fs: Fs, fs': Fs, i: nat, off: nat, data: seq<Byte>)
    requires Shape(sb, fs) && Shape(sb, fs')
  {
    forall j, o {:trigger ByteAt(sb, fs', j, o)} :: 0 <= j < sb.ninodes && 0 <= o < MAXBYTES ==>
      ByteAt(sb, fs', j, o) == if j == i && off <= o < off + |data| then data[o - off] else ByteAt(sb, fs, j, o)
  }

  /** The block after memmove(b + q, chunk). */
  function Patch(b: Block, q: nat, chunk: seq<Byte>): (b': Block)
    requires q + |chunk| <= |b|
    ensures |b'| == |b|
  {
    b[..q] + chunk + b[q + |chunk|..]
  }

  lemma SplicedNothing(sb: Super, fs: Fs, fs': Fs, i: nat, off: nat)
    requires Shape(sb, fs) && Shape(sb, fs') && SameFiles(sb, fs, fs')
    ensures Spliced(sb, fs, fs', i, off, [])
  {
    forall j, o | 0 <= j < sb.ninodes && 0 <= o < MAXBYTES
      ensures ByteAt(sb, fs', j, o) == ByteAt(sb, fs, j, o)
    {
      assert FileBlock(sb, fs', j, o / 1024) == FileBlock(sb, fs, j, o / 1024);
    }
  }

  /** One block's worth of writei. */
  lemma ChunkSpliced(sb: Super, fs: Fs, i: nat, off: nat, chunk: seq<Byte>)
    requires Owned(sb, fs) && i < sb.ninodes && off < MAXBYTES && off % 1024 + |chunk| <= 1024
    requires Entry(sb, fs, i, SlotOf(off / 1024)) != 0
    ensures var v := Patch(FileBlock(sb, fs, i, off / 1024), off % 1024, chunk);
      Spliced(sb, fs, Written(sb, fs, i, off / 1024, v), i, off, chunk)
  {
    var bn, q := off / 1024, off % 1024;
    var v := Patch(FileBlock(sb, fs, i, bn), q, chunk);
    var fs' := Written(sb, fs, i, bn, v);
    WrittenFiles(sb, fs, i, bn, v);
    forall j, o | 0 <= j < sb.ninodes && 0 <= o < MAXBYTES
      ensures ByteAt(sb, fs', j, o) == if j == i && off <= o < off + |chunk| then chunk[o - off]
        else ByteAt(sb, fs, j, o)
    {
      assert FileBlock(sb, fs', j, o / 1024) == if j == i && o / 1024 == bn then v else FileBlock(sb, fs, j, o / 1024);
    }
  }

  lemma SplicedTrans(sb: Super, fs: Fs, fs1: Fs, fs2: Fs, i: nat, off: nat, a: seq<Byte>, b: seq<Byte>)
    requires Shape(sb, fs) && Shape(sb, fs1) && Shape(sb, fs2)
    requires Spliced(sb, fs, fs1, i, off, a) && Spliced(sb, fs1, fs2, i, off + |a|, b)
    ensures Spliced(sb, fs, fs2, i, off, a + b)
  {
    forall j, o | 0 <= j < sb.ninodes && 0 <= o < MAXBYTES
      ensures ByteAt(sb, fs2, j, o) ==
        if j == i && off <= o < off + |a + b| then (a + b)[o - off] else ByteAt(sb, fs, j, o)
    {
      assert ByteAt(sb, fs1, j, o) == ByteAt(sb, fs1, j, o);
    }
  }

  // ---- changing only sizes ----

  function Resized(fs: Fs, i: nat, size: nat): Fs
    requires i < |fs.inodes|
  {
    fs.(inodes := fs.inodes[i := fs.inodes[i].(size := size)])
  }

  lemma ResizedKeeps(sb: Super, fs: Fs, i: nat, size: nat)
    requires Owned(sb, fs) && i < sb.ninodes && size <= MAXBYTES
    ensures var fs' := Resized(fs, i, size);
      && Owned(sb, fs') && SameFiles(sb, fs, fs')
      && forall j, t {:trigger Entry(sb, fs', j, t)} :: At(fs, j, t) ==> Entry(sb, fs', j, t) == Entry(sb, fs, j, t)
  {
    var fs' := Resized(fs, i, size);
    assert Shape(sb, fs');
    assert forall j, t {:trigger Entry(sb, fs', j, t)} :: At(fs, j, t) ==> Entry(sb, fs', j, t) == Entry(sb, fs, j, t);
  }

  // ---- inodes on disk ----

  function InodeWords(n: Inode): (ws: seq<nat>)
    requires InodeOk(n)
    ensures |ws| == 16 && forall k :: 0 <= k < 16 ==> ws[k] < UINT
  {
    [n.kind + 65536 * n.major, n.minor + 65536 * n.nlink, n.size] + n.addrs
  }

  function PutWords(b: Block, base: nat, ws: seq<nat>): (b': Block)
    requires 4 * (base + |ws|) <= |b|
    ensures |b'| == |b|
    decreases |ws|
  {
    if ws == [] then b else PutWords(PutWord(b, base, ws[0]), base + 1, ws[1..])
  }

  lemma {:induction false} WordOfPutWords(b: Block, base: nat, ws: seq<nat>, k: nat)
    requires 4 * (base + |ws|) <= |b| && 4 * k + 4 <= |b|
    requires forall m :: 0 <= m < |ws| ==> ws[m] < UINT
    ensures Word(PutWords(b, base, ws), k) == if base <= k < base + |ws| then ws[k - base] else Word(b, k)
    decreases |ws|
  {
    if ws != [] {
      WordOfPutWords(PutWord(b, base, ws[0]), base + 1, ws[1..], k);
      WordOfPut(b, base, ws[0], k);
    }
  }

  function GetWords(b: Block, base: nat, n: nat): (ws: seq<nat>)
    requires 4 * (base + n) <= |b|
    ensures |ws| == n && forall k :: 0 <= k < n ==> ws[k] == Word(b, base + k)
    decreases n
  {
    if n == 0 then [] else GetWords(b, base, n - 1) + [Word(b, base + n - 1)]
  }

  function WordsInode(ws: seq<nat>): Inode
    requires |ws| == 16
  {
    Inode(ws[0] % 65536, ws[0] / 65536, ws[1] % 65536, ws[1] / 65536, ws[2], ws[3..])
  }

  /** dinode number `idx` of an inode block. */
  function GetInode(b: Block, idx: nat): Inode
    requires |b| == BSIZE && idx < 16
  {
    WordsInode(GetWords(b, 16 * idx, 16))
  }

  function PutInode(b: Block, idx: nat, n: Inode): (b': Block)
    requires |b| == BSIZE && idx < 16 && InodeOk(n)
    ensures |b'| == BSIZE
  {
    PutWords(b, 16 * idx, InodeWords(n))
  }

  lemma WordsRoundTrip(n: Inode)
    requires InodeOk(n)
    ensures WordsInode(InodeWords(n)) == n
  {
    assert InodeWords(n)[3..] == n.addrs;
  }

  /** What iupdate writes, ilock reads back, and no other inode of the block changes. */
  lemma InodeRoundTrip(b: Block, idx: nat, n: Inode, k: nat)
    requires |b| == BSIZE && idx < 16 && k < 16 && InodeOk(n)
    ensures GetInode(PutInode(b, idx, n), k) == if k == idx then n else GetInode(b, k)
  {
    GetOfPutWords(b, 16 * idx, InodeWords(n), 16 * k);
    WordsRoundTrip(n);
  }

  lemma GetOfPutWords(b: Block, base: nat, ws: seq<nat>, base': nat)
    requires 4 * (base + |ws|) <= |b| && 4 * (base' + |ws|) <= |b|
    requires forall m :: 0 <= m < |ws| ==> ws[m] < UINT
    requires base' == base || base' + |ws| <= base || base + |ws| <= base'
    ensures GetWords(PutWords(b, base, ws), base', |ws|) == if base' == base then ws else GetWords(b, base', |ws|)
  {
    var got := GetWords(PutWords(b, base, ws), base', |ws|);
    forall m | 0 <= m < |ws|
      ensures got[m] == if base' == base then ws[m] else Word(b, base' + m)
    {
      WordOfPutWords(b, base, ws, base' + m);
    }
  }

  function DiskInode(sb: Super, fs: Fs, i: int): Inode
    requires Shape(sb, fs) && 0 <= i < sb.ninodes
  {
    GetInode(fs.disk[IBlock(sb, i)], i % 16)
  }

  /** The in-core inode and the one on disk agree. */
  predicate Synced(sb: Super, fs: Fs, i: int)
    requires Shape(sb, fs) && 0 <= i < sb.ninodes
  {
    DiskInode(sb, fs, i) == fs.inodes[i]
  }

  /** Every inode is on disk as it is in core: the blocks alone are the file system. */
  ghost predicate AllSynced(sb: Super, fs: Fs)
    requires Shape(sb, fs)
  {
    forall i {:trigger Synced(sb, fs, i)} :: 0 <= i < sb.ninodes ==> Synced(sb, fs, i)
  }

  function Updated(sb: Super, fs: Fs, i: nat): (fs': Fs)
    requires Shape(sb, fs) && i < sb.ninodes
    ensures Shape(sb, fs') && fs'.inodes == fs.inodes && fs'.owner == fs.owner
  {
    fs.(disk := fs.disk[IBlock(sb, i) := PutInode(fs.disk[IBlock(sb, i)], i % 16, fs.inodes[i])])
  }

  lemma UpdatedSyncs(sb: Super, fs: Fs, i: nat, j: nat)
    requires Shape(sb, fs) && i < sb.ninodes && j < sb.ninodes
    ensures DiskInode(sb, Updated(sb, fs, i), j) == if j == i then fs.inodes[i] else DiskInode(sb, fs, j)
  {
    if IBlock(sb, j) == IBlock(sb, i) {
      InodeRoundTrip(fs.disk[IBlock(sb, i)], i % 16, fs.inodes[i], j % 16);
    }
  }

  // ---- what writing to file i may do to the rest ----

  /** Below the bitmap nothing changed, of the inodes only addresses of inode i, and an address only
      from none to some block. */
  ghost predicate Grown(sb: Super, fs: Fs, fs': Fs, i: nat)
    requires Shape(sb, fs) && Shape(sb, fs') && i < sb.ninodes
  {
    && (forall b :: 0 <= b < sb.bmapstart ==> fs'.disk[b] == fs.disk[b])
    && (forall j :: 0 <= j < sb.ninodes && j != i ==> fs'.inodes[j] == fs.inodes[j])
    && fs'.inodes[i] == fs.inodes[i].(addrs := fs'.inodes[i].addrs)
    && (forall j, t {:trigger Entry(sb, fs', j, t)} :: At(fs, j, t) && Entry(sb, fs', j, t) != Entry(sb, fs, j, t) ==>
          j == i && Entry(sb, fs, j, t) == 0)
  }

  lemma GrownTrans(sb: Super, fs: Fs, fs1: Fs, fs2: Fs, i: nat)
    requires Shape(sb, fs) && Shape(sb, fs1) && Shape(sb, fs2) && i < sb.ninodes
    requires Grown(sb, fs, fs1, i) && Grown(sb, fs1, fs2, i)
    ensures Grown(sb, fs, fs2, i)
  {
    forall j, t | At(fs, j, t) && Entry(sb, fs2, j, t) != Entry(sb, fs, j, t)
      ensures j == i && Entry(sb, fs, j, t) == 0
    {
      assert Entry(sb, fs1, j, t) == Entry(sb, fs1, j, t);
    }
  }

  /** A chunk copied into the mapped block that holds byte `off`. */
  ghost function Copied(sb: Super, fs: Fs, i: nat, off: nat, chunk: seq<Byte>): (fs': Fs)
    requires Owned(sb, fs) && i < sb.ninodes && off < MAXBYTES && off % 1024 + |chunk| <= 1024
    requires Entry(sb, fs, i, SlotOf(off / 1024)) != 0
    ensures Shape(sb, fs') && fs'.inodes == fs.inodes && fs'.owner == fs.owner
  {
    Written(sb, fs, i, off / 1024, Patch(FileBlock(sb, fs, i, off / 1024), off % 1024, chunk))
  }

  lemma CopiedFacts(sb: Super, fs: Fs, i: nat, off: nat, chunk: seq<Byte>)
    requires Inv(sb, fs) && i < sb.ninodes && off < MAXBYTES && off % 1024 + |chunk| <= 1024
    requires Entry(sb, fs, i, SlotOf(off / 1024)) != 0
    ensures var fs' := Copied(sb, fs, i, off, chunk);
      && Inv(sb, fs') && Grown(sb, fs, fs', i) && Spliced(sb, fs, fs', i, off, chunk)
      && forall j, t {:trigger Entry(sb, fs', j, t)} :: At(fs, j, t) ==> Entry(sb, fs', j, t) == Entry(sb, fs, j, t)
  {
    var bn := off / 1024;
    var v := Patch(FileBlock(sb, fs, i, bn), off % 1024, chunk);
    WrittenEntries(sb, fs, i, bn, v);
    WrittenFiles(sb, fs, i, bn, v);
    ChunkSpliced(sb, fs, i, off, chunk);
    BitmapUntouched(sb, fs, Written(sb, fs, i, bn, v));
  }

  /** bmap followed by a copy, or bmap alone when `chunk` is empty and fs2 is fs1. */
  lemma MapThenCopy(sb: Super, fs: Fs, fs1: Fs, fs2: Fs, i: nat, off: nat, chunk: seq<Byte>)
    requires Shape(sb, fs) && Shape(sb, fs1) && Shape(sb, fs2) && i < sb.ninodes && off < MAXBYTES
    requires OnlyMapped(sb, fs, fs1, i, off / 1024)
    requires Grown(sb, fs1, fs2, i) && Spliced(sb, fs1, fs2, i, off, chunk)
    ensures Grown(sb, fs, fs2, i) && Spliced(sb, fs, fs2, i, off, chunk)
  {
    assert Grown(sb, fs, fs1, i);
    GrownTrans(sb, fs, fs1, fs2, i);
    SplicedNothing(sb, fs, fs1, i, off);
    SplicedTrans(sb, fs, fs1, fs2, i, off, [], chunk);
    assert [] + chunk == chunk;
  }

  // ---- the loop of writei ----

  /** Every block of file i that holds a byte of [off, off + tot) is mapped. */
  ghost predicate Mapped(sb: Super, fs: Fs, i: nat, off: nat, tot: nat)
    requires Shape(sb, fs) && i < sb.ninodes
  {
    tot > 0 ==>
      forall bn :: off / 1024 <= bn < MAXFILE && bn * 1024 < off + tot ==> Entry(sb, fs, i, SlotOf(bn)) != 0
  }

  /** tot bytes of src are in place. */
  ghost predicate WroteSoFar(sb: Super, fs0: Fs, fs: Fs, i: nat, off: nat, src: seq<Byte>, tot: nat)
    requires Shape(sb, fs0) && Shape(sb, fs) && i < sb.ninodes
  {
    && tot <= |src| && off + |src| <= MAXBYTES
    && Grown(sb, fs0, fs, i) && Spliced(sb, fs0, fs, i, off, src[..tot]) && Mapped(sb, fs, i, off, tot)
  }

  lemma WroteNothing(sb: Super, fs: Fs, i: nat, off: nat, src: seq<Byte>)
    requires Shape(sb, fs) && i < sb.ninodes && off + |src| <= MAXBYTES
    ensures WroteSoFar(sb, fs, fs, i, off, src, 0)
  {
    assert src[..0] == [];
    SplicedNothing(sb, fs, fs, i, off);
  }

  lemma WroteMore(sb: Super, fs0: Fs, fs: Fs, fs': Fs, i: nat, off: nat, src: seq<Byte>, tot: nat, tot': nat, at: nat,
                  bn: nat, chunk: seq<Byte>)
    requires Shape(sb, fs0) && Shape(sb, fs) && Shape(sb, fs') && i < sb.ninodes
    requires WroteSoFar(sb, fs0, fs, i, off, src, tot) && tot <= tot' <= |src|
    requires at == off + tot && bn == at / 1024 && chunk == src[tot..tot']
    requires Grown(sb, fs, fs', i) && Spliced(sb, fs, fs', i, at, chunk)
    requires tot' > tot ==> at % 1024 + |chunk| <= 1024 && Entry(sb, fs', i, SlotOf(bn)) != 0
    ensures WroteSoFar(sb, fs0, fs', i, off, src, tot')
  {
    hide Grown;
    hide Spliced;
    hide Mapped;
    hide Entry;
    GrownTrans(sb, fs0, fs, fs', i);
    SplicedTrans(sb, fs0, fs, fs', i, off, src[..tot], chunk);
    assert src[..tot] + chunk == src[..tot'];
    MappedMore(sb, fs, fs', i, off, tot, tot' - tot, bn);
  }

  lemma MappedMore(sb: Super, fs: Fs, fs': Fs, i: nat, off: nat, tot: nat, m: nat, last: nat)
    requires Shape(sb, fs) && Shape(sb, fs') && i < sb.ninodes && off + tot + m <= MAXBYTES
    requires Grown(sb, fs, fs', i) && Mapped(sb, fs, i, off, tot)
    requires last == (off + tot) / 1024
    requires m > 0 ==> (off + tot) % 1024 + m <= 1024 && Entry(sb, fs', i, SlotOf(last)) != 0
    ensures Mapped(sb, fs', i, off, tot + m)
  {
    forall bn | tot + m > 0 && off / 1024 <= bn < MAXFILE && bn * 1024 < off + tot + m
      ensures Entry(sb, fs', i, SlotOf(bn)) != 0
    {
      if tot == 0 || bn * 1024 >= off + tot {
        assert bn == last;
      } else {
        assert Entry(sb, fs, i, SlotOf(bn)) != 0;
      }
    }
  }

  /** After k blocks: at most k data blocks logged, and a bitmap block for each allocation.  A block
      that the file already had, which an unaligned first block always is, needs none. */
  ghost predicate Spent(sb: Super, fs0: Fs, fs: Fs, i: nat, off: nat, k: nat, data: seq<nat>, bits: seq<nat>)
    requires Shape(sb, fs0) && Shape(sb, fs) && i < sb.ninodes
  {
    && |data| <= k
    && (NoHoles(sb, fs0, i) ==>
          |bits| <= (if off % 1024 != 0 && k > 0 then k - 1 else k)
                    + (if fs.inodes[i].addrs[NDIRECT] != fs0.inodes[i].addrs[NDIRECT] then 1 else 0))
  }

  lemma SpentMore(sb: Super, fs0: Fs, fs: Fs, fs': Fs, i: nat, off: nat, k: nat, bn: nat,
                  data: seq<nat>, bits: seq<nat>, addr: nat, more: seq<nat>,
                  k': nat, data': seq<nat>, bits': seq<nat>)
    requires Shape(sb, fs0) && Shape(sb, fs) && Shape(sb, fs') && i < sb.ninodes
    requires off <= fs0.inodes[i].size && off / 1024 + k == bn < MAXFILE
    requires Grown(sb, fs0, fs, i) && Grown(sb, fs, fs', i) && Spent(sb, fs0, fs, i, off, k, data, bits)
    requires Entry(sb, fs, i, SlotOf(bn)) != 0 ==>
               more == [] && fs'.inodes[i].addrs[NDIRECT] == fs.inodes[i].addrs[NDIRECT]
    requires |more| <= 1 + (if fs'.inodes[i].addrs[NDIRECT] != fs.inodes[i].addrs[NDIRECT] then 1 else 0)
    requires k' == k + 1 && data' == data + [addr] && bits' == bits + more
    ensures Spent(sb, fs0, fs', i, off, k', data', bits')
  {
    var a0, a, a' := Entry(sb, fs0, i, NDIRECT), Entry(sb, fs, i, NDIRECT), Entry(sb, fs', i, NDIRECT);
    assert a' != a ==> a == 0;
    assert a != a0 ==> a0 == 0;
    if NoHoles(sb, fs0, i) && off % 1024 != 0 && k == 0 {
      assert Entry(sb, fs0, i, SlotOf(bn)) != 0;
      assert Entry(sb, fs, i, SlotOf(bn)) != 0;
    }
  }

  /** The size of writei's next copy: to the end of the source or of the block. */
  function NextCopy(n: nat, tot: nat, off: nat): (m: nat)
    requires tot < n
    ensures 0 < m <= n - tot && off % 1024 + m <= 1024
  {
    if n - tot < 1024 - off % 1024 then n - tot else 1024 - off % 1024
  }

  /** After k turns the loop stands at block k past the first, at its start unless k is 0. */
  predicate Turns(off: nat, n: nat, tot: nat, k: nat) {
    && tot <= n
    && (tot < n ==> (off + tot) / 1024 == off / 1024 + k && (k > 0 ==> (off + tot) % 1024 == 0))
    && (k == 0 ==> tot == 0)
    && (k > 0 ==> (off / 1024 + k - 1) * 1024 < off + tot)
  }

  lemma TurnsNext(off: nat, n: nat, tot: nat, k: nat)
    requires Turns(off, n, tot, k) && tot < n
    ensures Turns(off, n, tot + NextCopy(n, tot, off + tot), k + 1)
  {
  }

  lemma TurnsBound(off: nat, n: nat, tot: nat, k: nat)
    requires Turns(off, n, tot, k) && n <= 3 * BSIZE
    ensures k <= 4 && (off % 1024 == 0 ==> k <= 3)
    ensures tot < n ==> k <= 3 && (off % 1024 == 0 ==> k <= 2)
  {
  }

  // ---- what a finished writei means for the files ----

  /** `data` laid over `c` at offset `off`. */
  function Splice(c: seq<Byte>, off: nat, data: seq<Byte>): (r: seq<Byte>)
    requires off <= |c|
    ensures |r| == if off + |data| > |c| then off + |data| else |c|
  {
    c[..off] + data + (if off + |data| < |c| then c[off + |data|..] else [])
  }

  lemma ContentSpliced(sb: Super, fs: Fs, fs': Fs, i: nat, off: nat, data: seq<Byte>)
    requires Shape(sb, fs) && Shape(sb, fs') && i < sb.ninodes && Spliced(sb, fs, fs', i, off, data)
    requires off <= fs.inodes[i].size && off + |data| <= MAXBYTES
    requires fs'.inodes[i].size == if off + |data| > fs.inodes[i].size then off + |data| else fs.inodes[i].size
    ensures Content(sb, fs', i) == Splice(Content(sb, fs, i), off, data)
  {
    var c, c' := Content(sb, fs, i), Content(sb, fs', i);
    forall o | 0 <= o < |c'|
      ensures c'[o] == Splice(c, off, data)[o]
    {
      assert c'[o] == ByteAt(sb, fs', i, o);
    }
  }

  lemma OtherContent(sb: Super, fs: Fs, fs': Fs, i: nat, off: nat, data: seq<Byte>, j: nat)
    requires Shape(sb, fs) && Shape(sb, fs') && j < sb.ninodes && j != i && Spliced(sb, fs, fs', i, off, data)
    requires fs'.inodes[j] == fs.inodes[j]
    ensures Content(sb, fs', j) == Content(sb, fs, j)
  {
    forall o | 0 <= o < fs.inodes[j].size
      ensures ByteAt(sb, fs', j, o) == ByteAt(sb, fs, j, o)
    {
    }
  }

  /** Writing at or before the end of a file without holes, and growing it to at most the end of
      the bytes written, leaves no file with a new hole. */
  lemma WroteKeepsNoHoles(sb: Super, fs0: Fs, fs: Fs, fs': Fs, i: nat, off: nat, src: seq<Byte>, tot: nat, j: nat)
    requires Shape(sb, fs0) && Shape(sb, fs) && Shape(sb, fs') && i < sb.ninodes && j < sb.ninodes
    requires off <= fs0.inodes[i].size && WroteSoFar(sb, fs0, fs, i, off, src, tot)
    requires forall t :: 0 <= t < NSLOTS ==> Entry(sb, fs', j, t) == Entry(sb, fs, j, t)
    requires fs'.inodes[j].size <= if j == i && off + tot > fs0.inodes[i].size then off + tot else fs0.inodes[j].size
    requires NoHoles(sb, fs0, j)
    ensures NoHoles(sb, fs', j)
  {
    forall bn | 0 <= bn < MAXFILE && bn * BSIZE < fs'.inodes[j].size
      ensures Entry(sb, fs', j, SlotOf(bn)) != 0
    {
      assert Entry(sb, fs', j, SlotOf(bn)) == Entry(sb, fs, j, SlotOf(bn));
      if bn * BSIZE < fs0.inodes[j].size {
        assert Entry(sb, fs0, j, SlotOf(bn)) != 0;
      }
    }
  }

  // ---- iupdate and the end of writei ----

  lemma UpdatedFacts(sb: Super, fs: Fs, i: nat)
    requires Inv(sb, fs) && i < sb.ninodes
    ensures var fs' := Updated(sb, fs, i);
      && Inv(sb, fs') && SameFiles(sb, fs, fs')
      && forall j, t {:trigger Entry(sb, fs', j, t)} :: At(fs, j, t) ==> Entry(sb, fs', j, t) == Entry(sb, fs, j, t)
  {
    var b := IBlock(sb, i);
    var v := PutInode(fs.disk[b], i % 16, fs.inodes[i]);
    MetaWrittenEntries(sb, fs, b, v);
    MetaWrittenOwned(sb, fs, b, v);
    MetaWrittenFiles(sb, fs, b, v);
    assert Updated(sb, fs, i) == MetaWritten(sb, fs, b, v);
    BitmapUntouched(sb, fs, MetaWritten(sb, fs, b, v));
  }

  /** A new size for inode i, written back to disk. */
  ghost function Finished(sb: Super, fs: Fs, i: nat, size: nat): (fs': Fs)
    requires Shape(sb, fs) && i < sb.ninodes && size <= MAXBYTES
    ensures Shape(sb, fs')
    ensures fs'.inodes == fs.inodes[i := fs.inodes[i].(size := size)] && fs'.owner == fs.owner
  {
    Updated(sb, Resized(fs, i, size), i)
  }

  lemma FinishedFacts(sb: Super, fs: Fs, i: nat, size: nat)
    requires Inv(sb, fs) && i < sb.ninodes && size <= MAXBYTES
    ensures var fs' := Finished(sb, fs, i, size);
      && Inv(sb, fs') && SameFiles(sb, fs, fs')
      && forall j, t {:trigger Entry(sb, fs', j, t)} :: At(fs, j, t) ==> Entry(sb, fs', j, t) == Entry(sb, fs, j, t)
  {
    var mid := Resized(fs, i, size);
    ResizedKeeps(sb, fs, i, size);
    BitmapUntouched(sb, fs, mid);
    UpdatedFacts(sb, mid, i);
    var fs' := Finished(sb, fs, i, size);
    forall j, bn | 0 <= j < sb.ninodes && 0 <= bn < MAXFILE
      ensures FileBlock(sb, fs', j, bn) == FileBlock(sb, fs, j, bn)
    {
      assert FileBlock(sb, mid, j, bn) == FileBlock(sb, fs, j, bn);
    }
  }

  lemma FinishedDisk(sb: Super, fs: Fs, i: nat, size: nat, j: nat)
    requires Inv(sb, fs) && i < sb.ninodes && size <= MAXBYTES && j < sb.ninodes
    ensures var fs' := Finished(sb, fs, i, size);
      if j == i then Synced(sb, fs', i) else DiskInode(sb, fs', j) == DiskInode(sb, fs, j)
  {
    ResizedKeeps(sb, fs, i, size);
    UpdatedSyncs(sb, Resized(fs, i, size), i, j);
  }

  lemma WriteiSplices(sb: Super, fs0: Fs, fs: Fs, i: nat, off: nat, src: seq<Byte>, tot: nat, wrote: seq<Byte>,
                      size: nat)
    requires Inv(sb, fs0) && Inv(sb, fs) && i < sb.ninodes && off <= fs0.inodes[i].size
    requires WroteSoFar(sb, fs0, fs, i, off, src, tot) && wrote == src[..tot]
    requires size == if off + tot > fs0.inodes[i].size then off + tot else fs0.inodes[i].size
    ensures var fs' := Finished(sb, fs, i, size);
      && Inv(sb, fs') && Spliced(sb, fs0, fs', i, off, wrote)
      && Content(sb, fs', i) == Splice(Content(sb, fs0, i), off, wrote)
  {
    FinishedFacts(sb, fs, i, size);
    var fs' := Finished(sb, fs, i, size);
    SplicedNothing(sb, fs, fs', i, off + tot);
    SplicedTrans(sb, fs0, fs, fs', i, off, wrote, []);
    assert wrote + [] == wrote;
    ContentSpliced(sb, fs0, fs', i, off, wrote);
  }

  /** The other files after writei: contents, inodes on disk, and no new holes anywhere. */
  lemma WriteiOthers(sb: Super, fs0: Fs, fs: Fs, i: nat, off: nat, src: seq<Byte>, tot: nat, wrote: seq<Byte>,
                     size: nat, j: nat)
    requires Inv(sb, fs0) && Inv(sb, fs) && i < sb.ninodes && off <= fs0.inodes[i].size && j < sb.ninodes
    requires WroteSoFar(sb, fs0, fs, i, off, src, tot) && wrote == src[..tot]
    requires size == if off + tot > fs0.inodes[i].size then off + tot else fs0.inodes[i].size
    ensures var fs' := Finished(sb, fs, i, size);
      && (NoHoles(sb, fs0, j) ==> NoHoles(sb, fs', j))
      && (j != i ==> fs'.inodes[j] == fs0.inodes[j] && Content(sb, fs', j) == Content(sb, fs0, j)
                     && DiskInode(sb, fs', j) == DiskInode(sb, fs0, j))
      && (j == i ==> Synced(sb, fs', i))
  {
    var fs' := Finished(sb, fs, i, size);
    WriteiSplices(sb, fs0, fs, i, off, src, tot, wrote, size);
    FinishedFacts(sb, fs, i, size);
    FinishedDisk(sb, fs, i, size, j);
    if NoHoles(sb, fs0, j) {
      WroteKeepsNoHoles(sb, fs0, fs, fs', i, off, src, tot, j);
    }
    if j != i {
      OtherContent(sb, fs0, fs', i, off, wrote, j);
      RegionsDisjoint(sb, j, 0);
    }
  }

  /** What writing `wrote` at offset `off` of file i promises: the file is spliced, every other file
      keeps its bytes and its inode in core and on disk, and no file gets a new hole. */
  ghost predicate FileWritten(sb: Super, fs0: Fs, fs: Fs, i: nat, off: nat, wrote: seq<Byte>)
    requires Inv(sb, fs0) && Inv(sb, fs) && i < sb.ninodes
  {
    && off <= fs0.inodes[i].size && Content(sb, fs, i) == Splice(Content(sb, fs0, i), off, wrote)
    && (forall j :: 0 <= j < sb.ninodes && j != i ==>
          && fs.inodes[j] == fs0.inodes[j] && Content(sb, fs, j) == Content(sb, fs0, j)
          && DiskInode(sb, fs, j) == DiskInode(sb, fs0, j))
    && (forall j :: 0 <= j < sb.ninodes && NoHoles(sb, fs0, j) ==> NoHoles(sb, fs, j))
  }

  lemma WroteSize(sb: Super, fs0: Fs, fs: Fs, i: nat, off: nat, src: seq<Byte>, tot: nat)
    requires Shape(sb, fs0) && Shape(sb, fs) && i < sb.ninodes && WroteSoFar(sb, fs0, fs, i, off, src, tot)
    ensures tot <= |src| && fs.inodes[i].size == fs0.inodes[i].size
  {
  }

  lemma WriteiFacts(sb: Super, fs0: Fs, fs: Fs, fs': Fs, i: nat, off: nat, src: seq<Byte>, tot: nat, wrote: seq<Byte>,
                    size: nat)
    requires Inv(sb, fs0) && Inv(sb, fs) && i < sb.ninodes && off <= fs0.inodes[i].size
    requires WroteSoFar(sb, fs0, fs, i, off, src, tot) && wrote == src[..tot]
    requires size == if off + tot > fs0.inodes[i].size then off + tot else fs0.inodes[i].size
    requires fs' == Finished(sb, fs, i, size)
    ensures Inv(sb, fs') && FileWritten(sb, fs0, fs', i, off, wrote) && Synced(sb, fs', i)
    ensures WrittenOrBad(sb, fs0, fs', i, off, wrote)
  {
    WriteiSplices(sb, fs0, fs, i, off, src, tot, wrote, size);
    WriteiOthers(sb, fs0, fs, i, off, src, tot, wrote, size, i);
    forall j | 0 <= j < sb.ninodes {
      WriteiOthers(sb, fs0, fs, i, off, src, tot, wrote, size, j);
    }
  }

  /** Reading back where one has written gives what was written. */
  lemma SpliceReadsBack(c: seq<Byte>, off: nat, data: seq<Byte>)
    requires off <= |c|
    ensures Splice(c, off, data)[off..off + |data|] == data
    ensures Splice(c, off, data)[..off] == c[..off]
    ensures off + |data| <= |c| ==> Splice(c, off, data)[off + |data|..] == c[off + |data|..]
  {
  }

  lemma SpliceTwice(c: seq<Byte>, off: nat, a: seq<Byte>, b: seq<Byte>)
    requires off <= |c|
    ensures Splice(Splice(c, off, a), off + |a|, b) == Splice(c, off, a + b)
  {
  }

  /** Consecutive writes amount to one. */
  lemma FileWrittenTwice(sb: Super, fs0: Fs, fs1: Fs, fs2: Fs, i: nat, off: nat, a: seq<Byte>, mid: nat, b: seq<Byte>,
                         ab: seq<Byte>)
    requires Inv(sb, fs0) && Inv(sb, fs1) && Inv(sb, fs2) && i < sb.ninodes
    requires FileWritten(sb, fs0, fs1, i, off, a) && mid == off + |a| && ab == a + b
    requires FileWritten(sb, fs1, fs2, i, mid, b)
    ensures FileWritten(sb, fs0, fs2, i, off, ab)
  {
    hide EntriesOwned;
    hide OwnersReal;
    hide BitmapExact;
    hide NoHoles;
    hide DiskInode;
    hide Content;
    hide Splice;
    SpliceTwice(Content(sb, fs0, i), off, a, b);
  }

  /** `wrote` has been written at `off`, if that is a place in the file; else nothing has. */
  ghost predicate WrittenOrBad(sb: Super, fs0: Fs, fs: Fs, i: nat, off: nat, wrote: seq<Byte>)
    requires Inv(sb, fs0) && Inv(sb, fs) && i < sb.ninodes
  {
    if off <= fs0.inodes[i].size then FileWritten(sb, fs0, fs, i, off, wrote) else fs == fs0 && wrote == []
  }

  lemma WrittenSynced(sb: Super, fs0: Fs, fs: Fs, i: nat, off: nat, wrote: seq<Byte>)
    requires Inv(sb, fs0) && Inv(sb, fs) && i < sb.ninodes && WrittenOrBad(sb, fs0, fs, i, off, wrote)
    requires off <= fs0.inodes[i].size && fs != fs0 ==> Synced(sb, fs, i)
    ensures AllSynced(sb, fs0) ==> AllSynced(sb, fs)
  {
    hide EntriesOwned;
    hide OwnersReal;
    hide BitmapExact;
    hide DiskInode;
    hide Content;
    hide NoHoles;
    if AllSynced(sb, fs0) {
      forall j | 0 <= j < sb.ninodes
        ensures Synced(sb, fs, j)
      {
        assert Synced(sb, fs0, j);
      }
    }
  }

  lemma WroteNothingYet(sb: Super, fs: Fs, i: nat, off: nat)
    requires Inv(sb, fs) && i < sb.ninodes
    ensures WrittenOrBad(sb, fs, fs, i, off, [])
  {
    if off <= fs.inodes[i].size {
      FileWrittenNothing(sb, fs, i, off);
    }
  }

  lemma FileWrittenSize(sb: Super, fs0: Fs, fs: Fs, i: nat, off: nat, wrote: seq<Byte>)
    requires Inv(sb, fs0) && Inv(sb, fs) && i < sb.ninodes && FileWritten(sb, fs0, fs, i, off, wrote)
    ensures off + |wrote| <= fs.inodes[i].size
  {
    assert |Content(sb, fs, i)| == |Splice(Content(sb, fs0, i), off, wrote)|;
  }

  /** What writei wrote, readi reads: the bytes that readi promises at the same offset are those. */
  lemma WriteThenRead(sb: Super, fs0: Fs, fs: Fs, i: nat, off: nat, wrote: seq<Byte>, out: seq<Byte>)
    requires Inv(sb, fs0) && Inv(sb, fs) && i < sb.ninodes && FileWritten(sb, fs0, fs, i, off, wrote)
    requires |out| == |wrote| && off + |out| <= |Content(sb, fs, i)| && out == Content(sb, fs, i)[off..off + |out|]
    ensures out == wrote
  {
    hide Content;
    SpliceReadsBack(Content(sb, fs0, i), off, wrote);
  }

  lemma WrittenOrBadOffset(sb: Super, fs0: Fs, fs: Fs, i: nat, off: nat, done: seq<Byte>, at: nat)
    requires Inv(sb, fs0) && Inv(sb, fs) && i < sb.ninodes && off < UINT
    requires WrittenOrBad(sb, fs0, fs, i, off, done) && at == off + |done|
    ensures at < UINT && (off <= fs0.inodes[i].size <==> at <= fs.inodes[i].size)
    ensures NoHoles(sb, fs0, i) ==> NoHoles(sb, fs, i)
  {
    if off <= fs0.inodes[i].size {
      FileWrittenSize(sb, fs0, fs, i, off, done);
    }
  }

  lemma WrittenOrBadMore(sb: Super, fs0: Fs, fs: Fs, fs': Fs, i: nat, off: nat, done: seq<Byte>, at: nat,
                         wrote: seq<Byte>, done': seq<Byte>)
    requires Inv(sb, fs0) && Inv(sb, fs) && Inv(sb, fs') && i < sb.ninodes && off < UINT
    requires WrittenOrBad(sb, fs0, fs, i, off, done) && at == off + |done| && done' == done + wrote
    requires WrittenOrBad(sb, fs, fs', i, at, wrote)
    ensures WrittenOrBad(sb, fs0, fs', i, off, done')
  {
    WrittenOrBadOffset(sb, fs0, fs, i, off, done, at);
    if off <= fs0.inodes[i].size {
      FileWrittenTwice(sb, fs0, fs, fs', i, off, done, at, wrote, done');
    }
  }

  lemma PrefixMore(src: seq<Byte>, k: nat, n: nat, chunk: seq<Byte>, done: seq<Byte>, wrote: seq<Byte>,
                   done': seq<Byte>)
    requires k + n <= |src| && chunk == src[k..k + n] && done == src[..k]
    requires |wrote| <= n && wrote == chunk[..|wrote|] && done' == done + wrote
    ensures |done'| == k + |wrote| && done' == src[..|done'|]
  {
  }

  /** Writing nothing. */
  lemma FileWrittenNothing(sb: Super, fs: Fs, i: nat, off: nat)
    requires Inv(sb, fs) && i < sb.ninodes && off <= fs.inodes[i].size
    ensures FileWritten(sb, fs, fs, i, off, [])
  {
  }

  // ---- the loop of readi ----

  /** No file has changed, at most some of file i's holes got blocks, and without holes nothing at
      all has changed. */
  ghost predicate Undisturbed(sb: Super, fs0: Fs, fs: Fs, i: nat)
    requires Shape(sb, fs0) && Shape(sb, fs) && i < sb.ninodes
  {
    SameFiles(sb, fs0, fs) && Grown(sb, fs0, fs, i) && (NoHoles(sb, fs0, i) ==> fs == fs0)
  }

  lemma UndisturbedSame(sb: Super, fs: Fs, i: nat)
    requires Shape(sb, fs) && i < sb.ninodes
    ensures Undisturbed(sb, fs, fs, i)
  {
  }

  lemma StillUndisturbed(sb: Super, fs0: Fs, fs: Fs, fs': Fs, i: nat, bn: nat)
    requires Shape(sb, fs0) && Shape(sb, fs) && Shape(sb, fs') && i < sb.ninodes && bn < MAXFILE
    requires Undisturbed(sb, fs0, fs, i) && OnlyMapped(sb, fs, fs', i, bn)
    requires Entry(sb, fs, i, SlotOf(bn)) != 0 ==> fs' == fs
    requires bn * BSIZE < fs0.inodes[i].size
    ensures Undisturbed(sb, fs0, fs', i)
    ensures NoHoles(sb, fs0, i) ==> Entry(sb, fs, i, SlotOf(bn)) != 0
  {
    assert Grown(sb, fs, fs', i);
    GrownTrans(sb, fs0, fs, fs', i);
    forall j, b | 0 <= j < sb.ninodes && 0 <= b < MAXFILE
      ensures FileBlock(sb, fs', j, b) == FileBlock(sb, fs0, j, b)
    {
      assert FileBlock(sb, fs, j, b) == FileBlock(sb, fs0, j, b);
    }
  }

  /** The bytes in the block of a file are the bytes of the file. */
  lemma BlockIsContent(sb: Super, fs0: Fs, fs: Fs, i: nat, c: seq<Byte>, at: nat, bn: nat, m: nat, chunk: seq<Byte>)
    requires Shape(sb, fs0) && Shape(sb, fs) && i < sb.ninodes && SameFiles(sb, fs0, fs)
    requires c == Content(sb, fs0, i) && at + m <= |c| && bn == at / 1024 < MAXFILE && at % 1024 + m <= 1024
    requires 0 < Entry(sb, fs, i, SlotOf(bn)) < sb.size
    requires chunk == fs.disk[Entry(sb, fs, i, SlotOf(bn))][at % 1024..at % 1024 + m]
    ensures chunk == c[at..at + m]
  {
    assert FileBlock(sb, fs, i, bn) == FileBlock(sb, fs0, i, bn);
    forall k | 0 <= k < m
      ensures chunk[k] == c[at + k]
    {
      assert (at + k) / 1024 == bn && (at + k) % 1024 == at % 1024 + k;
      assert c[at + k] == ByteAt(sb, fs0, i, at + k);
    }
  }
}
