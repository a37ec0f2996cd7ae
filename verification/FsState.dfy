/** A file-system snapshot: what the buffer cache shows of the disk, the in-core inodes, and
    `owner`, a ghost map that names for every allocated data block the one place that refers to it.

    A place is an inode and a slot: 0..NDIRECT-1 are the direct addresses, NDIRECT the address of
    the indirect block, and NDIRECT+1+j its j-th word. */
module FsState {
  import opened FsLayout

  const NSLOTS: nat := NDIRECT + 1 + NINDIRECT

  datatype Inode = Inode(kind: nat, major: nat, minor: nat, nlink: nat, size: nat, addrs: seq<nat>)
  datatype Place = Place(i: nat, s: nat)
  datatype Fs = Fs(disk: seq<Block>, inodes: seq<Inode>, owner: map<nat, Place>)

  predicate InodeOk(n: Inode) {
    && |n.addrs| == NDIRECT + 1 && (forall k :: 0 <= k < |n.addrs| ==> n.addrs[k] < UINT)
    && n.size <= MAXFILE * BSIZE
    && n.kind < 65536 && n.major < 65536 && n.minor < 65536 && n.nlink < 65536
  }

  predicate Shape(sb: Super, fs: Fs) {
    && sb.Ok()
    && |fs.disk| == sb.size
    && (forall b :: 0 <= b < |fs.disk| ==> |fs.disk[b]| == BSIZE)
    && |fs.inodes| == sb.ninodes
    && (forall i :: 0 <= i < |fs.inodes| ==> InodeOk(fs.inodes[i]))
  }

  predicate At(fs: Fs, i: int, s: int) {
    0 <= i < |fs.inodes| && 0 <= s < NSLOTS
  }

  /** The block number stored at a place, 0 if none. */
  function Entry(sb: Super, fs: Fs, i: int, s: int): nat
    requires Shape(sb, fs) && At(fs, i, s)
  {
    var a := fs.inodes[i].addrs;
    if s <= NDIRECT then a[s]
    else if 0 < a[NDIRECT] < sb.size then Word(fs.disk[a[NDIRECT]], s - NDIRECT - 1)
    else 0
  }

  predicate Used(sb: Super, fs: Fs, b: int)
    requires Shape(sb, fs) && 0 <= b < sb.size
  {
    RegionsDisjoint'(sb, b);
    Bit(fs.disk[BBlock(sb, b)], b % 8192)
  }

  lemma RegionsDisjoint'(sb: Super, b: nat)
    requires sb.Ok() && b < sb.size
    ensures sb.bmapstart <= BBlock(sb, b) < sb.datastart
  {
  }

  // ---- the ownership invariant ----

  ghost predicate EntriesOwned(sb: Super, fs: Fs)
    requires Shape(sb, fs)
  {
    forall i, s {:trigger Entry(sb, fs, i, s)} :: At(fs, i, s) && Entry(sb, fs, i, s) != 0 ==>
      Entry(sb, fs, i, s) in fs.owner && fs.owner[Entry(sb, fs, i, s)] == Place(i, s)
  }

  ghost predicate OwnersReal(sb: Super, fs: Fs)
    requires Shape(sb, fs)
  {
    forall b :: b in fs.owner ==>
      && sb.datastart <= b < sb.size
      && At(fs, fs.owner[b].i, fs.owner[b].s)
      && Entry(sb, fs, fs.owner[b].i, fs.owner[b].s) == b
  }

  /** The bitmap marks exactly the metadata blocks and the owned ones. */
  ghost predicate BitmapExact(sb: Super, fs: Fs)
    requires Shape(sb, fs)
  {
    forall b {:trigger Used(sb, fs, b)} :: 0 <= b < sb.size ==>
      (Used(sb, fs, b) <==> b < sb.datastart || b in fs.owner)
  }

  ghost predicate Owned(sb: Super, fs: Fs) {
    Shape(sb, fs) && EntriesOwned(sb, fs) && OwnersReal(sb, fs)
  }

  ghost predicate Inv(sb: Super, fs: Fs) {
    Owned(sb, fs) && BitmapExact(sb, fs)
  }

  // ---- file contents ----

  function SlotOf(bn: nat): nat {
    if bn < NDIRECT then bn else bn + 1
  }

  /** Block bn of a file; a hole reads as zeros. */
  function FileBlock(sb: Super, fs: Fs, i: int, bn: nat): Block
    requires Shape(sb, fs) && 0 <= i < |fs.inodes| && bn < MAXFILE
  {
    var e := Entry(sb, fs, i, SlotOf(bn));
    if 0 < e < sb.size then fs.disk[e] else ZeroBlock()
  }

  predicate SameFiles(sb: Super, fs: Fs, fs': Fs)
    requires Shape(sb, fs) && Shape(sb, fs')
  {
    forall i, bn :: 0 <= i < sb.ninodes && 0 <= bn < MAXFILE ==>
      FileBlock(sb, fs', i, bn) == FileBlock(sb, fs, i, bn)
  }

  /** Every block below the size of the file is mapped. */
  predicate NoHoles(sb: Super, fs: Fs, i: int)
    requires Shape(sb, fs) && 0 <= i < |fs.inodes|
  {
    forall bn :: 0 <= bn < MAXFILE && bn * BSIZE < fs.inodes[i].size ==> Entry(sb, fs, i, SlotOf(bn)) != 0
  }

  // ---- balloc and bfree on the bitmap ----

  function Flipped(sb: Super, fs: Fs, x: nat): (fs': Fs)
    requires Shape(sb, fs) && x < sb.size
    ensures Shape(sb, fs') && fs'.inodes == fs.inodes && fs'.owner == fs.owner
    ensures forall b :: 0 <= b < sb.size && b != BBlock(sb, x) ==> fs'.disk[b] == fs.disk[b]
  {
    RegionsDisjoint'(sb, x);
    var bb := BBlock(sb, x);
    fs.(disk := fs.disk[bb := Flip(fs.disk[bb], x % 8192)])
  }

  lemma FlippedUsed(sb: Super, fs: Fs, x: nat, b: nat)
    requires Shape(sb, fs) && x < sb.size && b < sb.size
    ensures Used(sb, Flipped(sb, fs, x), b) == if b == x then !Used(sb, fs, b) else Used(sb, fs, b)
  {
    RegionsDisjoint'(sb, x);
    if BBlock(sb, b) == BBlock(sb, x) {
      FlipFlips(fs.disk[BBlock(sb, x)], x % 8192, b % 8192);
    }
  }

  /** No place refers to a block outside the data region, and an indirect block is only that. */
  lemma IndirectOwned(sb: Super, fs: Fs, i: int)
    requires Owned(sb, fs) && 0 <= i < |fs.inodes|
    ensures var a := fs.inodes[i].addrs[NDIRECT];
      a != 0 ==> sb.datastart <= a < sb.size && a in fs.owner && fs.owner[a] == Place(i, NDIRECT)
  {
    assert Entry(sb, fs, i, NDIRECT) == fs.inodes[i].addrs[NDIRECT];
  }

  /** Writing blocks that are nobody's indirect block leaves every entry as it was. */
  lemma EntriesUnchanged(sb: Super, fs: Fs, fs': Fs)
    requires Shape(sb, fs) && Shape(sb, fs') && fs'.inodes == fs.inodes
    requires forall i :: 0 <= i < |fs.inodes| && 0 < fs.inodes[i].addrs[NDIRECT] < sb.size ==>
      fs'.disk[fs.inodes[i].addrs[NDIRECT]] == fs.disk[fs.inodes[i].addrs[NDIRECT]]
    ensures forall i, s {:trigger Entry(sb, fs', i, s)} :: At(fs, i, s) ==> Entry(sb, fs', i, s) == Entry(sb, fs, i, s)
  {
  }

  // ---- allocating a block and storing its number at a place ----

  predicate CanLink(sb: Super, fs: Fs, x: int, i: int, s: int)
    requires Shape(sb, fs)
  {
    && At(fs, i, s) && Entry(sb, fs, i, s) == 0
    && (s > NDIRECT ==> fs.inodes[i].addrs[NDIRECT] != 0)
    && sb.datastart <= x < sb.size && x !in fs.owner
  }

  ghost function Linked(sb: Super, fs: Fs, x: nat, i: nat, s: nat): (fs': Fs)
    requires Owned(sb, fs) && CanLink(sb, fs, x, i, s)
    ensures Shape(sb, fs')
  {
    IndirectOwned(sb, fs, i);
    var f := Flipped(sb, fs, x);
    var disk := f.disk[x := ZeroBlock()];
    var owner := fs.owner[x := Place(i, s)];
    var ip := fs.inodes[i];
    if s <= NDIRECT then
      Fs(disk, fs.inodes[i := ip.(addrs := ip.addrs[s := x])], owner)
    else
      var a := ip.addrs[NDIRECT];
      Fs(disk[a := PutWord(disk[a], s - NDIRECT - 1, x)], fs.inodes, owner)
  }

  lemma LinkedEntryDirect(sb: Super, fs: Fs, x: nat, i: nat, s: nat, j: nat, t: nat)
    requires Owned(sb, fs) && CanLink(sb, fs, x, i, s) && At(fs, j, t) && s <= NDIRECT
    ensures Entry(sb, Linked(sb, fs, x, i, s), j, t) == if j == i && t == s then x else Entry(sb, fs, j, t)
  {
    RegionsDisjoint'(sb, x);
    IndirectOwned(sb, fs, j);
  }

  lemma LinkedEntryIndirect(sb: Super, fs: Fs, x: nat, i: nat, s: nat, j: nat, t: nat)
    requires Owned(sb, fs) && CanLink(sb, fs, x, i, s) && At(fs, j, t) && s > NDIRECT
    ensures Entry(sb, Linked(sb, fs, x, i, s), j, t) == if j == i && t == s then x else Entry(sb, fs, j, t)
  {
    RegionsDisjoint'(sb, x);
    IndirectOwned(sb, fs, i);
    IndirectOwned(sb, fs, j);
    if t > NDIRECT && j == i {
      WordOfPut(fs.disk[fs.inodes[i].addrs[NDIRECT]], s - NDIRECT - 1, x, t - NDIRECT - 1);
    }
  }

  lemma LinkedEntry(sb: Super, fs: Fs, x: nat, i: nat, s: nat, j: nat, t: nat)
    requires Owned(sb, fs) && CanLink(sb, fs, x, i, s) && At(fs, j, t)
    ensures Entry(sb, Linked(sb, fs, x, i, s), j, t) == if j == i && t == s then x else Entry(sb, fs, j, t)
  {
    if s <= NDIRECT {
      LinkedEntryDirect(sb, fs, x, i, s, j, t);
    } else {
      LinkedEntryIndirect(sb, fs, x, i, s, j, t);
    }
  }

  lemma LinkedBitmap(sb: Super, fs: Fs, x: nat, i: nat, s: nat)
    requires Inv(sb, fs) && CanLink(sb, fs, x, i, s)
    ensures BitmapExact(sb, Linked(sb, fs, x, i, s))
  {
    var fs' := Linked(sb, fs, x, i, s);
    forall b | 0 <= b < sb.size
      ensures Used(sb, fs', b) <==> b < sb.datastart || b in fs'.owner
    {
      IndirectOwned(sb, fs, i);
      RegionsDisjoint'(sb, b);
      FlippedUsed(sb, fs, x, b);
      assert Used(sb, fs', b) == Used(sb, Flipped(sb, fs, x), b);
    }
  }

  lemma LinkedEntriesOwned(sb: Super, fs: Fs, x: nat, i: nat, s: nat)
    requires Owned(sb, fs) && CanLink(sb, fs, x, i, s)
    ensures EntriesOwned(sb, Linked(sb, fs, x, i, s))
  {
    var fs' := Linked(sb, fs, x, i, s);
    forall j, t | At(fs', j, t) && Entry(sb, fs', j, t) != 0
      ensures Entry(sb, fs', j, t) in fs'.owner && fs'.owner[Entry(sb, fs', j, t)] == Place(j, t)
    {
      LinkedEntry(sb, fs, x, i, s, j, t);
    }
  }

  lemma LinkedOwnerReal(sb: Super, fs: Fs, x: nat, i: nat, s: nat, b: nat)
    requires Owned(sb, fs) && CanLink(sb, fs, x, i, s) && b in Linked(sb, fs, x, i, s).owner
    ensures var fs' := Linked(sb, fs, x, i, s);
      && sb.datastart <= b < sb.size && At(fs', fs'.owner[b].i, fs'.owner[b].s)
      && Entry(sb, fs', fs'.owner[b].i, fs'.owner[b].s) == b
  {
    var p := Linked(sb, fs, x, i, s).owner[b];
    LinkedEntry(sb, fs, x, i, s, p.i, p.s);
  }

  lemma LinkedOwnersReal(sb: Super, fs: Fs, x: nat, i: nat, s: nat)
    requires Owned(sb, fs) && CanLink(sb, fs, x, i, s)
    ensures OwnersReal(sb, Linked(sb, fs, x, i, s))
  {
    forall b | b in Linked(sb, fs, x, i, s).owner {
      LinkedOwnerReal(sb, fs, x, i, s, b);
    }
  }

  lemma LinkedOwned(sb: Super, fs: Fs, x: nat, i: nat, s: nat)
    requires Owned(sb, fs) && CanLink(sb, fs, x, i, s)
    ensures Owned(sb, Linked(sb, fs, x, i, s))
  {
    LinkedEntriesOwned(sb, fs, x, i, s);
    LinkedOwnersReal(sb, fs, x, i, s);
  }

  /** A new block holds zeros, which is what its hole read as: no file changes. */
  lemma LinkedFiles(sb: Super, fs: Fs, x: nat, i: nat, s: nat)
    requires Owned(sb, fs) && CanLink(sb, fs, x, i, s)
    ensures SameFiles(sb, fs, Linked(sb, fs, x, i, s))
  {
    var fs' := Linked(sb, fs, x, i, s);
    forall j, bn | 0 <= j < sb.ninodes && 0 <= bn < MAXFILE
      ensures FileBlock(sb, fs', j, bn) == FileBlock(sb, fs, j, bn)
    {
      LinkedEntry(sb, fs, x, i, s, j, SlotOf(bn));
      RegionsDisjoint'(sb, x);
      IndirectOwned(sb, fs, i);
    }
  }

  // ---- writing a data block ----

  ghost function Written(sb: Super, fs: Fs, i: nat, bn: nat, v: Block): (fs': Fs)
    requires Owned(sb, fs) && i < sb.ninodes && bn < MAXFILE && |v| == BSIZE
    requires Entry(sb, fs, i, SlotOf(bn)) != 0
    ensures Shape(sb, fs') && fs'.inodes == fs.inodes && fs'.owner == fs.owner
  {
    fs.(disk := fs.disk[Entry(sb, fs, i, SlotOf(bn)) := v])
  }

  lemma WrittenEntries(sb: Super, fs: Fs, i: nat, bn: nat, v: Block)
    requires Owned(sb, fs) && i < sb.ninodes && bn < MAXFILE && |v| == BSIZE
    requires Entry(sb, fs, i, SlotOf(bn)) != 0
    ensures var fs' := Written(sb, fs, i, bn, v);
      forall j, t {:trigger Entry(sb, fs', j, t)} :: At(fs, j, t) ==> Entry(sb, fs', j, t) == Entry(sb, fs, j, t)
  {
    var fs' := Written(sb, fs, i, bn, v);
    forall j | 0 <= j < |fs.inodes| && 0 < fs.inodes[j].addrs[NDIRECT] < sb.size
      ensures fs'.disk[fs.inodes[j].addrs[NDIRECT]] == fs.disk[fs.inodes[j].addrs[NDIRECT]]
    {
      IndirectOwned(sb, fs, j);
    }
    EntriesUnchanged(sb, fs, fs');
  }

  /** Writing block bn of file i changes that block of that file, and no other block of any file. */
  lemma WrittenFiles(sb: Super, fs: Fs, i: nat, bn: nat, v: Block)
    requires Owned(sb, fs) && i < sb.ninodes && bn < MAXFILE && |v| == BSIZE
    requires Entry(sb, fs, i, SlotOf(bn)) != 0
    ensures var fs' := Written(sb, fs, i, bn, v);
      && Owned(sb, fs')
      && forall j, m :: 0 <= j < sb.ninodes && 0 <= m < MAXFILE ==>
           FileBlock(sb, fs', j, m) == if j == i && m == bn then v else FileBlock(sb, fs, j, m)
  {
    WrittenEntries(sb, fs, i, bn, v);
    var fs' := Written(sb, fs, i, bn, v);
    forall j, m | 0 <= j < sb.ninodes && 0 <= m < MAXFILE
      ensures FileBlock(sb, fs', j, m) == if j == i && m == bn then v else FileBlock(sb, fs, j, m)
    {
      assert Entry(sb, fs', j, SlotOf(m)) == Entry(sb, fs, j, SlotOf(m));
    }
  }

  /** Outside the bitmap blocks a write leaves the bitmap exact. */
  lemma BitmapUntouched(sb: Super, fs: Fs, fs': Fs)
    requires Shape(sb, fs) && Shape(sb, fs') && BitmapExact(sb, fs) && fs'.owner == fs.owner
    requires forall b :: sb.bmapstart <= b < sb.datastart ==> fs'.disk[b] == fs.disk[b]
    ensures BitmapExact(sb, fs')
  {
    forall b | 0 <= b < sb.size
      ensures Used(sb, fs', b) == Used(sb, fs, b)
    {
      RegionsDisjoint'(sb, b);
    }
  }

  // ---- writing metadata (the inode region) ----

  ghost function MetaWritten(sb: Super, fs: Fs, b: nat, v: Block): (fs': Fs)
    requires Shape(sb, fs) && b < sb.bmapstart && |v| == BSIZE
    ensures Shape(sb, fs') && fs'.inodes == fs.inodes && fs'.owner == fs.owner
  {
    fs.(disk := fs.disk[b := v])
  }

  lemma MetaWrittenEntries(sb: Super, fs: Fs, b: nat, v: Block)
    requires Owned(sb, fs) && b < sb.bmapstart && |v| == BSIZE
    ensures forall j, t {:trigger Entry(sb, MetaWritten(sb, fs, b, v), j, t)} :: At(fs, j, t) ==>
      Entry(sb, MetaWritten(sb, fs, b, v), j, t) == Entry(sb, fs, j, t)
  {
    var fs' := MetaWritten(sb, fs, b, v);
    forall j | 0 <= j < |fs.inodes| && 0 < fs.inodes[j].addrs[NDIRECT] < sb.size
      ensures fs'.disk[fs.inodes[j].addrs[NDIRECT]] == fs.disk[fs.inodes[j].addrs[NDIRECT]]
    {
      IndirectOwned(sb, fs, j);
    }
    EntriesUnchanged(sb, fs, fs');
  }

  lemma MetaWrittenOwned(sb: Super, fs: Fs, b: nat, v: Block)
    requires Owned(sb, fs) && b < sb.bmapstart && |v| == BSIZE
    ensures Owned(sb, MetaWritten(sb, fs, b, v))
  {
    MetaWrittenEntries(sb, fs, b, v);
  }

  lemma MetaWrittenFiles(sb: Super, fs: Fs, b: nat, v: Block)
    requires Owned(sb, fs) && b < sb.bmapstart && |v| == BSIZE
    ensures SameFiles(sb, fs, MetaWritten(sb, fs, b, v))
  {
    MetaWrittenEntries(sb, fs, b, v);
    var fs' := MetaWritten(sb, fs, b, v);
    forall j, bn | 0 <= j < sb.ninodes && 0 <= bn < MAXFILE
      ensures FileBlock(sb, fs', j, bn) == FileBlock(sb, fs, j, bn)
    {
      assert At(fs, j, SlotOf(bn));
    }
  }

  /** Every block is referred to from at most one place, and only allocated data blocks are. */
  lemma ReferencedOnce(sb: Super, fs: Fs, i: nat, s: nat, j: nat, t: nat)
    requires Inv(sb, fs) && At(fs, i, s) && At(fs, j, t)
    requires Entry(sb, fs, i, s) == Entry(sb, fs, j, t) != 0
    ensures i == j && s == t
    ensures sb.datastart <= Entry(sb, fs, i, s) < sb.size && Used(sb, fs, Entry(sb, fs, i, s))
  {
  }

  // ---- what bmap may do ----

  /** Nothing but the map of inode i has changed, and that only where it had no block: at block bn
      of the file and at its indirect block.  No file reads differently. */
  ghost predicate OnlyMapped(sb: Super, fs: Fs, fs': Fs, i: nat, bn: nat)
    requires Shape(sb, fs) && Shape(sb, fs') && i < sb.ninodes && bn < MAXFILE
  {
    && SameFiles(sb, fs, fs')
    && (forall b :: 0 <= b < sb.bmapstart ==> fs'.disk[b] == fs.disk[b])
    && (forall j :: 0 <= j < sb.ninodes && j != i ==> fs'.inodes[j] == fs.inodes[j])
    && fs'.inodes[i] == fs.inodes[i].(addrs := fs'.inodes[i].addrs)
    && (forall j, t {:trigger Entry(sb, fs', j, t)} :: At(fs, j, t) && Entry(sb, fs', j, t) != Entry(sb, fs, j, t) ==>
          j == i && (t == SlotOf(bn) || t == NDIRECT) && Entry(sb, fs, j, t) == 0)
  }

  lemma LinkedOnlyMapped(sb: Super, fs: Fs, x: nat, i: nat, s: nat, bn: nat)
    requires Owned(sb, fs) && CanLink(sb, fs, x, i, s) && bn < MAXFILE && (s == SlotOf(bn) || s == NDIRECT)
    ensures OnlyMapped(sb, fs, Linked(sb, fs, x, i, s), i, bn)
    ensures Entry(sb, Linked(sb, fs, x, i, s), i, s) == x
  {
    IndirectOwned(sb, fs, i);
    RegionsDisjoint'(sb, x);
    LinkedFiles(sb, fs, x, i, s);
    LinkedEntry(sb, fs, x, i, s, i, s);
    forall j, t | At(fs, j, t) {
      LinkedEntry(sb, fs, x, i, s, j, t);
    }
  }

  lemma OnlyMappedTrans(sb: Super, fs: Fs, fs1: Fs, fs2: Fs, i: nat, bn: nat)
    requires Shape(sb, fs) && Shape(sb, fs1) && Shape(sb, fs2) && i < sb.ninodes && bn < MAXFILE
    requires OnlyMapped(sb, fs, fs1, i, bn) && OnlyMapped(sb, fs1, fs2, i, bn)
    ensures OnlyMapped(sb, fs, fs2, i, bn)
  {
    forall j, m | 0 <= j < sb.ninodes && 0 <= m < MAXFILE
      ensures FileBlock(sb, fs2, j, m) == FileBlock(sb, fs, j, m)
    {
      assert FileBlock(sb, fs1, j, m) == FileBlock(sb, fs, j, m);
    }
    forall j, t | At(fs, j, t) && Entry(sb, fs2, j, t) != Entry(sb, fs, j, t)
      ensures j == i && (t == SlotOf(bn) || t == NDIRECT) && Entry(sb, fs, j, t) == 0
    {
      assert Entry(sb, fs1, j, t) == Entry(sb, fs1, j, t);
    }
  }
}
