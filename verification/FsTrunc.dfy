/** itrunc: the state while a file's blocks are being freed, measured against the state fs0 in which
    it started. */
module FsTrunc {
  import opened FsLayout
  import opened FsState
  import opened FsBytes

  /** The order in which itrunc frees: direct blocks, words of the indirect block, that block. */
  function Rank(s: nat): nat
    requires s < NSLOTS
  {
    if s < NDIRECT then s else if s == NDIRECT then NSLOTS - 1 else s - 1
  }

  /** Block b belonged to file i and its turn has come. */
  predicate Gone(fs0: Fs, i: nat, p: nat, b: nat) {
    b in fs0.owner && fs0.owner[b].i == i && fs0.owner[b].s < NSLOTS && Rank(fs0.owner[b].s) < p
  }

  /** fs0 with another disk: itrunc's inode updates do not show here. */
  function WithDisk(fs0: Fs, disk: seq<Block>): Fs {
    fs0.(disk := disk)
  }

  ghost predicate Truncating(sb: Super, fs0: Fs, fs: Fs, i: nat, p: nat)
    requires Shape(sb, fs0) && Shape(sb, fs)
  {
    && (forall b :: 0 <= b < sb.size && !(sb.bmapstart <= b < sb.datastart) ==> fs.disk[b] == fs0.disk[b])
    && (forall b {:trigger Used(sb, fs, b)} :: 0 <= b < sb.size ==>
          (Used(sb, fs, b) <==> Used(sb, fs0, b) && !Gone(fs0, i, p, b)))
  }

  lemma TruncNone(sb: Super, fs0: Fs, i: nat)
    requires Shape(sb, fs0)
    ensures Truncating(sb, fs0, WithDisk(fs0, fs0.disk), i, 0)
  {
  }

  /** The next slot holds no block: its turn passes. */
  lemma TruncSkip(sb: Super, fs0: Fs, fs: Fs, i: nat, s: nat, p: nat, p': nat)
    requires Inv(sb, fs0) && Shape(sb, fs) && i < sb.ninodes && s < NSLOTS && p == Rank(s) && p' == p + 1
    requires Truncating(sb, fs0, fs, i, p) && Entry(sb, fs0, i, s) == 0
    ensures Truncating(sb, fs0, fs, i, p')
  {
    forall b | 0 <= b < sb.size
      ensures Gone(fs0, i, p, b) == Gone(fs0, i, p', b)
    {
      if Gone(fs0, i, p', b) {
        assert Entry(sb, fs0, fs0.owner[b].i, fs0.owner[b].s) == b;
      }
    }
  }

  /** The next slot holds a block: it is still marked used, and clearing its bit is the next state. */
  lemma TruncFree(sb: Super, fs0: Fs, fs: Fs, i: nat, s: nat, p: nat, p': nat)
    requires Inv(sb, fs0) && Shape(sb, fs) && i < sb.ninodes && s < NSLOTS && p == Rank(s) && p' == p + 1
    requires Truncating(sb, fs0, fs, i, p) && Entry(sb, fs0, i, s) != 0
    ensures var e := Entry(sb, fs0, i, s);
      && sb.datastart <= e < sb.size && Used(sb, fs, e)
      && Truncating(sb, fs0, Flipped(sb, fs, e), i, p')
  {
    var e := Entry(sb, fs0, i, s);
    var fs' := Flipped(sb, fs, e);
    RegionsDisjoint'(sb, e);
    forall b | 0 <= b < sb.size
      ensures Used(sb, fs', b) <==> Used(sb, fs0, b) && !Gone(fs0, i, p', b)
    {
      FlippedUsed(sb, fs, e, b);
      if b != e && Gone(fs0, i, p', b) {
        assert Entry(sb, fs0, fs0.owner[b].i, fs0.owner[b].s) == b;
      }
    }
  }

  function Emptied(n: Inode): Inode {
    n.(size := 0, addrs := seq(NDIRECT + 1, _ => 0))
  }

  /** The file has neither blocks nor size; its blocks are nobody's. */
  ghost function Truncated(fs0: Fs, disk: seq<Block>, i: nat): Fs
    requires i < |fs0.inodes|
  {
    Fs(disk, fs0.inodes[i := Emptied(fs0.inodes[i])], map b | b in fs0.owner && fs0.owner[b].i != i :: fs0.owner[b])
  }

  lemma TruncatedEntry(sb: Super, fs0: Fs, fs: Fs, i: nat, j: nat, t: nat)
    requires Inv(sb, fs0) && Shape(sb, fs) && i < sb.ninodes && At(fs0, j, t)
    requires Truncating(sb, fs0, fs, i, NSLOTS)
    ensures Shape(sb, Truncated(fs0, fs.disk, i))
    ensures Entry(sb, Truncated(fs0, fs.disk, i), j, t) == if j == i then 0 else Entry(sb, fs0, j, t)
  {
    IndirectOwned(sb, fs0, j);
  }

  lemma TruncatedOwned(sb: Super, fs0: Fs, fs: Fs, i: nat)
    requires Inv(sb, fs0) && Shape(sb, fs) && i < sb.ninodes && Truncating(sb, fs0, fs, i, NSLOTS)
    ensures Owned(sb, Truncated(fs0, fs.disk, i))
  {
    hide Entry;
    hide BitmapExact;
    hide Truncating;
    var fs' := Truncated(fs0, fs.disk, i);
    TruncatedEntry(sb, fs0, fs, i, i, 0);
    forall j, t | At(fs0, j, t)
      ensures Entry(sb, fs', j, t) == if j == i then 0 else Entry(sb, fs0, j, t)
    {
      TruncatedEntry(sb, fs0, fs, i, j, t);
    }
  }

  lemma TruncatedInv(sb: Super, fs0: Fs, fs: Fs, i: nat)
    requires Inv(sb, fs0) && Shape(sb, fs) && i < sb.ninodes && Truncating(sb, fs0, fs, i, NSLOTS)
    ensures Inv(sb, Truncated(fs0, fs.disk, i))
  {
    hide EntriesOwned;
    hide Entry;
    var fs' := Truncated(fs0, fs.disk, i);
    TruncatedOwned(sb, fs0, fs, i);
    forall b | 0 <= b < sb.size
      ensures Used(sb, fs', b) == Used(sb, fs, b)
    {
    }
  }

  /** The other files keep their bytes and their maps. */
  lemma TruncatedOthers(sb: Super, fs0: Fs, fs: Fs, i: nat, j: nat)
    requires Inv(sb, fs0) && Shape(sb, fs) && i < sb.ninodes && j < sb.ninodes && j != i
    requires Truncating(sb, fs0, fs, i, NSLOTS)
    ensures var fs' := Truncated(fs0, fs.disk, i);
      && Shape(sb, fs') && Content(sb, fs', j) == Content(sb, fs0, j)
      && (NoHoles(sb, fs0, j) ==> NoHoles(sb, fs', j))
  {
    var fs' := Truncated(fs0, fs.disk, i);
    TruncatedEntry(sb, fs0, fs, i, j, 0);
    forall t | 0 <= t < NSLOTS
      ensures Entry(sb, fs', j, t) == Entry(sb, fs0, j, t)
    {
      TruncatedEntry(sb, fs0, fs, i, j, t);
    }
    forall bn | 0 <= bn < MAXFILE
      ensures FileBlock(sb, fs', j, bn) == FileBlock(sb, fs0, j, bn)
    {
      assert Entry(sb, fs', j, SlotOf(bn)) == Entry(sb, fs0, j, SlotOf(bn));
    }
    assert forall o :: 0 <= o < fs0.inodes[j].size ==> ByteAt(sb, fs', j, o) == ByteAt(sb, fs0, j, o);
  }

  /** A file without an indirect block has nothing more to free. */
  lemma TruncNoIndirect(sb: Super, fs0: Fs, fs: Fs, i: nat)
    requires Inv(sb, fs0) && Shape(sb, fs) && i < sb.ninodes
    requires Truncating(sb, fs0, fs, i, NDIRECT) && fs0.inodes[i].addrs[NDIRECT] == 0
    ensures Truncating(sb, fs0, fs, i, NSLOTS)
  {
    forall b | 0 <= b < sb.size
      ensures Gone(fs0, i, NDIRECT, b) == Gone(fs0, i, NSLOTS, b)
    {
      if Gone(fs0, i, NSLOTS, b) {
        assert Entry(sb, fs0, i, fs0.owner[b].s) == b;
      }
    }
  }

  /** Writing the emptied inode back changes none of this. */
  lemma TruncDone(sb: Super, fs0: Fs, fs: Fs, fs1: Fs, fs2: Fs, i: nat, j: nat)
    requires Inv(sb, fs0) && Shape(sb, fs) && i < sb.ninodes && j < sb.ninodes
    requires Truncating(sb, fs0, fs, i, NSLOTS) && fs1 == Truncated(fs0, fs.disk, i)
    requires Inv(sb, fs1) && fs2 == Updated(sb, fs1, i)
    ensures j != i ==> Content(sb, fs2, j) == Content(sb, fs0, j)
    ensures NoHoles(sb, fs0, j) ==> NoHoles(sb, fs2, j)
  {
    UpdatedFacts(sb, fs1, i);
    assert j != i ==> fs2.inodes[j] == fs0.inodes[j];
    if j != i {
      TruncatedOthers(sb, fs0, fs, i, j);
      SplicedNothing(sb, fs1, fs2, i, 0);
      OtherContent(sb, fs1, fs2, i, 0, [], j);
      if NoHoles(sb, fs0, j) {
        forall bn | 0 <= bn < MAXFILE && bn * BSIZE < fs2.inodes[j].size
          ensures Entry(sb, fs2, j, SlotOf(bn)) != 0
        {
          assert Entry(sb, fs1, j, SlotOf(bn)) != 0;
        }
      }
    }
  }

  lemma TruncBits(sb: Super, fs0: Fs, fs2: Fs, i: nat)
    requires Inv(sb, fs0) && Inv(sb, fs2) && i < sb.ninodes
    requires fs2.owner == map b | b in fs0.owner && fs0.owner[b].i != i :: fs0.owner[b]
    ensures forall b :: 0 <= b < sb.size ==>
      (Used(sb, fs2, b) <==> Used(sb, fs0, b) && !(b in fs0.owner && fs0.owner[b].i == i))
  {
    forall b | 0 <= b < sb.size
      ensures Used(sb, fs2, b) <==> Used(sb, fs0, b) && !(b in fs0.owner && fs0.owner[b].i == i)
    {
      assert b in fs0.owner ==> sb.datastart <= b;
    }
  }

  /** What itrunc promises: file i is empty and owns nothing, the bits of exactly its blocks are
      clear, and every other file reads as before. */
  ghost predicate FileEmptied(sb: Super, fs0: Fs, fs: Fs, i: nat)
    requires Inv(sb, fs0) && Inv(sb, fs) && i < sb.ninodes
  {
    && fs.inodes == fs0.inodes[i := Emptied(fs0.inodes[i])] && Synced(sb, fs, i)
    && fs.owner == (map b | b in fs0.owner && fs0.owner[b].i != i :: fs0.owner[b])
    && (forall b :: 0 <= b < sb.size ==>
          (Used(sb, fs, b) <==> Used(sb, fs0, b) && !(b in fs0.owner && fs0.owner[b].i == i)))
    && (forall j :: 0 <= j < sb.ninodes && j != i ==>
          Content(sb, fs, j) == Content(sb, fs0, j) && DiskInode(sb, fs, j) == DiskInode(sb, fs0, j))
    && (forall j :: 0 <= j < sb.ninodes && NoHoles(sb, fs0, j) ==> NoHoles(sb, fs, j))
  }

  lemma TruncDiskInode(sb: Super, fs0: Fs, fs: Fs, fs1: Fs, fs2: Fs, i: nat, j: nat)
    requires Shape(sb, fs0) && Shape(sb, fs) && i < sb.ninodes && j < sb.ninodes && Truncating(sb, fs0, fs, i, NSLOTS)
    requires fs1 == Truncated(fs0, fs.disk, i) && Shape(sb, fs1) && fs2 == Updated(sb, fs1, i)
    ensures j != i ==> DiskInode(sb, fs2, j) == DiskInode(sb, fs0, j)
  {
    RegionsDisjoint(sb, j, 0);
    UpdatedSyncs(sb, fs1, i, j);
  }

  lemma EmptiedSynced(sb: Super, fs0: Fs, fs: Fs, i: nat)
    requires Inv(sb, fs0) && Inv(sb, fs) && i < sb.ninodes && FileEmptied(sb, fs0, fs, i)
    ensures AllSynced(sb, fs0) ==> AllSynced(sb, fs)
  {
    hide EntriesOwned;
    hide OwnersReal;
    hide BitmapExact;
    hide DiskInode;
    hide Content;
    hide NoHoles;
    if AllSynced(sb, fs0) {
      forall j | 0 <= j < sb.ninodes
        ensures Synced(sb, fs, j)
      {
        assert Synced(sb, fs0, j);
      }
    }
  }

  lemma ItruncFacts(sb: Super, fs0: Fs, fs: Fs, fs1: Fs, fs2: Fs, i: nat)
    requires Inv(sb, fs0) && Shape(sb, fs) && i < sb.ninodes && Truncating(sb, fs0, fs, i, NSLOTS)
    requires fs1 == Truncated(fs0, fs.disk, i) && Inv(sb, fs1) && fs2 == Updated(sb, fs1, i)
    ensures Inv(sb, fs2) && FileEmptied(sb, fs0, fs2, i)
  {
    hide EntriesOwned;
    hide OwnersReal;
    hide BitmapExact;
    hide Content;
    hide NoHoles;
    hide Updated;
    hide Used;
    hide DiskInode;
    hide Truncating;
    UpdatedFacts(sb, fs1, i);
    UpdatedSyncs(sb, fs1, i, i);
    TruncBits(sb, fs0, fs2, i);
    forall j | 0 <= j < sb.ninodes
      ensures j != i ==> Content(sb, fs2, j) == Content(sb, fs0, j) && DiskInode(sb, fs2, j) == DiskInode(sb, fs0, j)
      ensures NoHoles(sb, fs0, j) ==> NoHoles(sb, fs2, j)
    {
      TruncDone(sb, fs0, fs, fs1, fs2, i, j);
      TruncDiskInode(sb, fs0, fs, fs1, fs2, i, j);
    }
  }
}
