/** kernel/fs.c: block allocation, the block map, truncate, and byte-level read and write.
    `disk` is what the buffer cache shows, `order` the blocks given to log_write so far, in that order. */
module FsOps {
  import opened Collections
  import opened FsLayout
  import opened FsState
  import opened FsBytes
  import opened FsTrunc
  import LogDisk
  import R = LogRuns

  ghost function NonZero(a: set<nat>): set<nat> {
    a - {0}
  }

  ghost function Elems(s: seq<nat>): set<nat> {
    set x | x in s
  }

  lemma ElemsOfConcat(a: seq<nat>, b: seq<nat>)
    ensures Elems(a + b) == Elems(a) + Elems(b)
  {
  }

  lemma LoggedOne(order: seq<nat>, b: nat)
    ensures Elems(order + [b]) == Elems(order) + {b}
  {
  }

  /** Since `start` at most MAXOPBLOCKS other blocks were logged, and fewer before the last log_write. */
  ghost predicate InBudget(start: seq<nat>, order: seq<nat>) {
    && order != [] && |Elems(order) - Elems(start)| <= LogDisk.MAXOPBLOCKS
    && |Elems(order[..|order| - 1]) - Elems(start)| < LogDisk.MAXOPBLOCKS
  }

  /** Set bookkeeping for one turn: the indirect block, once there, is the same from then on. */
  lemma LoggedMore(start: set<nat>, before: set<nat>, after: set<nat>, data: seq<nat>, bits: seq<nat>,
                   addr: nat, more: seq<nat>, ind: nat, touched: nat, ind': nat)
    requires before <= start + Elems(data) + Elems(bits) + NonZero({ind})
    requires after <= before + Elems(more) + NonZero({addr, touched})
    requires (touched == 0 || touched == ind') && (ind' == ind || ind == 0)
    ensures after <= start + Elems(data + [addr]) + Elems(bits + more) + NonZero({ind'})
  {
    ElemsOfConcat(data, [addr]);
    ElemsOfConcat(bits, more);
    assert addr in [addr];
  }

  /** One turn of writei's loop, in terms of what WriteBlock promises. */
  lemma TurnDone(sb: Super, fs0: Fs, fs: Fs, fs': Fs, start: set<nat>, before: set<nat>, after: set<nat>,
                 i: nat, src: seq<Byte>, off: nat, tot: nat, tot': nat, at: nat, bn: nat, wrote: seq<Byte>,
                 k: nat, k': nat, data: seq<nat>, data': seq<nat>, bits: seq<nat>, bits': seq<nat>,
                 addr: nat, more: seq<nat>)
    requires Shape(sb, fs0) && Shape(sb, fs) && Shape(sb, fs') && i < sb.ninodes && off <= fs0.inodes[i].size
    requires at == off + tot && bn == at / 1024 == off / 1024 + k < MAXFILE
    requires tot <= tot' <= |src| && wrote == src[tot..tot'] && at % 1024 + |wrote| <= 1024
    requires k' == k + 1 && data' == data + [addr] && bits' == bits + more
    requires WroteSoFar(sb, fs0, fs, i, off, src, tot) && Spent(sb, fs0, fs, i, off, k, data, bits)
    requires before <= start + Elems(data) + Elems(bits) + NonZero({fs.inodes[i].addrs[NDIRECT]})
    requires Grown(sb, fs, fs', i) && Spliced(sb, fs, fs', i, at, wrote) && addr == Entry(sb, fs', i, SlotOf(bn))
    requires wrote != [] ==> addr != 0
    requires Entry(sb, fs, i, SlotOf(bn)) != 0 ==>
               more == [] && fs'.inodes[i].addrs[NDIRECT] == fs.inodes[i].addrs[NDIRECT]
    requires after <= before + Elems(more) + NonZero({addr, if bn < NDIRECT then 0 else fs'.inodes[i].addrs[NDIRECT]})
    requires |more| <= 1 + (if fs.inodes[i].addrs[NDIRECT] != fs'.inodes[i].addrs[NDIRECT] then 1 else 0)
    ensures WroteSoFar(sb, fs0, fs', i, off, src, tot') && Spent(sb, fs0, fs', i, off, k', data', bits')
    ensures after <= start + Elems(data') + Elems(bits') + NonZero({fs'.inodes[i].addrs[NDIRECT]})
  {
    SpentMore(sb, fs0, fs, fs', i, off, k, bn, data, bits, addr, more, k', data', bits');
    var ind, ind' := fs.inodes[i].addrs[NDIRECT], fs'.inodes[i].addrs[NDIRECT];
    assert ind' == ind || ind == 0 by {
      assert Entry(sb, fs, i, NDIRECT) == ind && Entry(sb, fs', i, NDIRECT) == ind';
    }
    LoggedMore(start, before, after, data, bits, addr, more, ind, if bn < NDIRECT then 0 else ind', ind');
    WroteMore(sb, fs0, fs, fs', i, off, src, tot, tot', at, bn, wrote);
  }

  /** Between (d0, l0) and (d, l) every block that was changed was given to log_write, and no block in
      front of the inodes was. */
  ghost predicate Recorded(sb: Super, d0: seq<Block>, l0: set<nat>, d: seq<Block>, l: set<nat>) {
    && |d| == |d0| && l0 <= l
    && (forall b {:trigger b in l} :: b in l && b !in l0 ==> sb.inodestart <= b < sb.size)
    && (forall b {:trigger d[b]} :: 0 <= b < |d| && b !in l ==> d[b] == d0[b])
  }

  lemma RecordedNothing(sb: Super, d: seq<Block>, l: set<nat>)
    ensures Recorded(sb, d, l, d, l)
  {
  }

  /** A block written and given to log_write. */
  lemma RecordedWrite(sb: Super, d: seq<Block>, l: set<nat>, b: nat, v: Block)
    requires sb.inodestart <= b < sb.size == |d|
    ensures Recorded(sb, d, l, d[b := v], l + {b})
  {
  }

  lemma RecordedTrans(sb: Super, d0: seq<Block>, l0: set<nat>, d1: seq<Block>, l1: set<nat>, d2: seq<Block>,
                      l2: set<nat>)
    requires Recorded(sb, d0, l0, d1, l1) && Recorded(sb, d1, l1, d2, l2)
    ensures Recorded(sb, d0, l0, d2, l2)
  {
    forall b | 0 <= b < |d2| && b !in l2
      ensures d2[b] == d0[b]
    {
      assert d1[b] == d0[b];
    }
  }

  lemma CopiedIs(sb: Super, fs: Fs, i: nat, off: nat, chunk: seq<Byte>, a: nat)
    requires Inv(sb, fs) && i < sb.ninodes && off < MAXBYTES && off % 1024 + |chunk| <= 1024
    requires a == Entry(sb, fs, i, SlotOf(off / 1024)) != 0
    ensures sb.datastart <= a < sb.size
    ensures Copied(sb, fs, i, off, chunk) == fs.(disk := fs.disk[a := Patch(fs.disk[a], off % 1024, chunk)])
  {
    hide Entry;
    hide Patch;
    hide BitmapExact;
  }

  class FileSystem {
    const sb: Super
    var disk: seq<Block>
    var inodes: seq<Inode>
    ghost var order: seq<nat>
    ghost var owner: map<nat, Place>

    /** A mounted file system: any image that satisfies the invariant, with its inodes. */
    constructor (sb: Super, fs: Fs)
      requires Inv(sb, fs)
      ensures this.sb == sb && Snap() == fs && order == []
    {
      this.sb := sb;
      disk, inodes, owner, order := fs.disk, fs.inodes, fs.owner, [];
    }

    ghost function Snap(): Fs
      reads this
    {
      Fs(disk, inodes, owner)
    }

    ghost function Logged(): set<nat>
      reads this
    {
      Elems(order)
    }

    ghost predicate Valid()
      reads this
    {
      Inv(sb, Snap())
    }

    /** Every data block is allocated. */
    ghost predicate Full()
      reads this
    {
      forall b :: sb.datastart <= b < sb.size ==> b in owner
    }

    /** balloc: the first free block, marked used and zeroed; 0 if there is none. */
    method Balloc() returns (x: nat)
      requires Valid()
      modifies this`disk, this`order
      ensures x == 0 ==> disk == old(disk) && Logged() == old(Logged()) && Full()
      ensures x != 0 ==> sb.datastart <= x < sb.size && x !in owner
      ensures forall b :: sb.datastart <= b < x ==> b in owner
      ensures x != 0 ==> disk == Flipped(sb, old(Snap()), x).disk[x := ZeroBlock()]
      ensures x != 0 ==> Logged() == old(Logged()) + {BBlock(sb, x), x}
      ensures Recorded(sb, old(disk), old(Logged()), disk, Logged())
    {
      hide EntriesOwned;
      hide OwnersReal;
      hide Elems;
      hide Flip;
      hide Recorded;
      RecordedNothing(sb, disk, Logged());
      var b := 0;
      while b < sb.size
        invariant 0 <= b && b % 8192 == 0 && disk == old(disk) && Logged() == old(Logged())
        invariant forall c :: sb.datastart <= c < b && c < sb.size ==> c in owner
      {
        RegionsDisjoint'(sb, b);
        var bb := BBlock(sb, b);
        var bi := 0;
        while bi < BPB && b + bi < sb.size
          invariant 0 <= bi <= BPB && disk == old(disk) && Logged() == old(Logged())
          invariant forall c :: sb.datastart <= c < b + bi && c < sb.size ==> c in owner
        {
          assert (b + bi) / 8192 == b / 8192 && (b + bi) % 8192 == bi;
          assert Used(sb, Snap(), b + bi) <==> ByteBit(disk[bb][bi / 8], bi % 8);
          if !ByteBit(disk[bb][bi / 8], bi % 8) {
            x := b + bi;
            RecordedWrite(sb, disk, Logged(), bb, Flip(disk[bb], bi));
            disk := disk[bb := Flip(disk[bb], bi)];
            LoggedOne(order, bb);
            order := order + [bb];
            ghost var d1, l1 := disk, Logged();
            RecordedWrite(sb, d1, l1, x, ZeroBlock());
            disk := disk[x := ZeroBlock()];
            LoggedOne(order, x);
            order := order + [x];
            RecordedTrans(sb, old(disk), old(Logged()), d1, l1, disk, Logged());
            return;
          }
          bi := bi + 1;
        }
        b := b + BPB;
      }
      x := 0;
    }

    /** `addr = balloc(); if (addr) store it` at a place of inode i: an address of the inode, or a
        word of its indirect block, which is then logged. */
    method AllocAt(i: nat, s: nat) returns (x: nat)
      requires Valid() && At(Snap(), i, s) && Entry(sb, Snap(), i, s) == 0
      requires s > NDIRECT ==> inodes[i].addrs[NDIRECT] != 0
      modifies this
      ensures Valid()
      ensures x == 0 ==> Snap() == old(Snap()) && Logged() == old(Logged()) && Full()
      ensures x != 0 ==> CanLink(sb, old(Snap()), x, i, s) && Snap() == Linked(sb, old(Snap()), x, i, s)
      ensures x != 0 ==> Logged() == old(Logged()) + {BBlock(sb, x), x} +
                                   (if s > NDIRECT then {inodes[i].addrs[NDIRECT]} else {})
      ensures Recorded(sb, old(disk), old(Logged()), disk, Logged())
    {
      hide EntriesOwned;
      hide OwnersReal;
      hide BitmapExact;
      hide Recorded;
      x := Balloc();
      ghost var d1, l1 := disk, Logged();
      if x != 0 {
        IndirectOwned(sb, old(Snap()), i);
        if s <= NDIRECT {
          inodes := inodes[i := inodes[i].(addrs := inodes[i].addrs[s := x])];
        } else {
          var a := inodes[i].addrs[NDIRECT];
          disk := disk[a := PutWord(disk[a], s - NDIRECT - 1, x)];
          LoggedOne(order, a);
          order := order + [a];
          RecordedWrite(sb, d1, l1, a, disk[a]);
          RecordedTrans(sb, old(disk), old(Logged()), d1, l1, disk, Logged());
        }
        owner := owner[x := Place(i, s)];
        LinkedOwned(sb, old(Snap()), x, i, s);
        LinkedBitmap(sb, old(Snap()), x, i, s);
      }
    }

    /** bmap: the address of block bn, allocated if necessary; 0 only when the disk is full.
        `bits` are the bitmap blocks logged, one for each block allocated. */
    method Bmap(i: nat, bn: nat) returns (addr: nat, ghost bits: seq<nat>)
      requires Valid() && i < sb.ninodes && bn < MAXFILE
      modifies this
      ensures Valid() && OnlyMapped(sb, old(Snap()), Snap(), i, bn)
      ensures addr == Entry(sb, Snap(), i, SlotOf(bn))
      ensures addr == 0 ==> Full()
      ensures Entry(sb, old(Snap()), i, SlotOf(bn)) != 0 ==>
        Snap() == old(Snap()) && Logged() == old(Logged()) && bits == []
      ensures Logged() <= old(Logged()) + Elems(bits) +
        NonZero({addr, if bn < NDIRECT then 0 else inodes[i].addrs[NDIRECT]})
      ensures |bits| <= 1 + (if old(inodes[i].addrs[NDIRECT]) != inodes[i].addrs[NDIRECT] then 1 else 0)
      ensures Recorded(sb, old(disk), old(Logged()), disk, Logged())
    {
      if bn < NDIRECT {
        addr := inodes[i].addrs[bn];
        bits := [];
        RecordedNothing(sb, disk, Logged());
        if addr == 0 {
          addr, bits := MapSlot(i, bn, bn);
        }
      } else {
        addr, bits := BmapIndirect(i, bn);
      }
    }

    method BmapIndirect(i: nat, bn: nat) returns (addr: nat, ghost bits: seq<nat>)
      requires Valid() && i < sb.ninodes && NDIRECT <= bn < MAXFILE
      modifies this
      ensures Valid() && OnlyMapped(sb, old(Snap()), Snap(), i, bn)
      ensures addr == Entry(sb, Snap(), i, SlotOf(bn))
      ensures addr == 0 ==> Full()
      ensures Entry(sb, old(Snap()), i, SlotOf(bn)) != 0 ==>
        Snap() == old(Snap()) && Logged() == old(Logged()) && bits == []
      ensures Logged() <= old(Logged()) + Elems(bits) +
        NonZero({addr, if bn < NDIRECT then 0 else inodes[i].addrs[NDIRECT]})
      ensures |bits| <= 1 + (if old(inodes[i].addrs[NDIRECT]) != inodes[i].addrs[NDIRECT] then 1 else 0)
      ensures Recorded(sb, old(disk), old(Logged()), disk, Logged())
    {
      hide EntriesOwned;
      hide OwnersReal;
      hide BitmapExact;
      var ind;
      ind, bits := LoadIndirect(i, bn);
      addr := 0;
      if ind == 0 {
        return;
      }
      ghost var mid, l1 := Snap(), Logged();
      IndirectOwned(sb, mid, i);
      addr := Word(disk[ind], bn - NDIRECT);
      if addr == 0 {
        ghost var more;
        addr, more := MapSlot(i, bn + 1, bn);
        RecordedTrans(sb, old(disk), old(Logged()), mid.disk, l1, disk, Logged());
        bits := bits + more;
        assert Entry(sb, Snap(), i, NDIRECT) == Entry(sb, mid, i, NDIRECT) == ind;
        OnlyMappedTrans(sb, old(Snap()), mid, Snap(), i, bn);
      }
    }

    /** The address of the indirect block, allocated if necessary. */
    method LoadIndirect(i: nat, ghost bn: nat) returns (ind: nat, ghost bits: seq<nat>)
      requires Valid() && i < sb.ninodes && NDIRECT <= bn < MAXFILE
      modifies this
      ensures Valid() && OnlyMapped(sb, old(Snap()), Snap(), i, bn)
      ensures ind == inodes[i].addrs[NDIRECT]
      ensures ind == 0 ==> Full()
      ensures old(inodes[i].addrs[NDIRECT]) != 0 ==> Snap() == old(Snap()) && Logged() == old(Logged())
      ensures old(inodes[i].addrs[NDIRECT]) == 0 ==> Entry(sb, Snap(), i, SlotOf(bn)) == 0
      ensures Logged() <= old(Logged()) + Elems(bits) + NonZero({ind})
      ensures |bits| <= if old(inodes[i].addrs[NDIRECT]) != inodes[i].addrs[NDIRECT] then 1 else 0
      ensures Recorded(sb, old(disk), old(Logged()), disk, Logged())
    {
      RecordedNothing(sb, disk, Logged());
      ind := inodes[i].addrs[NDIRECT];
      bits := [];
      if ind == 0 {
        ind, bits := MapSlot(i, NDIRECT, bn);
        assert Entry(sb, Snap(), i, SlotOf(bn)) == Entry(sb, old(Snap()), i, SlotOf(bn));
        if ind == 0 {
          bits := [];
        }
      }
    }

    method MapSlot(i: nat, s: nat, ghost bn: nat) returns (x: nat, ghost bits: seq<nat>)
      requires Valid() && At(Snap(), i, s) && Entry(sb, Snap(), i, s) == 0
      requires s > NDIRECT ==> inodes[i].addrs[NDIRECT] != 0
      requires bn < MAXFILE && (s == SlotOf(bn) || s == NDIRECT)
      modifies this
      ensures Valid() && OnlyMapped(sb, old(Snap()), Snap(), i, bn)
      ensures x == Entry(sb, Snap(), i, s)
      ensures forall t :: 0 <= t < NSLOTS && t != s ==> Entry(sb, Snap(), i, t) == Entry(sb, old(Snap()), i, t)
      ensures x == 0 ==> Snap() == old(Snap()) && Logged() == old(Logged()) && Full()
      ensures Logged() <= old(Logged()) + Elems(bits) +
        NonZero({x, if bn < NDIRECT then 0 else inodes[i].addrs[NDIRECT]})
      ensures |bits| <= 1
      ensures Recorded(sb, old(disk), old(Logged()), disk, Logged())
    {
      hide EntriesOwned;
      hide OwnersReal;
      hide BitmapExact;
      x := AllocAt(i, s);
      bits := [];
      if x != 0 {
        bits := [BBlock(sb, x)];
        LinkedOnlyMapped(sb, old(Snap()), x, i, s, bn);
        forall t | 0 <= t < NSLOTS && t != s
          ensures Entry(sb, Snap(), i, t) == Entry(sb, old(Snap()), i, t)
        {
          LinkedEntry(sb, old(Snap()), x, i, s, i, t);
        }
      }
    }

    /** iupdate: the in-core inode goes to its 64 bytes of the inode block. */
    method Iupdate(i: nat)
      requires Valid() && i < sb.ninodes
      modifies this`disk, this`order
      ensures Valid() && Snap() == Updated(sb, old(Snap()), i)
      ensures order == old(order) + [IBlock(sb, i)] && Logged() == old(Logged()) + {IBlock(sb, i)}
      ensures Recorded(sb, old(disk), old(Logged()), disk, Logged())
    {
      UpdatedFacts(sb, Snap(), i);
      RegionsDisjoint(sb, i, 0);
      var b := IBlock(sb, i);
      disk := disk[b := PutInode(disk[b], i % 16, inodes[i])];
      LoggedOne(order, b);
      order := order + [b];
      assert Snap() == Updated(sb, old(Snap()), i);
    }

    /** One turn of writei's loop: map the block, copy the chunk into it if the source is readable,
        and log it. */
    method WriteBlock(i: nat, off: nat, bn: nat, chunk: seq<Byte>, readable: bool, ghost fs: Fs)
      returns (ok: bool, ghost addr: nat, ghost bits: seq<nat>, wrote: seq<Byte>, ghost fs': Fs)
      requires fs == Snap() && Inv(sb, fs)
      requires i < sb.ninodes && off < MAXBYTES && off % 1024 + |chunk| <= 1024 && bn == off / 1024
      modifies this
      ensures fs' == Snap() && Inv(sb, fs') && Grown(sb, fs, fs', i)
      ensures Spliced(sb, fs, fs', i, off, wrote) && wrote == if ok then chunk else []
      ensures addr == Entry(sb, fs', i, SlotOf(bn))
      ensures ok <==> readable && addr != 0
      ensures addr == 0 ==> Full()
      ensures Entry(sb, fs, i, SlotOf(bn)) != 0 ==>
                bits == [] && fs'.inodes[i].addrs[NDIRECT] == fs.inodes[i].addrs[NDIRECT]
      ensures Logged() <= old(Logged()) + Elems(bits) +
        NonZero({addr, if bn < NDIRECT then 0 else fs'.inodes[i].addrs[NDIRECT]})
      ensures |bits| <= 1 + (if fs.inodes[i].addrs[NDIRECT] != fs'.inodes[i].addrs[NDIRECT] then 1 else 0)
      ensures Recorded(sb, old(disk), old(Logged()), disk, Logged())
    {
      var a;
      a, bits := Bmap(i, bn);
      addr := a;
      ghost var mid, l1 := Snap(), Logged();
      ok := a != 0 && readable;
      if ok {
        CopyIn(i, off, chunk);
        RecordedTrans(sb, old(disk), old(Logged()), mid.disk, l1, disk, Logged());
        wrote := chunk;
      } else {
        SplicedNothing(sb, mid, mid, i, off);
        wrote := [];
      }
      fs' := Snap();
      MapThenCopy(sb, fs, mid, fs', i, off, wrote);
    }

    /** memmove into the buffer of the block that holds byte `off`, and log_write. */
    method CopyIn(i: nat, off: nat, chunk: seq<Byte>)
      requires Valid() && i < sb.ninodes && off < MAXBYTES && off % 1024 + |chunk| <= 1024
      requires Entry(sb, Snap(), i, SlotOf(off / 1024)) != 0
      modifies this`disk, this`order
      ensures Valid() && Grown(sb, old(Snap()), Snap(), i) && inodes == old(inodes)
      ensures Spliced(sb, old(Snap()), Snap(), i, off, chunk)
      ensures Entry(sb, Snap(), i, SlotOf(off / 1024)) == Entry(sb, old(Snap()), i, SlotOf(off / 1024))
      ensures Logged() == old(Logged()) + {Entry(sb, Snap(), i, SlotOf(off / 1024))}
      ensures Recorded(sb, old(disk), old(Logged()), disk, Logged())
    {
      hide EntriesOwned;
      hide OwnersReal;
      hide BitmapExact;
      hide Recorded;
      hide Spliced;
      hide Grown;
      hide Copied;
      hide Word;
      hide Patch;
      var bn := off / 1024;
      ghost var fs := Snap();
      IndirectOwned(sb, fs, i);
      var a := if bn < NDIRECT then inodes[i].addrs[bn] else Word(disk[inodes[i].addrs[NDIRECT]], bn - NDIRECT);
      assert a == Entry(sb, fs, i, SlotOf(bn));
      hide Entry;
      CopiedFacts(sb, fs, i, off, chunk);
      CopiedIs(sb, fs, i, off, chunk, a);
      disk := disk[a := Patch(disk[a], off % 1024, chunk)];
      LoggedOne(order, a);
      order := order + [a];
      RecordedWrite(sb, fs.disk, old(Logged()), a, disk[a]);
      assert Snap() == Copied(sb, fs, i, off, chunk);
    }

    /** The invariant of writei's loop, fs0 and logged0 being the state at its start. */
    ghost predicate Writing(fs0: Fs, logged0: set<nat>, fs: Fs, i: nat, src: seq<Byte>, off: nat, tot: nat, k: nat,
                            data: seq<nat>, bits: seq<nat>)
      requires Inv(sb, fs0) && i < sb.ninodes
      reads this
    {
      && fs == Snap() && Inv(sb, fs) && off + |src| <= MAXBYTES && WroteSoFar(sb, fs0, fs, i, off, src, tot)
      && Logged() <= logged0 + Elems(data) + Elems(bits) + NonZero({fs.inodes[i].addrs[NDIRECT]})
      && Spent(sb, fs0, fs, i, off, k, data, bits)
      && Recorded(sb, fs0.disk, logged0, fs.disk, Logged())
    }

    method WriteTurn(i: nat, src: seq<Byte>, avail: nat, off: nat, tot: nat, ghost k: nat,
                     ghost data: seq<nat>, ghost bits: seq<nat>, ghost fs0: Fs, ghost logged0: set<nat>, ghost fs: Fs)
      returns (ok: bool, tot': nat, ghost k': nat, ghost data': seq<nat>, ghost bits': seq<nat>, ghost fs': Fs)
      requires Inv(sb, fs0) && i < sb.ninodes && Writing(fs0, logged0, fs, i, src, off, tot, k, data, bits)
      requires off <= fs0.inodes[i].size && tot < |src| && Turns(off, |src|, tot, k)
      modifies this
      ensures k' == k + 1 && tot' == if ok then tot + NextCopy(|src|, tot, off + tot) else tot
      ensures Writing(fs0, logged0, fs', i, src, off, tot', k', data', bits')
      ensures !ok ==> Full() || avail < |src|
    {
      hide EntriesOwned;
      hide OwnersReal;
      hide BitmapExact;
      hide Recorded;
      hide WroteSoFar;
      hide Spent;
      hide Spliced;
      hide Grown;
      var at := off + tot;
      var m := NextCopy(|src|, tot, at);
      var bn := at / 1024;
      assert bn == off / 1024 + k < MAXFILE;
      var chunk := src[tot..tot + m];
      assert src[tot..tot] == [];
      ghost var before := Logged();
      ghost var addr, more;
      var wrote;
      ok, addr, more, wrote, fs' := WriteBlock(i, at, bn, chunk, tot + m <= avail, fs);
      k', data', bits' := k + 1, data + [addr], bits + more;
      tot' := tot + |wrote|;
      TurnDone(sb, fs0, fs, fs', logged0, before, Logged(), i, src, off, tot, tot', at, bn, wrote,
               k, k', data, data', bits, bits', addr, more);
      RecordedTrans(sb, fs0.disk, logged0, fs.disk, before, fs'.disk, Logged());
    }

    /** The loop of writei.  `data` and `bits` collect the data and bitmap blocks it logs. */
    method WriteLoop(i: nat, src: seq<Byte>, avail: nat, off: nat)
      returns (tot: nat, ghost data: seq<nat>, ghost bits: seq<nat>)
      requires Valid() && i < sb.ninodes && off <= inodes[i].size && off + |src| <= MAXBYTES
      modifies this
      ensures Valid() && WroteSoFar(sb, old(Snap()), Snap(), i, off, src, tot)
      ensures tot < |src| ==> Full() || avail < |src|
      ensures Logged() <= old(Logged()) + Elems(data) + Elems(bits) + NonZero({inodes[i].addrs[NDIRECT]})
      ensures |src| <= 3 * BSIZE && NoHoles(sb, old(Snap()), i) ==> |data| <= 4 && |bits| <= 4
      ensures Recorded(sb, old(disk), old(Logged()), disk, Logged())
    {
      tot, data, bits := 0, [], [];
      RecordedNothing(sb, disk, Logged());
      ghost var k, fs0, logged0 := 0, Snap(), Logged();
      ghost var fs := fs0;
      WroteNothing(sb, fs0, i, off, src);
      while tot < |src|
        invariant Writing(fs0, logged0, fs, i, src, off, tot, k, data, bits) && Turns(off, |src|, tot, k)
        decreases |src| - tot
      {
        TurnsNext(off, |src|, tot, k);
        if |src| <= 3 * BSIZE {
          TurnsBound(off, |src|, tot, k);
        }
        var ok;
        ok, tot, k, data, bits, fs := WriteTurn(i, src, avail, off, tot, k, data, bits, fs0, logged0, fs);
        if !ok {
          return;
        }
      }
      if |src| <= 3 * BSIZE {
        TurnsBound(off, |src|, tot, k);
      }
    }

    /** writei.  `avail` bytes of the source can be read; a copy beyond them fails and changes
        nothing.  Returns the number of bytes written, -1 for a bad range. */
    method Writei(i: nat, src: seq<Byte>, avail: nat, off: nat) returns (tot: int, ghost wrote: seq<Byte>)
      requires Valid() && i < sb.ninodes && off < UINT && |src| < UINT
      modifies this
      ensures Valid()
      ensures tot == -1 <==> off > old(inodes[i].size) || off + |src| > MAXBYTES
      ensures tot == -1 ==> Snap() == old(Snap()) && order == old(order)
      ensures tot != -1 ==> order != [] && order[|order| - 1] == IBlock(sb, i)
      ensures tot != -1 ==> 0 <= tot <= |src| && (tot < |src| ==> Full() || avail < |src|)
      ensures |wrote| == (if tot == -1 then 0 else tot) <= |src| && wrote == src[..|wrote|]
      ensures WrittenOrBad(sb, old(Snap()), Snap(), i, off, wrote) && (tot != -1 ==> Synced(sb, Snap(), i))
      ensures AllSynced(sb, old(Snap())) ==> AllSynced(sb, Snap())
      ensures |src| <= 3 * BSIZE && NoHoles(sb, old(Snap()), i) && tot != -1 ==> InBudget(old(order), order)
      ensures Recorded(sb, old(disk), old(Logged()), disk, Logged())
    {
      hide EntriesOwned;
      hide OwnersReal;
      hide BitmapExact;
      hide Recorded;
      hide NoHoles;
      hide AllSynced;
      hide Content;
      hide Elems;
      hide InBudget;
      hide WrittenOrBad;
      hide WroteSoFar;
      hide Synced;
      RecordedNothing(sb, disk, Logged());
      WroteNothingYet(sb, Snap(), i, off);
      if off > inodes[i].size || (off + |src|) % 0x1_0000_0000 < off {
        return -1, [];
      }
      if off + |src| > MAXFILE * BSIZE {
        return -1, [];
      }
      ghost var fs0 := Snap();
      ghost var data, bits;
      tot, data, bits := WriteLoop(i, src, avail, off);
      ghost var fs := Snap();
      WroteSize(sb, fs0, fs, i, off, src, tot);
      wrote := src[..tot];
      var size := if off + tot > inodes[i].size then off + tot else inodes[i].size;
      ghost var before, first := Logged(), order;
      WriteBack(i, size);
      RecordedTrans(sb, old(disk), old(Logged()), fs.disk, before, disk, Logged());
      WriteiFacts(sb, fs0, fs, Snap(), i, off, src, tot, wrote, size);
      WrittenSynced(sb, fs0, Snap(), i, off, wrote);
      if |src| <= 3 * BSIZE && NoHoles(sb, fs0, i) {
        BudgetKept(old(order), first, order, data, bits, fs.inodes[i].addrs[NDIRECT], IBlock(sb, i));
      }
    }

    /** One turn of readi's loop: the m bytes at `at`, or nothing if there is no block to be had. */
    method ReadBlock(i: nat, at: nat, bn: nat, m: nat, ghost fs0: Fs, ghost c: seq<Byte>, ghost fs: Fs)
      returns (ok: bool, chunk: seq<Byte>, ghost fs': Fs)
      requires fs == Snap() && Inv(sb, fs) && Inv(sb, fs0) && i < sb.ninodes && Undisturbed(sb, fs0, fs, i)
      requires c == Content(sb, fs0, i) && at + m <= |c| && 0 < m && at % 1024 + m <= 1024 && bn == at / 1024
      modifies this
      ensures fs' == Snap() && Inv(sb, fs') && Undisturbed(sb, fs0, fs', i)
      ensures NoHoles(sb, fs0, i) ==> ok && Logged() == old(Logged())
      ensures if ok then chunk == c[at..at + m] else chunk == [] && Full()
    {
      var addr;
      ghost var bits;
      addr, bits := Bmap(i, bn);
      fs' := Snap();
      StillUndisturbed(sb, fs0, fs, fs', i, bn);
      if addr == 0 {
        return false, [], fs';
      }
      assert addr in owner;
      ok, chunk := true, disk[addr][at % 1024..at % 1024 + m];
      BlockIsContent(sb, fs0, fs', i, c, at, bn, m, chunk);
    }

    /** readi.  `room` bytes of the destination can be written.  Returns the count, or -1 when a
        copy out fails.  The bytes are those of the file whatever its holes; and when it has none,
        reading changes nothing and logs nothing. */
    method Readi(i: nat, off: nat, n: nat, room: nat) returns (tot: int, out: seq<Byte>)
      requires Valid() && i < sb.ninodes && off < UINT && n < UINT
      modifies this
      ensures Valid() && SameFiles(sb, old(Snap()), Snap())
      ensures NoHoles(sb, old(Snap()), i) ==> Snap() == old(Snap()) && Logged() == old(Logged())
      ensures off > old(inodes[i].size) || off + n >= UINT ==> tot == 0 && out == []
      ensures off <= old(inodes[i].size) && off + n < UINT ==>
                var c := Content(sb, old(Snap()), i);
                var want := if off + n > |c| then |c| - off else n;
                && |out| <= want && out == c[off..off + |out|]
                && (tot == -1 ==> room < want)
                && (tot != -1 ==> tot == |out| && (tot < want ==> Full() && !NoHoles(sb, old(Snap()), i)))
    {
      if off > inodes[i].size || (off + n) % 0x1_0000_0000 < off {
        return 0, [];
      }
      var want := if off + n > inodes[i].size then inodes[i].size - off else n;
      ghost var fs;
      tot, out, fs := ReadLoop(i, off, want, room, Snap(), Content(sb, Snap(), i));
    }

    method ReadLoop(i: nat, off: nat, want: nat, room: nat, ghost fs0: Fs, ghost c: seq<Byte>)
      returns (tot: int, out: seq<Byte>, ghost fs: Fs)
      requires fs0 == Snap() && Inv(sb, fs0) && i < sb.ninodes && c == Content(sb, fs0, i) && off + want <= |c|
      modifies this
      ensures fs == Snap() && Inv(sb, fs) && Undisturbed(sb, fs0, fs, i)
      ensures NoHoles(sb, fs0, i) ==> Logged() == old(Logged())
      ensures |out| <= want && out == c[off..off + |out|]
      ensures tot == -1 ==> room < want
      ensures tot != -1 ==> tot == |out| && (tot < want ==> Full() && !NoHoles(sb, fs0, i))
    {
      hide EntriesOwned;
      hide OwnersReal;
      hide BitmapExact;
      hide NoHoles;
      hide Undisturbed;
      hide Content;
      var at, fault, short := off, false, false;
      out, fs := [], fs0;
      UndisturbedSame(sb, fs0, i);
      while at < off + want && !fault && !short
        invariant off <= at <= off + want && out == c[off..at]
        invariant fs == Snap() && Inv(sb, fs) && Undisturbed(sb, fs0, fs, i)
        invariant NoHoles(sb, fs0, i) ==> Logged() == old(Logged())
        invariant (fault ==> room < want) && (short ==> Full() && !NoHoles(sb, fs0, i))
        decreases off + want - at, !fault, !short
      {
        var m := NextCopy(want, at - off, at);
        var ok, chunk;
        ok, chunk, fs := ReadBlock(i, at, at / 1024, m, fs0, c, fs);
        if !ok {
          short := true;
        } else if at - off + m > room {
          fault := true;
        } else {
          assert c[off..at] + c[at..at + m] == c[off..at + m];
          out, at := out + chunk, at + m;
        }
      }
      tot := if fault then -1 else |out|;
    }

    /** bfree; panics if the block is already free. */
    method Bfree(b: nat) returns (panicked: bool)
      requires Shape(sb, Snap()) && b < sb.size
      modifies this`disk, this`order
      ensures panicked <==> !Used(sb, old(Snap()), b)
      ensures panicked ==> disk == old(disk) && Logged() == old(Logged())
      ensures !panicked ==> Snap() == Flipped(sb, old(Snap()), b) && Logged() == old(Logged()) + {BBlock(sb, b)}
      ensures Recorded(sb, old(disk), old(Logged()), disk, Logged())
    {
      RegionsDisjoint'(sb, b);
      var bb, bi := BBlock(sb, b), b % 8192;
      if !ByteBit(disk[bb][bi / 8], bi % 8) {
        return true;
      }
      disk := disk[bb := Flip(disk[bb], bi)];
      LoggedOne(order, bb);
      order := order + [bb];
      panicked := false;
    }

    /** itrunc of inode i, begun in state fs0, has dealt with the first p slots. */
    ghost predicate FreedTo(fs0: Fs, i: nat, p: nat)
      reads this
    {
      Shape(sb, fs0) && Shape(sb, WithDisk(fs0, disk)) && Truncating(sb, fs0, WithDisk(fs0, disk), i, p)
    }

    /** `if (a) bfree(a)` for the address a at slot s of inode i. */
    method FreeSlot(i: nat, s: nat, a: nat, ghost fs0: Fs, ghost p: nat) returns (ghost p': nat)
      requires Inv(sb, fs0) && Shape(sb, Snap()) && i < sb.ninodes && s < NSLOTS && p == Rank(s)
      requires FreedTo(fs0, i, p) && a == Entry(sb, fs0, i, s)
      modifies this`disk, this`order
      ensures p' == p + 1 && Shape(sb, Snap()) && FreedTo(fs0, i, p')
      ensures Recorded(sb, old(disk), old(Logged()), disk, Logged())
    {
      p' := p + 1;
      RecordedNothing(sb, disk, Logged());
      ghost var fs := WithDisk(fs0, disk);
      if a == 0 {
        TruncSkip(sb, fs0, fs, i, s, p, p');
      } else {
        TruncFree(sb, fs0, fs, i, s, p, p');
        assert Used(sb, Snap(), a) == Used(sb, fs, a);
        var panicked := Bfree(a);
        assert !panicked;
        assert WithDisk(fs0, disk) == Flipped(sb, fs, a);
      }
    }

    /** The loop over the direct blocks. */
    method FreeDirect(i: nat, ghost fs0: Fs)
      requires fs0 == Snap() && Inv(sb, fs0) && i < sb.ninodes
      modifies this`disk, this`order, this`inodes
      ensures Shape(sb, Snap()) && FreedTo(fs0, i, NDIRECT)
      ensures inodes == fs0.inodes[i := fs0.inodes[i].(addrs := seq(NDIRECT, _ => 0) + [fs0.inodes[i].addrs[NDIRECT]])]
      ensures Recorded(sb, old(disk), old(Logged()), disk, Logged())
    {
      hide Recorded;
      hide Truncating;
      hide EntriesOwned;
      hide OwnersReal;
      hide BitmapExact;
      RecordedNothing(sb, disk, Logged());
      TruncNone(sb, fs0, i);
      ghost var p := 0;
      var k := 0;
      while k < NDIRECT
        invariant 0 <= k <= NDIRECT && p == k && Shape(sb, Snap()) && FreedTo(fs0, i, p)
        invariant Recorded(sb, old(disk), old(Logged()), disk, Logged())
        invariant inodes == fs0.inodes[i := fs0.inodes[i].(addrs := inodes[i].addrs)]
        invariant forall m :: 0 <= m <= NDIRECT ==> inodes[i].addrs[m] == if m < k then 0 else fs0.inodes[i].addrs[m]
      {
        ghost var d1, l1 := disk, Logged();
        p := FreeSlot(i, k, inodes[i].addrs[k], fs0, p);
        RecordedTrans(sb, old(disk), old(Logged()), d1, l1, disk, Logged());
        inodes := inodes[i := inodes[i].(addrs := inodes[i].addrs[k := 0])];
        k := k + 1;
      }
      assert inodes[i].addrs == seq(NDIRECT, _ => 0) + [fs0.inodes[i].addrs[NDIRECT]];
    }

    /** The loop over the words of the indirect block, and then that block itself. */
    method FreeIndirect(i: nat, ghost fs0: Fs)
      requires Inv(sb, fs0) && i < sb.ninodes && Shape(sb, Snap()) && FreedTo(fs0, i, NDIRECT)
      requires inodes[i].addrs[NDIRECT] == fs0.inodes[i].addrs[NDIRECT]
      modifies this`disk, this`order
      ensures FreedTo(fs0, i, NSLOTS)
      ensures Recorded(sb, old(disk), old(Logged()), disk, Logged())
    {
      RecordedNothing(sb, disk, Logged());
      var ind := inodes[i].addrs[NDIRECT];
      ghost var p := NDIRECT;
      if ind == 0 {
        TruncNoIndirect(sb, fs0, WithDisk(fs0, disk), i);
        return;
      }
      IndirectOwned(sb, fs0, i);
      var j := 0;
      while j < NINDIRECT
        invariant 0 <= j <= NINDIRECT && p == NDIRECT + j && Shape(sb, Snap()) && FreedTo(fs0, i, p)
        invariant Recorded(sb, old(disk), old(Logged()), disk, Logged())
      {
        ghost var d1, l1 := disk, Logged();
        p := FreeSlot(i, NDIRECT + 1 + j, Word(disk[ind], j), fs0, p);
        RecordedTrans(sb, old(disk), old(Logged()), d1, l1, disk, Logged());
        j := j + 1;
      }
      ghost var d1, l1 := disk, Logged();
      p := FreeSlot(i, NDIRECT, ind, fs0, p);
      RecordedTrans(sb, old(disk), old(Logged()), d1, l1, disk, Logged());
    }

    /** itrunc.  It never meets "freeing free block"; it clears the bits of exactly the file's
        blocks, and no other file changes. */
    method Itrunc(i: nat)
      requires Valid() && i < sb.ninodes
      modifies this
      ensures Valid() && FileEmptied(sb, old(Snap()), Snap(), i)
      ensures AllSynced(sb, old(Snap())) ==> AllSynced(sb, Snap())
      ensures Recorded(sb, old(disk), old(Logged()), disk, Logged())
    {
      ghost var fs0 := Snap();
      ghost var fs, fs1 := FreeAll(i, fs0);
      ghost var l1 := Logged();
      Iupdate(i);
      RecordedTrans(sb, old(disk), old(Logged()), fs1.disk, l1, disk, Logged());
      ItruncFacts(sb, fs0, fs, fs1, Snap(), i);
      EmptiedSynced(sb, fs0, Snap(), i);
    }

    /** All of itrunc but the final iupdate. */
    method FreeAll(i: nat, ghost fs0: Fs) returns (ghost fs: Fs, ghost fs1: Fs)
      requires fs0 == Snap() && Inv(sb, fs0) && i < sb.ninodes
      modifies this
      ensures Shape(sb, fs) && Truncating(sb, fs0, fs, i, NSLOTS)
      ensures fs1 == Snap() == Truncated(fs0, fs.disk, i) && Inv(sb, fs1)
      ensures Recorded(sb, old(disk), old(Logged()), disk, Logged())
    {
      FreeDirect(i, fs0);
      ghost var d1, l1 := disk, Logged();
      FreeIndirect(i, fs0);
      RecordedTrans(sb, old(disk), old(Logged()), d1, l1, disk, Logged());
      fs := WithDisk(fs0, disk);
      var n := inodes[i];
      inodes := inodes[i := n.(size := 0, addrs := n.addrs[NDIRECT := 0])];
      owner := map b | b in owner && owner[b].i != i :: owner[b];
      assert inodes[i].addrs == seq(NDIRECT + 1, _ => 0);
      fs1 := Snap();
      assert fs1 == Truncated(fs0, fs.disk, i);
      TruncatedInv(sb, fs0, fs, i);
    }

    /** filewrite for an inode: chunks of at most 3 blocks, each in a transaction of its own.
        `off'` is the new file offset and `txs` what each transaction gave to log_write, in order. */
    method FileWrite(i: nat, src: seq<Byte>, avail: nat, off: nat)
      returns (ret: int, off': nat, ghost wrote: seq<Byte>, ghost txs: seq<seq<nat>>)
      requires Valid() && i < sb.ninodes && off < UINT && |src| < UINT
      modifies this
      ensures Valid() && off' == off + |wrote| && |wrote| <= |src| && wrote == src[..|wrote|]
      ensures ret == if |wrote| == |src| then |src| else -1
      ensures WrittenOrBad(sb, old(Snap()), Snap(), i, off, wrote)
      ensures |wrote| < |src| ==> off > old(inodes[i].size) || off + |src| > MAXBYTES || Full() || avail < |src|
      ensures NoHoles(sb, old(Snap()), i) ==> forall t :: 0 <= t < |txs| ==>
        |Elems(txs[t])| <= LogDisk.MAXOPBLOCKS && R.Paced(txs[t])
    {
      hide EntriesOwned;
      hide OwnersReal;
      hide BitmapExact;
      hide WrittenOrBad;
      hide NoHoles;
      hide Recorded;
      hide AllSynced;
      var max := ((LogDisk.MAXOPBLOCKS - 1 - 1 - 2) / 2) * BSIZE;
      ghost var fs0 := Snap();
      off', wrote, txs := off, [], [];
      var k, stop := 0, false;
      WroteNothingYet(sb, fs0, i, off);
      while k < |src| && !stop
        invariant 0 <= k <= |src| && |wrote| <= |src| && wrote == src[..|wrote|] && off' == off + |wrote| && Valid()
        invariant WrittenOrBad(sb, fs0, Snap(), i, off, wrote)
        invariant if stop then |wrote| < |src| && k < |src| else |wrote| == k
        invariant stop ==> off > fs0.inodes[i].size || off + |src| > MAXBYTES || Full() || avail < |src|
        invariant NoHoles(sb, fs0, i) ==> forall t :: 0 <= t < |txs| ==>
          |Elems(txs[t])| <= LogDisk.MAXOPBLOCKS && R.Paced(txs[t])
        decreases |src| - k, !stop
      {
        var n := if |src| - k > max then max else |src| - k;
        var r;
        ghost var tx;
        r, off', tx, wrote := WriteChunk(i, src, k, n, avail, off', fs0, off, wrote);
        txs := txs + [tx];
        if r != n {
          stop := true;
        } else {
          k := k + r;
        }
      }
      ret := if k == |src| then |src| else -1;
    }

    /** One chunk of filewrite: begin_op, writei, advance the offset, end_op. */
    method WriteChunk(i: nat, src: seq<Byte>, k: nat, n: nat, avail: nat, at: nat,
                      ghost fs0: Fs, ghost off: nat, ghost done: seq<Byte>)
      returns (r: int, at': nat, ghost tx: seq<nat>, ghost done': seq<Byte>)
      requires Valid() && Inv(sb, fs0) && i < sb.ninodes && k + n <= |src| < UINT && 0 < n <= 3 * BSIZE
      requires at == off + k && off < UINT && WrittenOrBad(sb, fs0, Snap(), i, off, done) && done == src[..k]
      modifies this
      ensures Valid() && r <= n && at' == off + |done'|
      ensures WrittenOrBad(sb, fs0, Snap(), i, off, done')
      ensures |done'| == k + (if r > 0 then r else 0) <= |src| && done' == src[..|done'|]
      ensures r != n ==> off > fs0.inodes[i].size || off + |src| > MAXBYTES || Full() || avail < |src|
      ensures NoHoles(sb, fs0, i) ==> |Elems(tx)| <= LogDisk.MAXOPBLOCKS && R.Paced(tx)
      ensures Recorded(sb, old(disk), {}, disk, Elems(tx))
      ensures AllSynced(sb, old(Snap())) ==> AllSynced(sb, Snap())
    {
      hide EntriesOwned;
      hide OwnersReal;
      hide BitmapExact;
      hide Recorded;
      hide WrittenOrBad;
      hide NoHoles;
      hide AllSynced;
      hide InBudget;
      WrittenOrBadOffset(sb, fs0, Snap(), i, off, done, at);
      order := [];
      assert Logged() == {};
      ghost var fs := Snap();
      var chunk := src[k..k + n];
      ghost var wrote;
      r, wrote := Writei(i, chunk, if avail < k then 0 else avail - k, at);
      tx := order;
      if r != -1 && NoHoles(sb, fs, i) {
        InBudgetAlone(order);
      }
      at' := if r > 0 then at + r else at;
      done' := done + wrote;
      WrittenOrBadMore(sb, fs0, fs, Snap(), i, off, done, at, wrote, done');
      PrefixMore(src, k, n, chunk, done, wrote, done');
    }

    /** `if (off > ip->size) ip->size = off; iupdate(ip)` */
    method WriteBack(i: nat, size: nat)
      requires Valid() && i < sb.ninodes && size <= MAXBYTES
      modifies this`disk, this`inodes, this`order
      ensures Valid() && Snap() == Finished(sb, old(Snap()), i, size)
      ensures order == old(order) + [IBlock(sb, i)] && Logged() == old(Logged()) + {IBlock(sb, i)}
      ensures Recorded(sb, old(disk), old(Logged()), disk, Logged())
    {
      ResizedKeeps(sb, Snap(), i, size);
      BitmapUntouched(sb, Snap(), Resized(Snap(), i, size));
      inodes := inodes[i := inodes[i].(size := size)];
      assert Snap() == Resized(old(Snap()), i, size);
      Iupdate(i);
    }
  }

  lemma {:induction false} ElemsSize(s: seq<nat>)
    ensures |Elems(s)| <= |s|
  {
    if s != [] {
      var n := |s| - 1;
      ElemsSize(s[..n]);
      assert s == s[..n] + [s[n]];
      ElemsOfConcat(s[..n], [s[n]]);
      assert Elems([s[n]]) == {s[n]};
    }
  }

  lemma UnionSize(a: set<nat>, b: set<nat>)
    ensures |a + b| <= |a| + |b|
  {
  }

  /** Four data blocks, four bitmap blocks, the indirect block and the inode block: within budget. */
  lemma BudgetKept(start: seq<nat>, first: seq<nat>, order: seq<nat>, data: seq<nat>, bits: seq<nat>, ind: nat, ib: nat)
    requires Elems(first) <= Elems(start) + Elems(data) + Elems(bits) + NonZero({ind}) && order == first + [ib]
    requires |data| <= 4 && |bits| <= 4
    ensures InBudget(start, order)
  {
    var a, b, before := Elems(data), Elems(bits), Elems(first) - Elems(start);
    ElemsSize(data);
    ElemsSize(bits);
    UnionSize(a, b);
    UnionSize(a + b, {ind});
    SubsetSize(before, a + b + {ind});
    UnionSize(before, {ib});
    LoggedOne(first, ib);
    SubsetSize(Elems(order) - Elems(start), before + {ib});
    assert order[..|order| - 1] == first;
  }

  lemma InBudgetAlone(order: seq<nat>)
    requires InBudget([], order)
    ensures |Elems(order)| <= LogDisk.MAXOPBLOCKS && R.Paced(order)
  {
    assert Elems([]) == {};
    assert Elems(order) - {} == Elems(order);
    var first := Elems(order[..|order| - 1]);
    assert first - {} == first;
    forall k | 0 <= k < |order|
      ensures |R.Distinct(order[..k])| < LogDisk.MAXOPBLOCKS
    {
      SubsetSize(R.Distinct(order[..k]), first);
    }
  }
}
