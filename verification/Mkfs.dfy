/** mkfs/mkfs.c: the first image, built by taking blocks in order.  The bitmap is written last, so
    while building, `fs` is a ghost snapshot that differs from the image in the bitmap blocks only:
    there the bits are those that the finished image will have. */
module Mkfs {
  import opened Collections
  import opened FsLayout
  import opened FsState
  import opened FsBytes
  import opened FsSuper

  /** The image is the snapshot outside the bitmap, has its super block, and is blank from `free` on. */
  ghost predicate Shows(sb: Super, img: seq<Block>, fs: Fs, free: nat)
    requires Shape(sb, fs)
  {
    && FrontOk(sb, img) && sb.datastart <= free <= sb.size
    && (forall b :: 0 <= b < sb.size && !(sb.bmapstart <= b < sb.datastart) ==> img[b] == fs.disk[b])
    && (forall b :: free <= b < sb.size ==> img[b] == ZeroBlock())
    && (forall b :: b in fs.owner <==> sb.datastart <= b < free)
  }

  lemma LinkedInode(sb: Super, fs: Fs, x: nat, i: nat, s: nat)
    requires Owned(sb, fs) && CanLink(sb, fs, x, i, s)
    ensures Linked(sb, fs, x, i, s).inodes[i] ==
      if s <= NDIRECT then fs.inodes[i].(addrs := fs.inodes[i].addrs[s := x]) else fs.inodes[i]
  {
  }

  lemma LinkShows(sb: Super, img: seq<Block>, fs: Fs, free: nat, i: nat, s: nat)
    requires Owned(sb, fs) && Shows(sb, img, fs, free) && free < sb.size && CanLink(sb, fs, free, i, s)
    ensures s <= NDIRECT ==> Shows(sb, img, Linked(sb, fs, free, i, s), free + 1)
    ensures s > NDIRECT ==> var a := fs.inodes[i].addrs[NDIRECT];
      && sb.datastart <= a < free && |img[a]| == BSIZE
      && Shows(sb, img[a := PutWord(img[a], s - NDIRECT - 1, free)], Linked(sb, fs, free, i, s), free + 1)
  {
    hide EntriesOwned;
    hide OwnersReal;
    hide PutWord;
    hide Flip;
    hide Entry;
    hide SuperBlock;
    hide Storable;
    RegionsDisjoint'(sb, free);
    IndirectOwned(sb, fs, i);
  }

  /** The next block of the image can be linked anywhere. */
  lemma NextIsFree(sb: Super, img: seq<Block>, fs: Fs, free: nat, i: nat, s: nat)
    requires Owned(sb, fs) && Shows(sb, img, fs, free) && free < sb.size && At(fs, i, s) && Entry(sb, fs, i, s) == 0
    requires s > NDIRECT ==> fs.inodes[i].addrs[NDIRECT] != 0
    ensures CanLink(sb, fs, free, i, s)
  {
  }

  lemma MappedNothing(sb: Super, fs: Fs, i: nat, bn: nat)
    requires Shape(sb, fs) && i < sb.ninodes && bn < MAXFILE
    ensures OnlyMapped(sb, fs, fs, i, bn)
  {
  }

  /** File i is as mkfs leaves one: on disk as in core, without holes, no block beyond its end. */
  ghost predicate Tidy(sb: Super, fs: Fs, i: int)
    requires Shape(sb, fs) && 0 <= i < sb.ninodes
  {
    Synced(sb, fs, i) && NoHoles(sb, fs, i) && NoneFrom(sb, fs, i, fs.inodes[i].size)
  }

  ghost predicate AllTidy(sb: Super, fs: Fs)
    requires Shape(sb, fs)
  {
    forall i :: 0 <= i < sb.ninodes ==> Tidy(sb, fs, i)
  }

  lemma SpliceAtEnd(c: seq<Byte>, src: seq<Byte>)
    ensures Splice(c, |c|, src) == c + src
  {
  }

  /** `src` has been appended to file i and nothing else has happened to any file. */
  ghost predicate Appended(sb: Super, fs0: Fs, fs: Fs, i: nat, src: seq<Byte>)
    requires Shape(sb, fs0) && Shape(sb, fs) && i < sb.ninodes
  {
    && Content(sb, fs, i) == Content(sb, fs0, i) + src
    && forall j :: 0 <= j < sb.ninodes && j != i ==>
         fs.inodes[j] == fs0.inodes[j] && Content(sb, fs, j) == Content(sb, fs0, j)
  }

  lemma AppendTidy(sb: Super, fs0: Fs, fs: Fs, fs': Fs, i: nat, start: nat, src: seq<Byte>, end: nat, j: nat)
    requires Inv(sb, fs0) && Inv(sb, fs) && i < sb.ninodes && j < sb.ninodes && end <= MAXBYTES && Tidy(sb, fs0, j)
    requires Grown(sb, fs0, fs, i) && NoneFrom(sb, fs, i, end) && fs' == Finished(sb, fs, i, end)
    requires Inv(sb, fs') && FileWritten(sb, fs0, fs', i, start, src) && Synced(sb, fs', i)
    ensures Tidy(sb, fs', j)
  {
    FinishedFacts(sb, fs, i, end);
    NoneFinished(sb, fs0, fs, fs', i, j, end);
  }

  /** iappend's last step, the inode written back with its new size. */
  lemma AppendFinish(sb: Super, fs0: Fs, fs: Fs, i: nat, start: nat, src: seq<Byte>, end: nat) returns (fs': Fs)
    requires Inv(sb, fs0) && AllTidy(sb, fs0) && Inv(sb, fs) && i < sb.ninodes
    requires start == fs0.inodes[i].size && end == start + |src| <= MAXBYTES
    requires WroteSoFar(sb, fs0, fs, i, start, src, |src|) && NoneFrom(sb, fs, i, end)
    ensures fs' == Finished(sb, fs, i, end) && Inv(sb, fs') && AllTidy(sb, fs') && Appended(sb, fs0, fs', i, src)
  {
    fs' := Finished(sb, fs, i, end);
    assert src[..|src|] == src;
    var n := |src|;
    WriteiFacts(sb, fs0, fs, fs', i, start, src, n, src, end);
    SpliceAtEnd(Content(sb, fs0, i), src);
    forall j | 0 <= j < sb.ninodes
      ensures Tidy(sb, fs', j)
    {
      AppendTidy(sb, fs0, fs, fs', i, start, src, end, j);
    }
  }

  lemma ResizedShows(sb: Super, img: seq<Block>, fs: Fs, free: nat, i: nat, size: nat)
    requires Inv(sb, fs) && Shows(sb, img, fs, free) && i < sb.ninodes && size <= MAXBYTES
    ensures Shape(sb, Resized(fs, i, size)) && Shows(sb, img, Resized(fs, i, size), free)
  {
    ResizedKeeps(sb, fs, i, size);
  }

  lemma NoneFinished(sb: Super, fs0: Fs, fs: Fs, fs': Fs, i: nat, j: nat, end: nat)
    requires Shape(sb, fs0) && Shape(sb, fs) && Shape(sb, fs') && i < sb.ninodes && j < sb.ninodes
    requires Grown(sb, fs0, fs, i) && NoneFrom(sb, fs, i, end) && fs'.inodes[i].size == end
    requires NoneFrom(sb, fs0, j, fs0.inodes[j].size) && (j != i ==> fs'.inodes[j] == fs0.inodes[j])
    requires forall a, t {:trigger Entry(sb, fs', a, t)} :: At(fs, a, t) ==> Entry(sb, fs', a, t) == Entry(sb, fs, a, t)
    ensures NoneFrom(sb, fs', j, fs'.inodes[j].size)
  {
    forall bn | 0 <= bn < MAXFILE && fs'.inodes[j].size <= bn * 1024
      ensures Entry(sb, fs', j, SlotOf(bn)) == 0
    {
      assert Entry(sb, fs', j, SlotOf(bn)) == Entry(sb, fs, j, SlotOf(bn));
      if j != i {
        assert Entry(sb, fs0, j, SlotOf(bn)) == 0;
      }
    }
  }

  class Image {
    const sb: Super
    var img: seq<Block>
    var freeblock: nat
    var freeinode: nat
    ghost var fs: Fs

    ghost predicate Building()
      reads this
    {
      Inv(sb, fs) && Shows(sb, img, fs, freeblock)
    }

    /** The block for fbn of the inode `din`, the next free ones being taken as needed; none if the
        image has no more, which mkfs itself does not test. */
    method MapBlock(i: nat, din: Inode, fbn: nat) returns (fits: bool, din': Inode, x: nat)
      requires Building() && i < sb.ninodes && fs.inodes[i] == din && fbn < MAXFILE
      modifies this`img, this`freeblock, this`fs
      ensures Building() && fs.inodes[i] == din'
      ensures OnlyMapped(sb, old(fs), fs, i, fbn)
      ensures if fits then x == Entry(sb, fs, i, SlotOf(fbn)) != 0 else freeblock == sb.size
    {
      if fbn >= NDIRECT {
        fits, din', x := MapIndirect(i, din, fbn);
      } else if din.addrs[fbn] == 0 {
        fits, din', x := TakeFor(i, din, fbn, fbn);
      } else {
        fits, din', x := true, din, din.addrs[fbn];
      }
    }

    method MapIndirect(i: nat, din: Inode, fbn: nat) returns (fits: bool, din': Inode, x: nat)
      requires Building() && i < sb.ninodes && fs.inodes[i] == din && NDIRECT <= fbn < MAXFILE
      modifies this`img, this`freeblock, this`fs
      ensures Building() && fs.inodes[i] == din'
      ensures OnlyMapped(sb, old(fs), fs, i, fbn)
      ensures if fits then x == Entry(sb, fs, i, SlotOf(fbn)) != 0 else freeblock == sb.size
    {
      hide EntriesOwned;
      hide OwnersReal;
      hide BitmapExact;
      fits, din', x := true, din, 0;
      if din.addrs[NDIRECT] == 0 {
        fits, din', x := TakeFor(i, din, NDIRECT, fbn);
      }
      if fits {
        ghost var mid := fs;
        IndirectOwned(sb, mid, i);
        assert Entry(sb, mid, i, NDIRECT) == din'.addrs[NDIRECT];
        x := Word(img[din'.addrs[NDIRECT]], fbn - NDIRECT);
        if x == 0 {
          fits, din', x := TakeFor(i, din', fbn + 1, fbn);
          OnlyMappedTrans(sb, old(fs), mid, fs, i, fbn);
        }
      }
    }

    /** `slot = freeblock++` */
    method TakeFor(i: nat, din: Inode, s: nat, ghost fbn: nat) returns (fits: bool, din': Inode, x: nat)
      requires Building() && i < sb.ninodes && fs.inodes[i] == din && s < NSLOTS
      requires Entry(sb, fs, i, s) == 0 && (s > NDIRECT ==> din.addrs[NDIRECT] != 0)
      requires fbn < MAXFILE && (s == SlotOf(fbn) || s == NDIRECT)
      modifies this`img, this`freeblock, this`fs
      ensures Building() && fs.inodes[i] == din'
      ensures OnlyMapped(sb, old(fs), fs, i, fbn)
      ensures if fits then x == Entry(sb, fs, i, s) != 0 else freeblock == sb.size
      ensures fits <==> old(freeblock) < sb.size
    {
      hide EntriesOwned;
      hide OwnersReal;
      hide BitmapExact;
      hide OnlyMapped;
      hide FrontOk;
      hide Shows;
      hide Linked;
      hide Entry;
      ShowsBound(sb, img, fs, freeblock);
      din', x := din, freeblock;
      fits := freeblock < sb.size;
      if !fits {
        MappedNothing(sb, fs, i, fbn);
        return;
      }
      NextIsFree(sb, img, fs, freeblock, i, s);
      LinkShows(sb, img, fs, freeblock, i, s);
      LinkedOwned(sb, fs, freeblock, i, s);
      LinkedBitmap(sb, fs, freeblock, i, s);
      LinkedOnlyMapped(sb, fs, freeblock, i, s, fbn);
      LinkedEntry(sb, fs, freeblock, i, s, i, s);
      LinkedInode(sb, fs, freeblock, i, s);
      if s <= NDIRECT {
        din' := din.(addrs := din.addrs[s := freeblock]);
      } else {
        var a := din.addrs[NDIRECT];
        img := img[a := PutWord(img[a], s - NDIRECT - 1, freeblock)];
      }
      fs := Linked(sb, fs, freeblock, i, s);
      freeblock := freeblock + 1;
    }

    /** One turn of iappend's loop. */
    method AppendTurn(i: nat, din: Inode, src: seq<Byte>, tot: nat, off: nat, n: nat, ghost fs0: Fs, ghost start: nat)
      returns (fits: bool, din': Inode, tot': nat, off': nat)
      requires Building() && i < sb.ninodes && fs.inodes[i] == din && off < MAXBYTES && 0 < n && off % 1024 + n <= 1024
      requires Shape(sb, fs0) && tot + n <= |src| && off == start + tot
      requires WroteSoFar(sb, fs0, fs, i, start, src, tot) && NoneFrom(sb, fs, i, off)
      modifies this`img, this`freeblock, this`fs
      ensures Building() && fs.inodes[i] == din'
      ensures if fits then tot' == tot + n && off' == off + n else freeblock == sb.size
      ensures fits ==> WroteSoFar(sb, fs0, fs, i, start, src, tot') && NoneFrom(sb, fs, i, off')
    {
      hide EntriesOwned;
      hide OwnersReal;
      hide BitmapExact;
      hide WroteSoFar;
      hide NoneFrom;
      hide OnlyMapped;
      hide Shows;
      var x;
      var fbn := off / 1024;
      ghost var before := fs;
      fits, din', x := MapBlock(i, din, fbn);
      tot', off' := tot + n, off + n;
      if fits {
        var chunk := src[tot..tot'];
        ghost var mid := fs;
        ghost var after := AppendDone(sb, fs0, before, mid, i, src, tot, tot', start, off, fbn, off', chunk, img,
          freeblock, x);
        img := img[x := Patch(img[x], off % 1024, chunk)];
        fs := after;
      }
    }

    ghost predicate Valid()
      reads this
    {
      Building() && AllTidy(sb, fs) && BlankFrom(fs, freeinode)
    }

    /** winode, of the inode that fs1 has at i. */
    method Winode(i: nat, din: Inode, ghost fs1: Fs)
      requires Shape(sb, fs1) && Shows(sb, img, fs1, freeblock) && i < sb.ninodes && fs1.inodes[i] == din
      modifies this`img
      ensures Shows(sb, img, Updated(sb, fs1, i), freeblock)
    {
      RegionsDisjoint(sb, i, 0);
      var bn := IBlock(sb, i);
      img := img[bn := PutInode(img[bn], i % 16, din)];
    }

    /** rinode */
    method Rinode(i: nat) returns (din: Inode)
      requires Valid() && i < sb.ninodes
      ensures din == fs.inodes[i] && Tidy(sb, fs, i)
    {
      RegionsDisjoint(sb, i, 0);
      assert Tidy(sb, fs, i);
      din := GetInode(img[IBlock(sb, i)], i % 16);
    }

    method AppendLoop(i: nat, din: Inode, src: seq<Byte>, ghost fs0: Fs)
      returns (fits: bool, din': Inode, off: nat)
      requires fs0 == fs && Building() && i < sb.ninodes && fs.inodes[i] == din && din.size + |src| <= MAXBYTES
      requires NoneFrom(sb, fs, i, din.size)
      modifies this`img, this`freeblock, this`fs
      ensures off == din.size + |src|
      ensures if fits then Building() && fs.inodes[i] == din' else freeblock == sb.size
      ensures fits ==> WroteSoFar(sb, fs0, fs, i, din.size, src, |src|) && NoneFrom(sb, fs, i, off)
    {
      var tot, start := 0, din.size;
      din', off, fits := din, start, true;
      WroteNothing(sb, fs, i, off, src);
      while tot < |src|
        invariant 0 <= tot <= |src| && off == start + tot && Building() && fs.inodes[i] == din'
        invariant WroteSoFar(sb, fs0, fs, i, start, src, tot) && NoneFrom(sb, fs, i, off) && fits
        decreases |src| - tot
      {
        var n := NextCopy(|src|, tot, off);
        fits, din', tot, off := AppendTurn(i, din', src, tot, off, n, fs0, start);
        if !fits {
          off := start + |src|;
          return;
        }
      }
    }

    /** iappend.  False when the file would be too big, or the image is full. */
    method Iappend(i: nat, src: seq<Byte>) returns (fits: bool)
      requires Valid() && i < sb.ninodes && i < freeinode
      modifies this`img, this`freeblock, this`fs
      ensures fits ==> Valid() && Appended(sb, old(fs), fs, i, src)
      ensures !fits ==> freeblock == sb.size || old(fs.inodes[i].size) + |src| > MAXBYTES
    {
      ghost var fs0 := fs;
      var din := Rinode(i);
      if din.size + |src| > MAXBYTES {
        return false;
      }
      var off;
      ghost var start := din.size;
      fits, din, off := AppendLoop(i, din, src, fs0);
      if fits {
        FinishAppend(i, din, off, src, fs0, start);
      }
    }

    /** `din.size = off; winode(inum, &din)` */
    method FinishAppend(i: nat, din: Inode, off: nat, ghost src: seq<Byte>, ghost fs0: Fs, ghost start: nat)
      requires Inv(sb, fs0) && AllTidy(sb, fs0) && Building() && i < sb.ninodes && fs.inodes[i] == din
      requires start == fs0.inodes[i].size && off == start + |src| <= MAXBYTES
      requires WroteSoFar(sb, fs0, fs, i, start, src, |src|) && NoneFrom(sb, fs, i, off)
      requires BlankFrom(fs0, freeinode) && i < freeinode
      modifies this`img, this`fs
      ensures Valid() && Appended(sb, fs0, fs, i, src)
    {
      ghost var fs1 := Resized(fs, i, off);
      ResizedShows(sb, img, fs, freeblock, i, off);
      fs := AppendFinish(sb, fs0, fs, i, start, src, off);
      Winode(i, din.(size := off), fs1);
    }

    /** All blocks zero but the super block, nothing allocated but the metadata. */
    constructor (sb: Super)
      requires Storable(sb) && sb.datastart == sb.bmapstart + 1 < sb.size
      ensures this.sb == sb && Valid() && freeblock == sb.datastart && freeinode == 1
      ensures forall i :: 0 <= i < sb.ninodes ==> fs.inodes[i] == Blank()
      ensures FrontOk(sb, img)
    {
      this.sb := sb;
      img := seq(sb.size, _ => ZeroBlock())[1 := SuperBlock(sb)];
      freeblock, freeinode := sb.datastart, 1;
      fs := BlankFs(sb);
      new;
      BlankInv(sb);
      BlankTidy(sb);
    }

    /** ialloc: the next inode, of the given type.  False when there are no more, which mkfs itself
        does not test. */
    method Ialloc(kind: nat) returns (fits: bool, i: nat)
      requires Valid() && kind < 65536
      modifies this
      ensures fits ==> Valid() && i == old(freeinode) < sb.ninodes && freeinode == i + 1
      ensures fits ==> Allocated(sb, old(fs), fs, i) && fs.inodes[i] == Blank().(kind := kind, nlink := 1)
      ensures fits <==> old(freeinode) < sb.ninodes
      ensures freeblock == old(freeblock)
    {
      i := freeinode;
      fits := i < sb.ninodes;
      if fits {
        var din := Blank().(kind := kind, nlink := 1);
        ghost var fs1 := RetypedFacts(sb, img, fs, freeblock, i, din);
        Winode(i, din, fs1);
        fs := Updated(sb, fs1, i);
        freeinode := i + 1;
      }
    }

    /** main's last steps: round the root directory's size up to whole blocks, write the bitmap.
        The image then satisfies every invariant of the file system, except that rounding leaves a
        hole at the end of the root directory exactly when its size was already a whole number of
        blocks. */
    method Finish(root: nat) returns (fits: bool, ghost done: Fs)
      requires Valid() && root < sb.ninodes && root < freeinode && sb.datastart == sb.bmapstart + 1
      modifies this
      ensures fits ==> Inv(sb, done) && done.disk == img && Mountable(sb, old(fs), done, root) && FrontOk(sb, img)
      ensures fits <==> old(fs.inodes[root].size) / 1024 < MAXFILE && old(freeblock) < BPB
      ensures freeblock == old(freeblock)
    {
      hide EntriesOwned;
      hide OwnersReal;
      hide BitmapExact;
      hide FrontOk;
      hide Mountable;
      hide Tidy;
      ghost var fs0 := fs;
      ShowsBound(sb, img, fs, freeblock);
      var din := Rinode(root);
      var off := (din.size / 1024 + 1) * 1024;
      fits := off <= MAXBYTES && freeblock < BPB;
      done := fs;
      if fits {
        ghost var fs1, fs2 := Resized(fs, root, off), Finished(sb, fs, root, off);
        ResizedShows(sb, img, fs, freeblock, root, off);
        Winode(root, din.(size := off), fs1);
        fs := fs2;
        var buf := Balloc(freeblock);
        done := SealedFacts(sb, fs0, fs2, img, freeblock, buf, root, off);
        img := img[sb.bmapstart := buf];
      }
    }
  }

  lemma AppendDone(sb: Super, fs0: Fs, fs: Fs, mid: Fs, i: nat, src: seq<Byte>, tot: nat, tot': nat, start: nat,
                   off: nat, fbn: nat, off': nat, chunk: seq<Byte>, img: seq<Block>, free: nat, x: nat)
    returns (fs': Fs)
    requires Shape(sb, fs0) && Shape(sb, fs) && Inv(sb, mid) && i < sb.ninodes && Shows(sb, img, mid, free)
    requires off == start + tot < off' == start + tot' && off < MAXBYTES && tot' <= |src| && chunk == src[tot..tot']
    requires fbn == off / 1024 && off % 1024 + |chunk| <= 1024
    requires WroteSoFar(sb, fs0, fs, i, start, src, tot) && NoneFrom(sb, fs, i, off)
    requires OnlyMapped(sb, fs, mid, i, fbn) && x == Entry(sb, mid, i, SlotOf(fbn)) != 0
    ensures Inv(sb, fs') && fs'.inodes == mid.inodes
    ensures WroteSoFar(sb, fs0, fs', i, start, src, tot') && NoneFrom(sb, fs', i, off')
    ensures x < |img| && off % 1024 + |chunk| <= |img[x]|
    ensures Shows(sb, img[x := Patch(img[x], off % 1024, chunk)], fs', free)
  {
    fs' := Copied(sb, mid, i, off, chunk);
    CopyShows(sb, img, mid, free, i, off, chunk);
    CopiedFacts(sb, mid, i, off, chunk);
    MapThenCopy(sb, fs, mid, fs', i, off, chunk);
    WroteMore(sb, fs0, fs, fs', i, start, src, tot, tot', off, fbn, chunk);
    NoneAfter(sb, fs, mid, fs', i, off, fbn, off');
  }

  /** File i has no block at or beyond byte `end`. */
  ghost predicate NoneFrom(sb: Super, fs: Fs, i: int, end: nat)
    requires Shape(sb, fs) && 0 <= i < |fs.inodes|
  {
    forall bn :: 0 <= bn < MAXFILE && end <= bn * 1024 ==> Entry(sb, fs, i, SlotOf(bn)) == 0
  }

  lemma NoneAfter(sb: Super, fs: Fs, fs1: Fs, fs2: Fs, i: nat, off: nat, fbn: nat, end: nat)
    requires Shape(sb, fs) && Shape(sb, fs1) && Shape(sb, fs2)
    requires i < sb.ninodes && fbn == off / 1024 < MAXFILE && off < end
    requires NoneFrom(sb, fs, i, off) && OnlyMapped(sb, fs, fs1, i, fbn)
    requires forall j, t {:trigger Entry(sb, fs2, j, t)} :: At(fs1, j, t) ==>
      Entry(sb, fs2, j, t) == Entry(sb, fs1, j, t)
    ensures NoneFrom(sb, fs2, i, end)
  {
    forall bn | 0 <= bn < MAXFILE && end <= bn * 1024
      ensures Entry(sb, fs2, i, SlotOf(bn)) == 0
    {
      assert Entry(sb, fs1, i, SlotOf(bn)) == Entry(sb, fs, i, SlotOf(bn));
    }
  }

  lemma CopyShows(sb: Super, img: seq<Block>, fs: Fs, free: nat, i: nat, off: nat, chunk: seq<Byte>)
    requires Owned(sb, fs) && Shows(sb, img, fs, free)
    requires i < sb.ninodes && off < MAXBYTES && off % 1024 + |chunk| <= 1024
    requires Entry(sb, fs, i, SlotOf(off / 1024)) != 0
    ensures var x := Entry(sb, fs, i, SlotOf(off / 1024));
      && sb.datastart <= x < free
      && Shows(sb, img[x := Patch(img[x], off % 1024, chunk)], Copied(sb, fs, i, off, chunk), free)
  {
  }

  // ---- the bitmap block and the blank image ----

  /** The bits below n set: what balloc's loop computes. */
  function LowBits(n: nat): (b: Block)
    requires n <= BPB
    ensures |b| == BSIZE
  {
    if n == 0 then ZeroBlock() else Flip(LowBits(n - 1), n - 1)
  }

  lemma ZeroByteBits(k: nat)
    ensures !ByteBit(0, k)
  {
  }

  lemma LowBitsNone(i: nat)
    requires i < BPB
    ensures !Bit(LowBits(0), i)
  {
    ZeroByteBits(i % 8);
  }

  lemma {:induction false} LowBitsBelow(n: nat, i: nat)
    requires n <= BPB && i < BPB
    ensures Bit(LowBits(n), i) <==> i < n
  {
    hide Flip;
    hide Bit;
    if n == 0 {
      LowBitsNone(i);
    } else {
      LowBitsBelow(n - 1, i);
      LowBitsBelow(n - 1, n - 1);
      FlipFlips(LowBits(n - 1), n - 1, i);
      assert LowBits(n) == Flip(LowBits(n - 1), n - 1);
    }
  }

  lemma LowBitsExact(n: nat)
    requires n <= BPB
    ensures forall i :: 0 <= i < BPB ==> (Bit(LowBits(n), i) <==> i < n)
  {
    forall i | 0 <= i < BPB {
      LowBitsBelow(n, i);
    }
  }

  /** mkfs's balloc. */
  method Balloc(used: nat) returns (buf: Block)
    requires used < BPB
    ensures |buf| == BSIZE && forall i :: 0 <= i < BPB ==> (Bit(buf, i) <==> i < used)
  {
    buf := ZeroBlock();
    var i := 0;
    while i < used
      invariant 0 <= i <= used && buf == LowBits(i)
    {
      buf := Flip(buf, i);
      i := i + 1;
    }
    LowBitsExact(used);
  }

  function Blank(): (n: Inode)
    ensures InodeOk(n)
  {
    Inode(0, 0, 0, 0, 0, seq(NDIRECT + 1, _ => 0))
  }

  ghost predicate BlankFrom(fs: Fs, free: nat) {
    forall i :: free <= i < |fs.inodes| ==> fs.inodes[i] == Blank()
  }

  ghost function BlankFs(sb: Super): Fs
    requires Storable(sb) && sb.datastart == sb.bmapstart + 1 < sb.size
  {
    Fs(seq(sb.size, _ => ZeroBlock())[1 := SuperBlock(sb)][sb.bmapstart := LowBits(sb.datastart)],
      seq(sb.ninodes, _ => Blank()), map[])
  }

  lemma ZeroWord(j: nat)
    requires j < 256
    ensures Word(ZeroBlock(), j) == 0
  {
  }

  lemma BlankInv(sb: Super)
    requires Storable(sb) && sb.datastart == sb.bmapstart + 1 < sb.size
    ensures Inv(sb, BlankFs(sb))
    ensures forall i, s {:trigger Entry(sb, BlankFs(sb), i, s)} :: At(BlankFs(sb), i, s) ==>
      Entry(sb, BlankFs(sb), i, s) == 0
  {
    var fs := BlankFs(sb);
    forall b | 0 <= b < sb.size
      ensures Used(sb, fs, b) <==> b < sb.datastart
    {
      RegionsDisjoint'(sb, b);
      LowBitsBelow(sb.datastart, b % 8192);
    }
  }

  lemma BlankDisk(idx: nat)
    requires idx < 16
    ensures GetInode(ZeroBlock(), idx) == Blank()
  {
    var ws := GetWords(ZeroBlock(), 16 * idx, 16);
    forall k | 0 <= k < 16
      ensures ws[k] == 0
    {
      ZeroWord(16 * idx + k);
    }
    assert ws[3..] == Blank().addrs;
  }

  lemma BlankTidy(sb: Super)
    requires Storable(sb) && sb.datastart == sb.bmapstart + 1 < sb.size
    ensures Inv(sb, BlankFs(sb)) && AllTidy(sb, BlankFs(sb))
  {
    hide EntriesOwned;
    hide OwnersReal;
    hide BitmapExact;
    hide Tidy;
    hide BlankFs;
    BlankInv(sb);
    var fs := BlankFs(sb);
    forall i | 0 <= i < sb.ninodes
      ensures Tidy(sb, fs, i)
    {
      BlankTidyAt(sb, fs, i);
    }
  }

  lemma BlankTidyAt(sb: Super, fs: Fs, i: nat)
    requires Storable(sb) && sb.datastart == sb.bmapstart + 1 < sb.size
    requires fs == BlankFs(sb) && Shape(sb, fs) && i < sb.ninodes
    requires forall i, s {:trigger Entry(sb, fs, i, s)} :: At(fs, i, s) ==> Entry(sb, fs, i, s) == 0
    ensures Tidy(sb, fs, i)
  {
    hide LowBits;
    hide SuperBlock;
    hide GetInode;
    hide Entry;
    RegionsDisjoint(sb, i, 0);
    BlankDisk(i % 16);
    assert fs.disk[IBlock(sb, i)] == ZeroBlock();
  }

  /** Inode i has come into use with no content; all else is as before. */
  ghost predicate Allocated(sb: Super, fs0: Fs, fs: Fs, i: nat)
    requires Shape(sb, fs0) && Shape(sb, fs) && i < sb.ninodes
  {
    && Content(sb, fs, i) == []
    && forall j :: 0 <= j < sb.ninodes && j != i ==>
         fs.inodes[j] == fs0.inodes[j] && Content(sb, fs, j) == Content(sb, fs0, j)
  }

  ghost function Retyped(fs: Fs, i: nat, n: Inode): Fs
    requires i < |fs.inodes|
  {
    fs.(inodes := fs.inodes[i := n])
  }

  lemma RetypedKeeps(sb: Super, fs: Fs, i: nat, n: Inode)
    requires Inv(sb, fs) && i < sb.ninodes && InodeOk(n) && n.addrs == fs.inodes[i].addrs
    ensures var fs1 := Retyped(fs, i, n);
      && Inv(sb, fs1) && SameFiles(sb, fs, fs1)
      && forall j, t {:trigger Entry(sb, fs1, j, t)} :: At(fs, j, t) ==> Entry(sb, fs1, j, t) == Entry(sb, fs, j, t)
  {
    var fs1 := Retyped(fs, i, n);
    assert Shape(sb, fs1);
    assert forall j, t {:trigger Entry(sb, fs1, j, t)} :: At(fs, j, t) ==> Entry(sb, fs1, j, t) == Entry(sb, fs, j, t);
    BitmapUntouched(sb, fs, fs1);
  }

  lemma RetypedBlocks(sb: Super, fs: Fs, fs1: Fs, fs2: Fs, i: nat, n: Inode, j: nat)
    requires Inv(sb, fs) && i < sb.ninodes && InodeOk(n)
    requires n.addrs == fs.inodes[i].addrs && n.size == fs.inodes[i].size == 0
    requires fs1 == Retyped(fs, i, n) && Inv(sb, fs1) && fs2 == Updated(sb, fs1, i) && j < sb.ninodes
    ensures Inv(sb, fs2) && fs2.inodes == fs1.inodes
    ensures forall bn {:trigger Entry(sb, fs2, j, SlotOf(bn))} :: 0 <= bn < MAXFILE ==>
      Entry(sb, fs2, j, SlotOf(bn)) == Entry(sb, fs, j, SlotOf(bn))
    ensures forall bn {:trigger FileBlock(sb, fs2, j, bn)} :: 0 <= bn < MAXFILE ==>
      FileBlock(sb, fs2, j, bn) == FileBlock(sb, fs, j, bn)
  {
    hide EntriesOwned;
    hide OwnersReal;
    hide BitmapExact;
    hide Entry;
    hide FileBlock;
    RetypedKeeps(sb, fs, i, n);
    UpdatedFacts(sb, fs1, i);
    forall bn | 0 <= bn < MAXFILE
      ensures Entry(sb, fs2, j, SlotOf(bn)) == Entry(sb, fs, j, SlotOf(bn))
      ensures FileBlock(sb, fs2, j, bn) == FileBlock(sb, fs, j, bn)
    {
      assert Entry(sb, fs1, j, SlotOf(bn)) == Entry(sb, fs, j, SlotOf(bn));
      assert FileBlock(sb, fs1, j, bn) == FileBlock(sb, fs, j, bn);
    }
  }

  lemma RetypedFile(sb: Super, fs: Fs, fs1: Fs, fs2: Fs, i: nat, n: Inode, j: nat)
    requires Inv(sb, fs) && i < sb.ninodes && InodeOk(n)
    requires n.addrs == fs.inodes[i].addrs && n.size == fs.inodes[i].size == 0
    requires fs1 == Retyped(fs, i, n) && Inv(sb, fs1) && fs2 == Updated(sb, fs1, i) && j < sb.ninodes && Tidy(sb, fs, j)
    ensures Inv(sb, fs2) && Tidy(sb, fs2, j) && Content(sb, fs2, j) == Content(sb, fs, j)
  {
    hide EntriesOwned;
    hide OwnersReal;
    hide BitmapExact;
    hide Entry;
    hide FileBlock;
    hide Updated;
    hide Content;
    RetypedBlocks(sb, fs, fs1, fs2, i, n, j);
    UpdatedSyncs(sb, fs1, i, j);
    SameContent(sb, fs, fs2, j);
  }

  lemma SameContent(sb: Super, fs: Fs, fs2: Fs, j: nat)
    requires Shape(sb, fs) && Shape(sb, fs2) && j < sb.ninodes && fs2.inodes[j].size == fs.inodes[j].size
    requires forall bn {:trigger FileBlock(sb, fs2, j, bn)} :: 0 <= bn < MAXFILE ==>
      FileBlock(sb, fs2, j, bn) == FileBlock(sb, fs, j, bn)
    ensures Content(sb, fs2, j) == Content(sb, fs, j)
  {
    hide FileBlock;
    forall o | 0 <= o < fs.inodes[j].size
      ensures ByteAt(sb, fs2, j, o) == ByteAt(sb, fs, j, o)
    {
    }
  }

  lemma RetypedFacts(sb: Super, img: seq<Block>, fs: Fs, free: nat, i: nat, n: Inode) returns (fs1: Fs)
    requires Inv(sb, fs) && AllTidy(sb, fs) && Shows(sb, img, fs, free) && i < sb.ninodes && fs.inodes[i] == Blank()
    requires InodeOk(n) && n.addrs == Blank().addrs && n.size == 0
    ensures Shape(sb, fs1) && Shows(sb, img, fs1, free) && fs1 == Retyped(fs, i, n)
    ensures var fs2 := Updated(sb, fs1, i);
      Inv(sb, fs2) && AllTidy(sb, fs2) && Allocated(sb, fs, fs2, i)
  {
    hide Content;
    hide Tidy;
    hide Entry;
    fs1 := Retyped(fs, i, n);
    RetypedKeeps(sb, fs, i, n);
    var fs2 := Updated(sb, fs1, i);
    UpdatedFacts(sb, fs1, i);
    forall j | 0 <= j < sb.ninodes
      ensures Tidy(sb, fs2, j) && Content(sb, fs2, j) == Content(sb, fs, j)
    {
      RetypedFile(sb, fs, fs1, fs2, i, n, j);
    }
  }

  // ---- finishing the image ----

  /** The root directory at its rounded size. */
  lemma RoundedFacts(sb: Super, fs0: Fs, fs2: Fs, i: nat, off: nat)
    requires Inv(sb, fs0) && AllTidy(sb, fs0) && i < sb.ninodes
    requires off == (fs0.inodes[i].size / 1024 + 1) * 1024 <= MAXBYTES && fs2 == Finished(sb, fs0, i, off)
    ensures Inv(sb, fs2) && SameFiles(sb, fs0, fs2)
    ensures SameMap(sb, fs0, fs2)
    ensures forall j :: 0 <= j < sb.ninodes ==> Synced(sb, fs2, j)
    ensures NoHoles(sb, fs2, i) <==> fs0.inodes[i].size % 1024 != 0
  {
    FinishedFacts(sb, fs0, i, off);
    forall j | 0 <= j < sb.ninodes
      ensures Synced(sb, fs2, j)
    {
      assert Tidy(sb, fs0, j);
      FinishedDisk(sb, fs0, i, off, j);
    }
    assert Tidy(sb, fs0, i);
    RoundedHole(sb, fs0, fs2, i, off);
  }

  lemma RoundedHole(sb: Super, fs0: Fs, fs2: Fs, i: nat, off: nat)
    requires Shape(sb, fs0) && Shape(sb, fs2) && SameMap(sb, fs0, fs2) && i < sb.ninodes
    requires NoHoles(sb, fs0, i) && NoneFrom(sb, fs0, i, fs0.inodes[i].size)
    requires off == (fs0.inodes[i].size / 1024 + 1) * 1024 == fs2.inodes[i].size
    ensures NoHoles(sb, fs2, i) <==> fs0.inodes[i].size % 1024 != 0
  {
    var size := fs0.inodes[i].size;
    if size % 1024 == 0 {
      var bn := size / 1024;
      assert bn * BSIZE < off && Entry(sb, fs2, i, SlotOf(bn)) == Entry(sb, fs0, i, SlotOf(bn)) == 0;
    } else {
      forall bn | 0 <= bn < MAXFILE && bn * BSIZE < off
        ensures Entry(sb, fs2, i, SlotOf(bn)) != 0
      {
        assert bn * BSIZE < size;
        assert Entry(sb, fs2, i, SlotOf(bn)) == Entry(sb, fs0, i, SlotOf(bn));
      }
    }
  }

  lemma SealedSame(sb: Super, img: seq<Block>, fs: Fs, free: nat, buf: Block, done: Fs)
    requires Inv(sb, fs) && Shows(sb, img, fs, free) && sb.datastart == sb.bmapstart + 1 && |buf| == BSIZE
    requires done == Fs(img[sb.bmapstart := buf], fs.inodes, fs.owner)
    ensures Shape(sb, done) && SameFiles(sb, fs, done)
    ensures forall b :: 0 <= b < sb.size && b != sb.bmapstart ==> done.disk[b] == fs.disk[b]
    ensures SameMap(sb, fs, done)
  {
    forall j | 0 <= j < |fs.inodes| && 0 < fs.inodes[j].addrs[NDIRECT] < sb.size
      ensures done.disk[fs.inodes[j].addrs[NDIRECT]] == fs.disk[fs.inodes[j].addrs[NDIRECT]]
    {
      IndirectOwned(sb, fs, j);
    }
    EntriesUnchanged(sb, fs, done);
    forall j, bn | 0 <= j < sb.ninodes && 0 <= bn < MAXFILE
      ensures FileBlock(sb, done, j, bn) == FileBlock(sb, fs, j, bn)
    {
      assert Entry(sb, done, j, SlotOf(bn)) == Entry(sb, fs, j, SlotOf(bn));
    }
  }

  lemma ShowsBound(sb: Super, img: seq<Block>, fs: Fs, free: nat)
    requires Shape(sb, fs) && Shows(sb, img, fs, free)
    ensures |img| == sb.size && sb.bmapstart <= sb.datastart <= free <= sb.size && FrontOk(sb, img)
  {
  }

  lemma SealedFacts(sb: Super, fs0: Fs, fs2: Fs, img: seq<Block>, free: nat, buf: Block, root: nat, off: nat)
    returns (done: Fs)
    requires Inv(sb, fs0) && AllTidy(sb, fs0) && root < sb.ninodes && sb.datastart == sb.bmapstart + 1
    requires off == (fs0.inodes[root].size / 1024 + 1) * 1024 <= MAXBYTES && fs2 == Finished(sb, fs0, root, off)
    requires Shape(sb, fs2) && Shows(sb, img, fs2, free)
    requires |buf| == BSIZE && forall i :: 0 <= i < BPB ==> (Bit(buf, i) <==> i < free)
    ensures |img| == sb.size && done.disk == img[sb.bmapstart := buf] && FrontOk(sb, done.disk)
    ensures Inv(sb, done) && Mountable(sb, fs0, done, root)
  {
    hide EntriesOwned;
    hide OwnersReal;
    hide BitmapExact;
    hide Finished;
    hide Mountable;
    hide FrontOk;
    hide Tidy;
    ShowsBound(sb, img, fs2, free);
    done := Fs(img[sb.bmapstart := buf], fs2.inodes, fs2.owner);
    RoundedFacts(sb, fs0, fs2, root, off);
    SealedFront(sb, img, buf);
    SealedInv(sb, img, fs2, free, buf, done);
    SealedMountable(sb, fs0, fs2, done, root, off);
  }

  lemma SealedFront(sb: Super, img: seq<Block>, buf: Block)
    requires FrontOk(sb, img) && sb.bmapstart < sb.size
    ensures FrontOk(sb, img[sb.bmapstart := buf])
  {
  }

  /** With the bitmap written the image itself satisfies the invariant. */
  lemma SealedInv(sb: Super, img: seq<Block>, fs: Fs, free: nat, buf: Block, done: Fs)
    requires Inv(sb, fs) && Shows(sb, img, fs, free) && sb.datastart == sb.bmapstart + 1 && |buf| == BSIZE
    requires done == Fs(img[sb.bmapstart := buf], fs.inodes, fs.owner)
    requires forall i :: 0 <= i < BPB ==> (Bit(buf, i) <==> i < free)
    ensures Inv(sb, done) && SameFiles(sb, fs, done)
    ensures forall b :: 0 <= b < sb.size && b != sb.bmapstart ==> done.disk[b] == fs.disk[b]
    ensures SameMap(sb, fs, done)
  {
    SealedSame(sb, img, fs, free, buf, done);
    forall b | 0 <= b < sb.size
      ensures Used(sb, done, b) <==> b < sb.datastart || b in done.owner
    {
      RegionsDisjoint'(sb, b);
    }
  }

  /** An image ready to mount: each file is on disk as in core, with the bytes that were appended
      to it, and without holes; but the root directory has one if and only if it filled its blocks
      before its size was rounded up. */
  ghost predicate Mountable(sb: Super, fs0: Fs, done: Fs, root: nat)
    requires Shape(sb, fs0) && Shape(sb, done) && root < sb.ninodes
  {
    && (forall j :: 0 <= j < sb.ninodes ==> Synced(sb, done, j))
    && (forall j :: 0 <= j < sb.ninodes && j != root ==>
          NoHoles(sb, done, j) && Content(sb, done, j) == Content(sb, fs0, j))
    && (forall o :: 0 <= o < fs0.inodes[root].size ==> ByteAt(sb, done, root, o) == ByteAt(sb, fs0, root, o))
    && (NoHoles(sb, done, root) <==> fs0.inodes[root].size % 1024 != 0)
    && done.inodes[root].size == (fs0.inodes[root].size / 1024 + 1) * 1024
  }

  ghost predicate SameMap(sb: Super, fs: Fs, fs': Fs)
    requires Shape(sb, fs) && Shape(sb, fs')
  {
    forall a, t {:trigger Entry(sb, fs', a, t)} :: At(fs, a, t) ==> Entry(sb, fs', a, t) == Entry(sb, fs, a, t)
  }

  lemma SameMapHoles(sb: Super, fs: Fs, fs': Fs, j: nat)
    requires Shape(sb, fs) && Shape(sb, fs') && SameMap(sb, fs, fs')
    requires j < sb.ninodes && fs'.inodes[j].size == fs.inodes[j].size
    ensures NoHoles(sb, fs', j) == NoHoles(sb, fs, j)
  {
    assert forall bn :: 0 <= bn < MAXFILE ==> Entry(sb, fs', j, SlotOf(bn)) == Entry(sb, fs, j, SlotOf(bn));
  }

  lemma SameFileBytes(sb: Super, fs: Fs, fs1: Fs, fs2: Fs, j: nat)
    requires Shape(sb, fs) && Shape(sb, fs1) && Shape(sb, fs2) && j < sb.ninodes
    requires SameFiles(sb, fs, fs1) && SameFiles(sb, fs1, fs2)
    ensures forall o :: 0 <= o < fs.inodes[j].size ==> ByteAt(sb, fs2, j, o) == ByteAt(sb, fs, j, o)
    ensures fs2.inodes[j].size == fs.inodes[j].size ==> Content(sb, fs2, j) == Content(sb, fs, j)
  {
    forall o | 0 <= o < fs.inodes[j].size
      ensures ByteAt(sb, fs2, j, o) == ByteAt(sb, fs, j, o)
    {
      assert FileBlock(sb, fs1, j, o / 1024) == FileBlock(sb, fs, j, o / 1024);
    }
  }

  lemma SealedMountable(sb: Super, fs0: Fs, fs2: Fs, done: Fs, root: nat, off: nat)
    requires Inv(sb, fs0) && AllTidy(sb, fs0) && Inv(sb, fs2) && Inv(sb, done) && root < sb.ninodes
    requires off == (fs0.inodes[root].size / 1024 + 1) * 1024 <= MAXBYTES && fs2 == Finished(sb, fs0, root, off)
    requires SameFiles(sb, fs0, fs2) && SameFiles(sb, fs2, done) && done.inodes == fs2.inodes
    requires forall j :: 0 <= j < sb.ninodes ==> Synced(sb, fs2, j)
    requires forall b :: 0 <= b < sb.size && b != sb.bmapstart ==> done.disk[b] == fs2.disk[b]
    requires SameMap(sb, fs0, fs2) && SameMap(sb, fs2, done)
    requires NoHoles(sb, fs2, root) <==> fs0.inodes[root].size % 1024 != 0
    ensures Mountable(sb, fs0, done, root)
  {
    forall j | 0 <= j < sb.ninodes
      ensures Synced(sb, done, j)
      ensures j != root ==> NoHoles(sb, done, j) && Content(sb, done, j) == Content(sb, fs0, j)
    {
      SealedSynced(sb, fs2, done, j);
      if j != root {
        assert Tidy(sb, fs0, j);
        SealedFile(sb, fs0, fs2, done, j);
      }
    }
    SameFileBytes(sb, fs0, fs2, done, root);
    SameMapHoles(sb, fs2, done, root);
  }

  lemma SealedSynced(sb: Super, fs2: Fs, done: Fs, j: nat)
    requires Shape(sb, fs2) && Shape(sb, done) && j < sb.ninodes && done.inodes == fs2.inodes && Synced(sb, fs2, j)
    requires forall b :: 0 <= b < sb.size && b != sb.bmapstart ==> done.disk[b] == fs2.disk[b]
    ensures Synced(sb, done, j)
  {
    RegionsDisjoint(sb, j, 0);
  }

  lemma SealedFile(sb: Super, fs0: Fs, fs2: Fs, done: Fs, j: nat)
    requires Shape(sb, fs0) && Shape(sb, fs2) && Shape(sb, done) && j < sb.ninodes && NoHoles(sb, fs0, j)
    requires SameFiles(sb, fs0, fs2) && SameFiles(sb, fs2, done) && SameMap(sb, fs0, fs2) && SameMap(sb, fs2, done)
    requires fs0.inodes[j].size == fs2.inodes[j].size == done.inodes[j].size
    ensures NoHoles(sb, done, j) && Content(sb, done, j) == Content(sb, fs0, j)
  {
    SameMapHoles(sb, fs0, fs2, j);
    SameMapHoles(sb, fs2, done, j);
    SameFileBytes(sb, fs0, fs2, done, j);
  }

  // ---- main ----

  /** FSSIZE 2000, NINODES 200, 30 log blocks, 13 inode blocks and one bitmap block. */
  const SB: Super := Super(2000, 200, 32, 45, 46)
  const ROOTINO: nat := 1
  const T_DIR: nat := 1
  const T_FILE: nat := 2

  /** A file to put in the image: its argument on the command line and its bytes. */
  datatype Source = Source(arg: seq<Byte>, data: seq<Byte>)

  /** The argument without "user/" in front. */
  function Stripped(arg: seq<Byte>): seq<Byte> {
    if [117, 115, 101, 114, 47] <= arg then arg[5..] else arg
  }

  /** .. and then without one leading underscore: the name in the directory. */
  function ShortName(arg: seq<Byte>): seq<Byte> {
    var s := Stripped(arg);
    if s != [] && s[0] == 95 then s[1..] else s
  }

  /** mkfs refuses a name with a slash. */
  predicate Plain(f: Source) {
    47 !in Stripped(f.arg)
  }

  /** "." and "..", both the root. */
  const DOTS: seq<Byte> := Dirent(ROOTINO, [46]) + Dirent(ROOTINO, [46, 46])

  /** The directory entries of the first k files. */
  function Entries(files: seq<Source>, k: nat): (r: seq<Byte>)
    requires k <= |files|
    ensures |r| == 16 * k
  {
    if k == 0 then [] else Entries(files, k - 1) + Dirent(k + 1, ShortName(files[k - 1].arg))
  }

  /** The root directory has the two dots and the entries of the first k files, which inodes 2, 3, ... hold. */
  ghost predicate Holds(sb: Super, fs: Fs, files: seq<Source>, k: nat)
    requires Shape(sb, fs)
  {
    && ROOTINO < sb.ninodes && k <= |files| && (k > 0 ==> k + 1 < sb.ninodes)
    && Content(sb, fs, ROOTINO) == DOTS + Entries(files, k)
    && forall m :: 0 <= m < k ==> Content(sb, fs, m + 2) == files[m].data
  }

  /** `while ((cc = read(fd, buf, sizeof(buf))) > 0) iappend(inum, buf, cc)` */
  method AppendFile(im: Image, i: nat, data: seq<Byte>) returns (fits: bool)
    requires im.Valid() && i < im.sb.ninodes && i < im.freeinode && Content(im.sb, im.fs, i) == []
    modifies im`img, im`freeblock, im`fs
    ensures fits ==> im.Valid() && Appended(im.sb, old(im.fs), im.fs, i, data)
    ensures !fits ==> im.freeblock == im.sb.size || |data| > MAXBYTES
  {
    var at := 0;
    fits := true;
    ghost var fs0 := im.fs;
    while at < |data|
      invariant 0 <= at <= |data| && fits && im.Valid() && Appended(im.sb, fs0, im.fs, i, data[..at])
    {
      var cc := if |data| - at < BSIZE then |data| - at else BSIZE;
      ghost var fs1 := im.fs;
      assert fs1.inodes[i].size == |Content(im.sb, fs1, i)| == at;
      fits := im.Iappend(i, data[at..at + cc]);
      if !fits {
        return;
      }
      assert data[..at] + data[at..at + cc] == data[..at + cc];
      at := at + cc;
    }
    assert data[..at] == data;
  }

  lemma RootHolds(fs: Fs, files: seq<Source>)
    requires Shape(SB, fs) && ROOTINO < SB.ninodes && Content(SB, fs, ROOTINO) == DOTS
    ensures Holds(SB, fs, files, 0)
  {
    hide Content;
    assert DOTS + Entries(files, 0) == DOTS;
  }

  lemma HoldsBound(fs: Fs, files: seq<Source>)
    requires Shape(SB, fs) && Holds(SB, fs, files, |files|)
    ensures |files| + 2 <= SB.ninodes
  {
  }

  lemma MountableIs(sb: Super, fs0: Fs, done: Fs, root: nat)
    requires Shape(sb, fs0) && Shape(sb, done) && root < sb.ninodes && Mountable(sb, fs0, done, root)
    ensures forall j :: 0 <= j < sb.ninodes ==> Synced(sb, done, j)
    ensures forall j :: 0 <= j < sb.ninodes && j != root ==> NoHoles(sb, done, j)
  {
  }

  /** mkfs.  If everything fits, the image satisfies the file system's invariant, has a super block and
      an empty log, holds the given files and a directory of them, and has no hole but possibly one in
      the root directory: exactly when the number of directory entries is a multiple of 64.  It fits
      unless there are too many files, one is too large or has a slash in its name, or all blocks of
      the image are taken. */
  method MakeImage(files: seq<Source>) returns (fits: bool, img: seq<Block>, used: nat, ghost done: Fs)
    ensures fits ==> |img| == SB.size && Inv(SB, done) && done.disk == img && FrontOk(SB, img)
    ensures fits ==> forall j :: 0 <= j < SB.ninodes ==> Synced(SB, done, j)
    ensures fits ==> |files| + 2 <= SB.ninodes && forall m :: 0 <= m < |files| ==>
      Content(SB, done, m + 2) == files[m].data
    ensures fits ==> var dir := DOTS + Entries(files, |files|);
      |dir| <= done.inodes[ROOTINO].size && forall o :: 0 <= o < |dir| ==> ByteAt(SB, done, ROOTINO, o) == dir[o]
    ensures fits ==> forall j :: 0 <= j < SB.ninodes && j != ROOTINO ==> NoHoles(SB, done, j)
    ensures fits ==> (NoHoles(SB, done, ROOTINO) <==> (|files| + 2) % 64 != 0)
    ensures fits ==> forall m :: 0 <= m < |files| ==> Plain(files[m])
    ensures !fits ==> used == SB.size || |files| + 2 > SB.ninodes || exists m ::
      0 <= m < |files| && (|files[m].data| > MAXBYTES || !Plain(files[m]))
  {
    hide EntriesOwned;
    hide OwnersReal;
    hide BitmapExact;
    hide Content;
    hide ByteAt;
    hide NoHoles;
    hide Tidy;
    hide Shows;
    hide FrontOk;
    hide Synced;
    hide Entries;
    hide Holds;
    hide Mountable;
    var im := new Image(SB);
    done, img, used := im.fs, im.img, im.freeblock;
    fits := StartRoot(im);
    used := im.freeblock;
    if !fits { return; }
    RootHolds(im.fs, files);
    var k := 0;
    while k < |files|
      invariant 0 <= k <= |files| && fits && im.sb == SB && im.Valid() && im.freeinode == k + 2 && fresh(im)
      invariant Holds(SB, im.fs, files, k) && forall m :: 0 <= m < k ==> Plain(files[m])
    {
      fits := AddFile(im, files, k);
      used := im.freeblock;
      if !fits { return; }
      k := k + 1;
    }
    ghost var fs0 := im.fs;
    HoldsBound(fs0, files);
    fits, img, done := Seal(im, files);
    MountableIs(SB, fs0, done, ROOTINO);
    used := im.freeblock;
  }

  /** The root directory with its first two entries. */
  method StartRoot(im: Image) returns (fits: bool)
    requires im.sb == SB && im.Valid() && im.freeinode == ROOTINO
    modifies im
    ensures fits ==> im.Valid() && im.freeinode == 2 && Content(SB, im.fs, ROOTINO) == DOTS
    ensures !fits ==> im.freeblock == SB.size
  {
    hide EntriesOwned;
    hide OwnersReal;
    hide BitmapExact;
    hide Content;
    hide ByteAt;
    hide NoHoles;
    hide Tidy;
    hide Shows;
    hide Dirent;
    var root;
    fits, root := im.Ialloc(T_DIR);
    ghost var fs1 := im.fs;
    assert fs1.inodes[root].size == 0;
    var dot, dotdot := Dirent(root, [46]), Dirent(root, [46, 46]);
    fits := im.Iappend(root, dot);
    if fits {
      assert im.fs.inodes[root].size == |Content(SB, im.fs, root)| == 16;
      fits := im.Iappend(root, dotdot);
    }
  }

  lemma ContentAt(sb: Super, fs: Fs, i: nat, o: nat)
    requires Shape(sb, fs) && i < |fs.inodes| && o < fs.inodes[i].size
    ensures Content(sb, fs, i)[o] == ByteAt(sb, fs, i, o)
  {
  }

  /** A directory fills its last block exactly when the number of entries is a multiple of 64. */
  lemma WholeBlocks(n: nat)
    ensures 16 * n % 1024 != 0 <==> n % 64 != 0
  {
    var q, r := n / 64, n % 64;
    assert n == 64 * q + r;
    Quotient(16 * n, 1024, q, 16 * r);
  }

  /** What finishing the image makes of the directory. */
  method Seal(im: Image, files: seq<Source>) returns (fits: bool, img: seq<Block>, ghost done: Fs)
    requires im.sb == SB && im.Valid() && im.freeinode == |files| + 2
    requires Holds(SB, im.fs, files, |files|)
    modifies im
    ensures FrontOk(SB, img)
    ensures fits && |img| == SB.size && Inv(SB, done) && done.disk == img && Mountable(SB, old(im.fs), done, ROOTINO)
    ensures forall m :: 0 <= m < |files| ==> Content(SB, done, m + 2) == files[m].data
    ensures var dir := DOTS + Entries(files, |files|);
      |dir| <= done.inodes[ROOTINO].size && forall o :: 0 <= o < |dir| ==> ByteAt(SB, done, ROOTINO, o) == dir[o]
    ensures NoHoles(SB, done, ROOTINO) <==> (|files| + 2) % 64 != 0
    ensures im.freeblock == old(im.freeblock)
  {
    hide EntriesOwned;
    hide OwnersReal;
    hide BitmapExact;
    hide Content;
    hide ByteAt;
    hide NoHoles;
    hide Tidy;
    hide Shows;
    hide FrontOk;
    hide Dirent;
    ghost var fs0, dir := im.fs, DOTS + Entries(files, |files|);
    assert fs0.inodes[ROOTINO].size == |Content(SB, fs0, ROOTINO)| == |dir| == 16 * (|files| + 2);
    WholeBlocks(|files| + 2);
    ShowsBound(SB, im.img, fs0, im.freeblock);
    fits, done := im.Finish(ROOTINO);
    img := im.img;
    forall o | 0 <= o < |dir|
      ensures ByteAt(SB, done, ROOTINO, o) == dir[o]
    {
      ContentAt(SB, fs0, ROOTINO, o);
    }
  }

  method AddFile(im: Image, files: seq<Source>, k: nat) returns (fits: bool)
    requires im.sb == SB && im.Valid() && im.freeinode == k + 2 && k < |files|
    requires Holds(SB, im.fs, files, k)
    modifies im
    ensures fits ==> im.Valid() && im.freeinode == k + 3 && Holds(SB, im.fs, files, k + 1) && Plain(files[k])
    ensures !fits ==> im.freeblock == SB.size || k + 2 >= SB.ninodes || |files[k].data| > MAXBYTES || !Plain(files[k])
  {
    hide EntriesOwned;
    hide OwnersReal;
    hide BitmapExact;
    hide Content;
    hide ByteAt;
    hide NoHoles;
    hide Tidy;
    hide Shows;
    hide Dirent;
    hide Stripped;
    hide ShortName;
    hide FrontOk;
    ghost var fs0 := im.fs;
    if 47 in Stripped(files[k].arg) {
      return false;
    }
    var i;
    fits, i := im.Ialloc(T_FILE);
    if !fits { return; }
    var de := Dirent(i, ShortName(files[k].arg));
    ghost var fs1 := im.fs;
    assert fs1.inodes[ROOTINO].size == |Content(SB, fs1, ROOTINO)| == 16 * (k + 2);
    fits := im.Iappend(ROOTINO, de);
    if !fits { return; }
    ghost var fs2 := im.fs;
    fits := AppendFile(im, i, files[k].data);
    if !fits { return; }
    forall m | 0 <= m < k
      ensures Content(SB, im.fs, m + 2) == files[m].data
    {
      assert Content(SB, fs1, m + 2) == Content(SB, fs0, m + 2);
      assert Content(SB, fs2, m + 2) == Content(SB, fs1, m + 2);
      assert Content(SB, im.fs, m + 2) == Content(SB, fs2, m + 2);
    }
    assert DOTS + Entries(files, k + 1) == DOTS + Entries(files, k) + de;
  }
}
