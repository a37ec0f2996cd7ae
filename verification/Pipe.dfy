/** kernel/pipe.c: the ring between writers and readers.  nread and nwrite are 32-bit counters that wrap.
    A call of `Write` or `Read` is what a process does with pi->lock held, up to where it sleeps or
    returns, so that any interleaving of readers and writers is some sequence of calls. */
module Pipe {
  const WRAP: nat := 0x1_0000_0000

  /** nwrite - nread as an unsigned int. */
  function Count(nread: nat, nwrite: nat): nat {
    (nwrite + 0x1_0000_0000 - nread) % 0x1_0000_0000
  }

  /** What the ring holds, oldest byte first. */
  function Contents(data: seq<int>, nread: nat, count: nat): (r: seq<int>)
    requires |data| == 512
    ensures |r| == count
    ensures forall i {:trigger r[i]} :: 0 <= i < count ==> r[i] == data[(nread + i) % 512]
  {
    seq(count, i requires 0 <= i < count => data[(nread + i) % 512])
  }

  lemma Full(nread: nat, nwrite: nat)
    requires nread < WRAP && nwrite < WRAP && Count(nread, nwrite) <= 512
    ensures nwrite == (nread + 512) % 0x1_0000_0000 <==> Count(nread, nwrite) == 512
    ensures nwrite == nread <==> Count(nread, nwrite) == 0
  {
  }

  /** A byte stored at nwrite goes to the end of the contents, also across the wrap of the counter. */
  lemma CountIs(nread: nat, nwrite: nat)
    requires nread < WRAP && nwrite < WRAP
    ensures Count(nread, nwrite) == if nread <= nwrite then nwrite - nread else nwrite + 0x1_0000_0000 - nread
  {
  }

  lemma CountMore(nread: nat, nwrite: nat)
    requires nread < WRAP && nwrite < WRAP && Count(nread, nwrite) < 512
    ensures Count(nread, (nwrite + 1) % 0x1_0000_0000) == Count(nread, nwrite) + 1
    ensures nwrite % 512 == (nread + Count(nread, nwrite)) % 512
  {
    CountIs(nread, nwrite);
    var w := if nwrite + 1 == 0x1_0000_0000 then 0 else nwrite + 1;
    assert (nwrite + 1) % 0x1_0000_0000 == w;
    CountIs(nread, w);
    hide Count;
    assert nread + Count(nread, nwrite) == nwrite || nread + Count(nread, nwrite) == nwrite + 512 * 8388608;
  }

  lemma SlotsDiffer(x: nat, y: nat)
    requires x < y < x + 512
    ensures x % 512 != y % 512
  {
  }

  lemma Put(data: seq<int>, nread: nat, nwrite: nat, ch: int)
    requires |data| == 512 && nread < WRAP && nwrite < WRAP && Count(nread, nwrite) < 512
    ensures var c := Count(nread, nwrite);
      && Count(nread, (nwrite + 1) % 0x1_0000_0000) == c + 1
      && Contents(data[nwrite % 512 := ch], nread, c + 1) == Contents(data, nread, c) + [ch]
  {
    var c := Count(nread, nwrite);
    CountMore(nread, nwrite);
    hide Count;
    var a, b := Contents(data[nwrite % 512 := ch], nread, c + 1), Contents(data, nread, c);
    forall i | 0 <= i < c
      ensures a[i] == b[i]
    {
      SlotsDiffer(nread + i, nread + c);
    }
    assert a == b + [ch];
  }

  /** The byte at nread is the oldest, and what follows stays. */
  lemma CountLess(nread: nat, nwrite: nat)
    requires nread < WRAP && nwrite < WRAP && 0 < Count(nread, nwrite) <= 512
    ensures Count((nread + 1) % 0x1_0000_0000, nwrite) == Count(nread, nwrite) - 1
  {
    CountIs(nread, nwrite);
    var r := if nread + 1 == 0x1_0000_0000 then 0 else nread + 1;
    assert (nread + 1) % 0x1_0000_0000 == r;
    CountIs(r, nwrite);
  }

  lemma Get(data: seq<int>, nread: nat, nwrite: nat)
    requires |data| == 512 && nread < WRAP && nwrite < WRAP && 0 < Count(nread, nwrite) <= 512
    ensures var c := Count(nread, nwrite); var next := (nread + 1) % 0x1_0000_0000;
      && Count(next, nwrite) == c - 1
      && Contents(data, nread, c) == [data[nread % 512]] + Contents(data, next, c - 1)
  {
    var c, next := Count(nread, nwrite), (nread + 1) % 0x1_0000_0000;
    CountLess(nread, nwrite);
    hide Count;
    var a, b := Contents(data, nread, c), Contents(data, next, c - 1);
    hide Contents;
    assert a[0] == data[(nread + 0) % 512];
    forall i | 0 <= i < c - 1
      ensures a[i + 1] == b[i]
    {
      NextSlot(nread, i);
    }
    assert a == [a[0]] + a[1..] && a[1..] == b;
  }

  lemma NextSlot(nread: nat, i: nat)
    requires nread < WRAP
    ensures (nread + (i + 1)) % 512 == ((nread + 1) % 0x1_0000_0000 + i) % 512
  {
  }

  function Min(a: int, b: int): int { if a < b then a else b }

  /** The byte before which a writer that starts at byte i finds the reader gone or itself killed. */
  function GoneAt(i: nat, dead: nat, readopen: bool): nat {
    if !readopen || dead < i then i else dead
  }

  class Ring {
    var data: array<int>
    var nread: nat
    var nwrite: nat
    var readopen: bool
    var writeopen: bool
    ghost var written: seq<int>     // every byte ever stored
    ghost var removed: seq<int>     // every byte ever taken out

    /** The bytes taken out so far, followed by what the ring holds, are the bytes written. */
    ghost predicate Valid()
      reads this, data
    {
      && data.Length == 512 && nread < WRAP && nwrite < WRAP && Count(nread, nwrite) <= 512
      && written == removed + Contents(data[..], nread, Count(nread, nwrite))
    }

    constructor ()
      ensures Valid() && fresh(data) && written == [] && removed == []
      ensures Count(nread, nwrite) == 0 && readopen && writeopen
    {
      data := new int[512](_ => 0);
      nread, nwrite, readopen, writeopen := 0, 0, true, true;
      written, removed := [], [];
    }

    /** pipewrite from byte i on, until all is written, the ring is full (it sleeps), copyin fails at
        byte `fault`, or the reader is gone or the process found killed from byte `dead` on; then it
        returns -1 although the bytes before are in the pipe. */
    method Write(src: seq<int>, i: nat, fault: nat, dead: nat) returns (j: nat, sleeps: bool, fails: bool)
      requires Valid() && i <= |src|
      modifies this, data
      ensures Valid() && data == old(data) && nread == old(nread) && removed == old(removed)
      ensures i <= j <= |src| && written == old(written) + src[i..j]
      ensures readopen == old(readopen) && writeopen == old(writeopen)
      ensures var room := 512 - old(Count(nread, nwrite)); var gone := GoneAt(i, dead, readopen);
        && j == Min(Min(|src|, i + room), Min(gone, if fault < i then |src| else fault))
        && (fails <==> j < |src| && j == gone)
        && (sleeps <==> j < |src| && j != gone && j == i + room)
    {
      j, sleeps, fails := i, false, false;
      assert src[i..i] == [];
      while j < |src|
        invariant i <= j <= |src| && Valid() && data == old(data) && nread == old(nread) && removed == old(removed)
        invariant written == old(written) + src[i..j] && readopen == old(readopen) && writeopen == old(writeopen)
        invariant Count(nread, nwrite) == old(Count(nread, nwrite)) + (j - i)
        invariant j <= GoneAt(i, dead, readopen) && (i <= fault ==> j <= fault)
      {
        if !readopen || dead <= j {
          fails := true;
          return;
        }
        Full(nread, nwrite);
        if nwrite == (nread + 512) % 0x1_0000_0000 {
          sleeps := true;
          return;
        }
        if j == fault {
          break;
        }
        Store(src[j]);
        assert src[i..j + 1] == src[i..j] + [src[j]];
        j := j + 1;
      }
    }

    /** pi->data[pi->nwrite++ % PIPESIZE] = ch */
    method Store(ch: int)
      requires Valid() && Count(nread, nwrite) < 512
      modifies this, data
      ensures Valid() && data == old(data) && nread == old(nread)
      ensures removed == old(removed) && written == old(written) + [ch]
      ensures Count(nread, nwrite) == old(Count(nread, nwrite)) + 1
      ensures readopen == old(readopen) && writeopen == old(writeopen)
    {
      ghost var d, c := data[..], Count(nread, nwrite);
      Put(d, nread, nwrite, ch);
      data[nwrite % 512] := ch;
      assert data[..] == d[nwrite % 512 := ch];
      nwrite := (nwrite + 1) % 0x1_0000_0000;
      written := written + [ch];
      assert written == removed + (Contents(d, nread, c) + [ch]);
    }

    /** piperead once there is something to read or no writer is left: up to n bytes, in the order in
        which they were written.  A byte whose copyout fails is taken out of the ring all the same. */
    method Read(n: nat, fault: nat) returns (got: seq<int>, lost: bool)
      requires Valid()
      modifies this
      ensures Valid() && data == old(data) && nwrite == old(nwrite) && written == old(written)
      ensures |got| <= n && |removed| == |old(removed)| + |got| + (if lost then 1 else 0) && |removed| <= |written|
      ensures got == written[|old(removed)|..|old(removed)| + |got|]
      ensures |got| == Min(Min(n, old(Count(nread, nwrite))), fault)
      ensures lost <==> fault < n && fault < old(Count(nread, nwrite))
    {
      got, lost := [], false;
      while |got| < n
        invariant |got| <= n && Valid() && data == old(data) && nwrite == old(nwrite) && written == old(written)
        invariant removed == old(removed) + got && removed <= written
        invariant |got| <= fault && Count(nread, nwrite) + |got| == old(Count(nread, nwrite))
        decreases n - |got|
      {
        Full(nread, nwrite);
        if nread == nwrite {
          break;
        }
        var ch := Fetch();
        if |got| == fault {
          lost := true;
          return;
        }
        got := got + [ch];
      }
    }

    /** ch = pi->data[pi->nread++ % PIPESIZE] */
    method Fetch() returns (ch: int)
      requires Valid() && 0 < Count(nread, nwrite)
      modifies this
      ensures Valid() && data == old(data) && nwrite == old(nwrite) && written == old(written)
      ensures removed == old(removed) + [ch] && |old(removed)| < |written| && written[|old(removed)|] == ch
      ensures Count(nread, nwrite) + 1 == old(Count(nread, nwrite))
    {
      ghost var d, c := data[..], Count(nread, nwrite);
      Get(d, nread, nwrite);
      ch := data[nread % 512];
      nread := (nread + 1) % 0x1_0000_0000;
      removed := removed + [ch];
      assert written == removed + Contents(d, nread, c - 1);
    }
  }
}
