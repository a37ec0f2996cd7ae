/** The loops of kernel/log.c over the disk and the in-memory header, as the kernel runs them.
    `disks` records every content the disk has had, so a contract can speak about a crash after
    any prefix of a method's block writes. */
module LogDevice {
  import opened LogDisk

  ghost predicate AllLogically(l: Layout, d: Disk, ds: seq<Disk>) {
    Formatted(l, d) && forall i :: 0 <= i < |ds| ==> Formatted(l, ds[i]) && SameLogical(l, d, ds[i])
  }

  /** Logical equality may be measured from any content of the stretch. */
  lemma AllLogicallyRebase(l: Layout, d: Disk, ds: seq<Disk>, d': Disk)
    requires AllLogically(l, d, ds) && Formatted(l, d') && SameLogical(l, d, d')
    ensures AllLogically(l, d', [d] + ds + [d'])
  {
    var all := [d] + ds + [d'];
    forall i | 0 <= i < |all|
      ensures Formatted(l, all[i]) && SameLogical(l, d', all[i])
    {
      assert SameLogical(l, d, all[i]);
    }
  }

  lemma AllLogicallyNone(l: Layout, d: Disk)
    requires Formatted(l, d)
    ensures AllLogically(l, d, []) && SameLogical(l, d, d)
  {
  }

  lemma AllLogicallyMore(l: Layout, d: Disk, ds: seq<Disk>, d1: Disk, d2: Disk)
    requires AllLogically(l, d, ds) && Formatted(l, d1) && SameLogical(l, d, d1)
    requires Formatted(l, d2) && SameLogical(l, d1, d2)
    ensures AllLogically(l, d, ds + [d2]) && SameLogical(l, d, d2)
  {
  }

  /** What bread returns for block b. */
  function Cached(d: Disk, cache: map<int, Block>, b: int): Block
    requires 0 <= b < |d|
  {
    if b in cache then cache[b] else d[b]
  }

  /** Once the log holds what the cache shows, writing the header makes that the logical disk. */
  lemma MarkShows(l: Layout, d: Disk, d0: Disk, h: seq<int>, cache: map<int, Block>)
    requires Formatted(l, d) && Formatted(l, d0) && GoodHeader(l, h) && forall b :: b in cache ==> b in h
    requires forall j {:trigger h[j]} :: 0 <= j < |h| ==> d0[l.start + j + 1] == Cached(d, cache, h[j])
    requires forall b :: l.Home(b) ==> d0[b] == d[b]
    ensures Formatted(l, WithHead(l, d0, h))
    ensures forall b :: l.Home(b) ==> LogicalAt(l, WithHead(l, d0, h), b) == Cached(d, cache, b)
  {
    var d1 := WithHead(l, d0, h);
    forall b | l.Home(b)
      ensures LogicalAt(l, d1, b) == Cached(d, cache, b)
    {
      var k := Slot(h, b);
      if k < |h| {
        assert d1[l.start + 1 + k] == d0[l.start + k + 1] == Cached(d, cache, h[k]);
      }
    }
  }

  class Log {
    const l: Layout
    var disk: Disk
    var cache: map<int, Block>   // buffers pinned because they are logged but not installed
    var n: int                   // log.lh.n
    var block: array<int>        // log.lh.block
    var outstanding: int
    ghost var disks: seq<Disk>

    ghost predicate Valid()
      reads this, block
    {
      && Formatted(l, disk)
      && block.Length == LOGSIZE
      && 0 <= n <= LOGSIZE
      && disks != [] && disks[|disks| - 1] == disk
    }

    /** initlog: memory empty, and recovery run on the disk as found. */
    constructor (l: Layout, d: Disk)
      requires Formatted(l, d)
      ensures this.l == l && Valid() && fresh(block) && disk == Recover(l, d) && Header(l, disk) == []
      ensures disks[0] == d && AllLogically(l, d, disks[1..])
      ensures n == 0 && outstanding == 0 && cache == map[]
    {
      this.l := l;
      disk, disks := d, [d];
      n, outstanding, cache := 0, 0, map[];
      block := new int[LOGSIZE];
      new;
      RecoverFromLog();
    }

    /** The in-memory header. */
    ghost function Lh(): (h: seq<int>)
      requires Valid()
      reads this, block
    {
      block[..n]
    }

    function View(b: int): Block
      requires 0 <= b < |disk|
      reads this
    {
      Cached(disk, cache, b)
    }

    /** The contents the disk has had since `before` was its history; `disk` is the last of them. */
    ghost predicate Extends(before: seq<Disk>)
      reads this
    {
      |before| <= |disks| && disks[..|before|] == before
    }

    method Bwrite(b: int, v: Block)
      requires 0 <= b < |disk|
      modifies this`disk, this`disks
      ensures disk == old(disk)[b := v] && disks == old(disks) + [disk]
    {
      disk := disk[b := v];
      disks := disks + [disk];
    }

    /** log_write of a buffer holding v. */
    method LogWrite(b: int, v: Block) returns (panicked: bool)
      requires Valid() && GoodHeader(l, Lh()) && l.Home(b)
      modifies this`n, this`cache, block
      ensures Valid() && GoodHeader(l, Lh())
      ensures panicked <==> old(n) >= LOGSIZE || old(n) >= l.size - 1 || outstanding < 1
      ensures panicked ==> Lh() == old(Lh()) && cache == old(cache)
      ensures !panicked ==> Lh() == if b in old(Lh()) then old(Lh()) else old(Lh()) + [b]
      ensures !panicked ==> View(b) == v && forall c :: l.Home(c) && c != b ==> View(c) == old(View(c))
    {
      if n >= LOGSIZE || n >= l.size - 1 {
        return true;
      }
      if outstanding < 1 {
        return true;
      }
      var i := 0;
      while i < n && block[i] != b
        invariant 0 <= i <= n
        invariant b !in block[..i]
      {
        i := i + 1;
      }
      ghost var lh := Lh();
      if i < n {
        assert lh[i] == b;
      }
      block[i] := b;
      if i == n {
        n := n + 1;
        assert Lh() == lh + [b];
      } else {
        assert Lh() == lh;
      }
      cache := cache[b := v];
      panicked := false;
    }

    method WriteLog()
      requires Valid() && GoodHeader(l, Lh()) && Header(l, disk) == []
      modifies this`disk, this`disks
      ensures Valid() && Lh() == old(Lh()) && Header(l, disk) == []
      ensures Extends(old(disks))
      ensures AllLogically(l, old(disk), disks[|old(disks)|..])
      ensures forall j {:trigger block[j]} :: 0 <= j < n ==> disk[l.start + j + 1] == old(View(block[j]))
      ensures forall b :: l.Home(b) ==> disk[b] == old(disk)[b]
    {
      hide AllLogically;
      hide SameLogical;
      AllLogicallyNone(l, disk);
      assert disks[|disks|..] == [];
      var tail := 0;
      while tail < n
        invariant 0 <= tail <= n && Valid() && Lh() == old(Lh()) && Header(l, disk) == []
        invariant Extends(old(disks))
        invariant AllLogically(l, old(disk), disks[|old(disks)|..]) && SameLogical(l, old(disk), disk)
        invariant forall j {:trigger block[j]} :: 0 <= j < tail ==> disk[l.start + j + 1] == old(View(block[j]))
        invariant forall b :: l.Home(b) ==> disk[b] == old(disk)[b]
      {
        assert Lh()[tail] == block[tail];
        ghost var d1, ds := disk, disks[|old(disks)|..];
        LoggingKeepsLogical(l, disk, tail, View(block[tail]));
        Bwrite(l.start + tail + 1, View(block[tail]));
        assert disks[|old(disks)|..] == ds + [disk];
        AllLogicallyMore(l, old(disk), ds, d1, disk);
        tail := tail + 1;
      }
    }

    method WriteHead()
      requires Valid()
      requires GoodHeader(l, Lh())
      modifies this`disk, this`disks
      ensures Valid() && Lh() == old(Lh())
      ensures disk == WithHead(l, old(disk), Lh()) && disks == old(disks) + [disk]
    {
      hide LogicalAt;
      var buf := disk[l.start];
      ghost var before := buf;
      buf := buf[0 := n];
      var i := 0;
      while i < n
        invariant 0 <= i <= n && |buf| == WORDS && before == disk[l.start] && buf[0] == n
        invariant forall j {:trigger buf[j]} :: 1 <= j < WORDS ==> buf[j] == if j <= i then block[j - 1] else before[j]
      {
        buf := buf[1 + i := block[i]];
        i := i + 1;
      }
      assert buf == [n] + block[..n] + before[1 + n..];
      Bwrite(l.start, buf);
      assert disk == WithHead(l, old(disk), Lh());
    }

    method ReadHead()
      requires Valid()
      modifies this`n, block
      ensures Valid() && Lh() == Header(l, disk)
    {
      var buf := disk[l.start];
      n := buf[0];
      var i := 0;
      while i < n
        invariant 0 <= i <= n && n == buf[0] && Valid()
        invariant block[..i] == buf[1..1 + i]
      {
        block[i] := buf[1 + i];
        i := i + 1;
      }
    }

    /** One iteration of install_trans. */
    method InstallOne(tail: int, recovering: bool)
      requires Valid() && Lh() == Header(l, disk) && 0 <= tail < n && InstalledTo(l, disk, Lh(), tail)
      modifies this`disk, this`disks, this`cache
      ensures Valid() && Lh() == old(Lh()) == Header(l, disk) && InstalledTo(l, disk, Lh(), tail + 1)
      ensures disk == WithInstalled(l, old(disk), Lh(), tail) && disks == old(disks) + [disk]
      ensures SameLogical(l, old(disk), disk)
      ensures cache == if recovering then old(cache) else old(cache) - {block[tail]}
    {
      hide SameLogical;
      hide LogicalAt;
      InstallKeepsLogical(l, disk, tail);
      assert Lh()[tail] == block[tail];
      Bwrite(block[tail], disk[l.start + tail + 1]);
      if !recovering {
        cache := cache - {block[tail]};
      }
    }

    method InstallTrans(recovering: bool)
      requires Valid() && Lh() == Header(l, disk)
      modifies this`disk, this`disks, this`cache
      ensures Valid() && Lh() == old(Lh()) == Header(l, disk)
      ensures InstalledTo(l, disk, Lh(), n)
      ensures disk == InstallFrom(l, old(disk), Lh(), 0)
      ensures Extends(old(disks)) && AllLogically(l, old(disk), disks[|old(disks)|..])
      ensures SameLogical(l, old(disk), disk)
      ensures recovering ==> cache == old(cache)
      ensures !recovering ==> forall b :: b in cache ==> b in old(cache) && b !in Lh()
    {
      hide AllLogically;
      hide SameLogical;
      AllLogicallyNone(l, disk);
      assert disks[|disks|..] == [];
      var tail := 0;
      while tail < n
        invariant 0 <= tail <= n && Valid() && Lh() == old(Lh()) == Header(l, disk)
        invariant InstallFrom(l, disk, Lh(), tail) == InstallFrom(l, old(disk), Lh(), 0)
        invariant Extends(old(disks)) && AllLogically(l, old(disk), disks[|old(disks)|..])
        invariant SameLogical(l, old(disk), disk)
        invariant InstalledTo(l, disk, Lh(), tail)
        invariant recovering ==> cache == old(cache)
        invariant !recovering ==> forall b :: b in cache ==> b in old(cache) && b !in block[..tail]
      {
        ghost var d1, ds := disk, disks[|old(disks)|..];
        InstallOne(tail, recovering);
        assert disks[|old(disks)|..] == ds + [disk];
        AllLogicallyMore(l, old(disk), ds, d1, disk);
        tail := tail + 1;
      }
    }

    /** Every disk content met during recovery is logically the one it started from, so a crash
        anywhere in it and any number of repetitions make no difference; when it completes the
        disk is the recovered one. */
    method RecoverFromLog()
      requires Valid()
      modifies this`disk, this`disks, this`n, this`cache, block
      ensures Valid() && n == 0 && cache == old(cache) && Header(l, disk) == []
      ensures disk == Recover(l, old(disk))
      ensures Extends(old(disks)) && AllLogically(l, old(disk), disks[|old(disks)|..])
      ensures forall b :: l.Home(b) ==> disk[b] == LogicalAt(l, old(disk), b)
    {
      ReadHead();
      InstallTrans(true);
      RecoverIsLogical(l, old(disk));
      ClearLog();
    }

    /** `log.lh.n = 0; write_head()` once everything is installed. */
    method ClearLog()
      requires Valid() && Lh() == Header(l, disk) && InstalledTo(l, disk, Lh(), n)
      modifies this`disk, this`disks, this`n
      ensures Valid() && n == 0 && Header(l, disk) == []
      ensures disk == WithHead(l, old(disk), []) && disks == old(disks) + [disk]
      ensures SameLogical(l, old(disk), disk)
      ensures forall b :: l.Home(b) ==> disk[b] == LogicalAt(l, disk, b) == LogicalAt(l, old(disk), b)
    {
      ClearKeepsLogical(l, disk);
      n := 0;
      WriteHead();
    }

    /** write_log and the first write_head: the logical disk jumps, in one block write, from its
        old content to what the cache shows. */
    method LogAndMark()
      requires Valid() && GoodHeader(l, Lh()) && Header(l, disk) == []
      requires forall b :: b in cache ==> b in Lh()
      modifies this`disk, this`disks
      ensures Valid() && Lh() == old(Lh()) == Header(l, disk)
      ensures Extends(old(disks)) && |old(disks)| < |disks|
      ensures AllLogically(l, old(disk), disks[|old(disks)|..|disks| - 1])
      ensures forall b :: l.Home(b) ==> LogicalAt(l, disk, b) == old(View(b))
    {
      hide AllLogically;
      hide SameLogical;
      hide LogicalAt;
      hide Cached;
      WriteLog();
      ghost var d0, h, ds := disk, Lh(), disks;
      forall j | 0 <= j < |h|
        ensures d0[l.start + j + 1] == Cached(old(disk), old(cache), h[j])
      {
        assert h[j] == block[j];
      }
      WriteHead();
      MarkShows(l, old(disk), d0, h, old(cache));
      assert disks[|old(disks)|..|disks| - 1] == ds[|old(disks)|..];
    }

    /** install_trans(0) and the second write_head. */
    method InstallAndClear()
      requires Valid() && Lh() == Header(l, disk)
      requires forall b :: b in cache ==> b in Lh()
      modifies this`disk, this`disks, this`n, this`cache
      ensures Valid() && n == 0 && Header(l, disk) == []
      ensures forall b :: b !in cache
      ensures forall b :: l.Home(b) ==> disk[b] == LogicalAt(l, disk, b) == LogicalAt(l, old(disk), b)
      ensures Extends(old(disks)) && AllLogically(l, disk, [old(disk)] + disks[|old(disks)|..])
    {
      InstallTrans(false);
      ghost var middle, d2 := disks[|old(disks)|..], disk;
      ClearLog();
      assert SameLogical(l, old(disk), disk) by { assert SameLogical(l, old(disk), d2); }
      AllLogicallyRebase(l, old(disk), middle, disk);
      assert [old(disk)] + disks[|old(disks)|..] == [old(disk)] + middle + [disk];
    }

    /** Commit is atomic at every block write: each disk content met is logically the one before
        or the one after, and the one after has in every home block what the cache showed. */
    method Commit() returns (ghost m: nat)
      requires Valid() && GoodHeader(l, Lh()) && Header(l, disk) == []
      requires forall b :: b in cache ==> b in Lh()
      modifies this`disk, this`disks, this`n, this`cache
      ensures Valid() && n == 0 && Header(l, disk) == []
      ensures forall b :: b !in cache
      ensures forall b :: l.Home(b) ==> disk[b] == LogicalAt(l, disk, b) == old(View(b))
      ensures Extends(old(disks)) && |old(disks)| <= m <= |disks|
      ensures AllLogically(l, old(disk), disks[|old(disks)|..m])
      ensures AllLogically(l, disk, disks[m..])
    {
      m := |disks|;
      if n > 0 {
        LogAndMark();
        m := |disks| - 1;
        ghost var d1, first := disk, disks[|old(disks)|..m];
        ghost var before := disks;
        InstallAndClear();
        assert disks[|old(disks)|..m] == first by {
          assert disks[..|before|] == before;
          assert forall i :: 0 <= i < |before| ==> disks[i] == before[i];
        }
        assert disks[m..] == [d1] + disks[m + 1..];
      }
    }
  }
}
