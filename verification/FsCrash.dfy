/** The file system over the log: what a crash leaves of it.

    The log of kernel/log.c sees blocks of 32-bit words, kernel/fs.c blocks of bytes; `Words` turns the
    one into the other.  A transaction is what the operations between two quiet moments of the log did:
    it takes one consistent file system to another, and its log_writes are exactly that change. */
module FsCrash {
  import opened FsLayout
  import opened FsState
  import opened FsBytes
  import opened FsSuper
  import opened FsOps
  import L = LogDisk
  import S = LogSystem
  import R = LogRuns

  function Words(b: Block): (w: L.Block)
    requires |b| == BSIZE
    ensures |w| == 256
  {
    seq(256, j requires 0 <= j < 256 => Word(b, j))
  }

  lemma SameWord(a: Block, b: Block, j: nat)
    requires |a| == BSIZE && |b| == BSIZE && j < 256 && Word(a, j) == Word(b, j)
    ensures a[4 * j] == b[4 * j] && a[4 * j + 1] == b[4 * j + 1]
    ensures a[4 * j + 2] == b[4 * j + 2] && a[4 * j + 3] == b[4 * j + 3]
  {
    FourBytes(a[4 * j], a[4 * j + 1], a[4 * j + 2], a[4 * j + 3], b[4 * j], b[4 * j + 1], b[4 * j + 2], b[4 * j + 3]);
  }

  lemma FourBytes(a0: int, a1: int, a2: int, a3: int, b0: int, b1: int, b2: int, b3: int)
    requires 0 <= a0 < 256 && 0 <= a1 < 256 && 0 <= a2 < 256 && 0 <= a3 < 256
    requires 0 <= b0 < 256 && 0 <= b1 < 256 && 0 <= b2 < 256 && 0 <= b3 < 256
    requires a0 + 256 * a1 + 65536 * a2 + 16777216 * a3 == b0 + 256 * b1 + 65536 * b2 + 16777216 * b3
    ensures a0 == b0 && a1 == b1 && a2 == b2 && a3 == b3
  {
    var x2, y2 := a2 + 256 * a3, b2 + 256 * b3;
    var x1, y1 := a1 + 256 * x2, b1 + 256 * y2;
    LowByte(a0, x1, b0, y1);
    LowByte(a1, x2, b1, y2);
    LowByte(a2, a3, b2, b3);
  }

  lemma LowByte(a: int, x: int, b: int, y: int)
    requires 0 <= a < 256 && 0 <= b < 256 && a + 256 * x == b + 256 * y
    ensures a == b && x == y
  {
    assert a - b == 256 * (y - x);
  }

  /** No two blocks of bytes are the same block of words. */
  lemma WordsInjective(a: Block, b: Block)
    requires |a| == BSIZE && |b| == BSIZE && Words(a) == Words(b)
    ensures a == b
  {
    forall i | 0 <= i < BSIZE
      ensures a[i] == b[i]
    {
      var j := i / 4;
      assert Words(a)[j] == Words(b)[j];
      hide Word;
      SameWord(a, b, j);
      assert i == 4 * j || i == 4 * j + 1 || i == 4 * j + 2 || i == 4 * j + 3;
    }
  }

  function OnDevice(img: seq<Block>): (d: L.Disk)
    requires forall b :: 0 <= b < |img| ==> |img[b]| == BSIZE
    ensures |d| == |img| && forall b {:trigger d[b]} :: 0 <= b < |img| ==> d[b] == Words(img[b])
  {
    seq(|img|, b requires 0 <= b < |img| => Words(img[b]))
  }

  /** The log lies between the super block and the inodes. */
  function LogOf(sb: Super): L.Layout
    requires 2 <= sb.inodestart
  {
    L.Layout(2, sb.inodestart - 2, sb.size)
  }

  /** A file system that is complete on disk. */
  ghost predicate Complete(sb: Super, fs: Fs) {
    Inv(sb, fs) && AllSynced(sb, fs)
  }

  /** No file that had all its blocks has lost one. */
  ghost predicate HolesKept(sb: Super, fs: Fs, fs': Fs)
    requires Shape(sb, fs) && Shape(sb, fs')
  {
    forall j {:trigger NoHoles(sb, fs', j)} :: 0 <= j < sb.ninodes && NoHoles(sb, fs, j) ==> NoHoles(sb, fs', j)
  }

  // ---- transactions ----

  datatype Tx = Tx(ev: seq<S.Event>, fs: Fs)

  ghost predicate TxOk(sb: Super, fs: Fs, tx: Tx)
    requires 2 <= sb.inodestart && Shape(sb, fs)
  {
    && Complete(sb, tx.fs) && HolesKept(sb, fs, tx.fs)
    && forall b {:trigger S.After(OnDevice(fs.disk), tx.ev, b)} :: LogOf(sb).Home(b) ==>
         S.After(OnDevice(fs.disk), tx.ev, b) == Words(tx.fs.disk[b])
  }

  /** Each of the transactions starts where the one before it ended. */
  ghost predicate Chain(sb: Super, fs: Fs, txs: seq<Tx>)
    requires 2 <= sb.inodestart && Shape(sb, fs)
    decreases |txs|
  {
    txs == [] || (TxOk(sb, fs, txs[0]) && Chain(sb, txs[0].fs, txs[1..]))
  }

  function LastFs(fs: Fs, txs: seq<Tx>): Fs {
    if txs == [] then fs else txs[|txs| - 1].fs
  }

  function AllEvents(txs: seq<Tx>): seq<S.Event> {
    if txs == [] then [] else txs[0].ev + AllEvents(txs[1..])
  }

  lemma {:induction false} AfterConcat(init: L.Disk, mid: L.Disk, a: seq<S.Event>, c: seq<S.Event>, b: int)
    requires 0 <= b < |init| && |mid| == |init| && mid[b] == S.After(init, a, b)
    ensures S.After(init, a + c, b) == S.After(mid, c, b)
    decreases |c|
  {
    if c == [] {
      assert a + c == a;
    } else {
      var n := |c| - 1;
      assert (a + c)[..|a + c| - 1] == a + c[..n];
      AfterConcat(init, mid, a, c[..n], b);
    }
  }

  lemma {:induction false} ChainEnds(sb: Super, fs: Fs, txs: seq<Tx>, b: int)
    requires 2 <= sb.inodestart && Complete(sb, fs) && Chain(sb, fs, txs) && LogOf(sb).Home(b)
    ensures Complete(sb, LastFs(fs, txs)) && HolesKept(sb, fs, LastFs(fs, txs))
    ensures S.After(OnDevice(fs.disk), AllEvents(txs), b) == Words(LastFs(fs, txs).disk[b])
    decreases |txs|
  {
    hide EntriesOwned;
    hide OwnersReal;
    hide BitmapExact;
    hide AllSynced;
    hide NoHoles;
    if txs != [] {
      var fs1, rest := txs[0].fs, txs[1..];
      assert S.After(OnDevice(fs.disk), txs[0].ev, b) == Words(fs1.disk[b]);
      ChainEnds(sb, fs1, rest, b);
      AfterConcat(OnDevice(fs.disk), OnDevice(fs1.disk), txs[0].ev, AllEvents(rest), b);
    }
  }

  // ---- an operation of the file system is a transaction ----

  /** The last write of each block leaves it as the operation left it, and no block is missing. */
  ghost predicate LogsIt(ev: seq<S.Event>, disk: seq<Block>, logged: set<nat>)
    requires forall b :: 0 <= b < |disk| ==> |disk[b]| == BSIZE
  {
    && (forall j {:trigger ev[j]} :: 0 <= j < |ev| ==> 0 <= ev[j].blk < |disk| && ev[j].blk in logged)
    && (forall b {:trigger b in logged} :: b in logged ==> exists j :: 0 <= j < |ev| && ev[j].blk == b)
    && (forall j {:trigger ev[j]} :: 0 <= j < |ev| && (forall k :: j < k < |ev| ==> ev[k].blk != ev[j].blk) ==>
          ev[j].val == Words(disk[ev[j].blk]))
  }

  lemma {:induction false} AfterLast(init: L.Disk, ev: seq<S.Event>, b: int) returns (j: int)
    requires 0 <= b < |init|
    ensures -1 <= j < |ev| && forall k :: j < k < |ev| ==> ev[k].blk != b
    ensures if j < 0 then S.After(init, ev, b) == init[b] else ev[j].blk == b && S.After(init, ev, b) == ev[j].val
    decreases |ev|
  {
    j := -1;
    if ev != [] {
      var n := |ev| - 1;
      if ev[n].blk == b {
        j := n;
      } else {
        j := AfterLast(init, ev[..n], b);
      }
    }
  }

  /** What an operation of FsOps promises, every changed block logged and every inode written back, makes
      its log_writes a transaction, in whatever order and however often it logged a block. */
  lemma OperationIsTx(sb: Super, fs: Fs, fs': Fs, logged: set<nat>, ev: seq<S.Event>)
    requires 2 <= sb.inodestart && Complete(sb, fs) && Complete(sb, fs') && HolesKept(sb, fs, fs')
    requires Recorded(sb, fs.disk, {}, fs'.disk, logged) && LogsIt(ev, fs'.disk, logged)
    ensures TxOk(sb, fs, Tx(ev, fs'))
  {
    hide EntriesOwned;
    hide OwnersReal;
    hide BitmapExact;
    hide AllSynced;
    hide NoHoles;
    hide Words;
    forall b | LogOf(sb).Home(b)
      ensures S.After(OnDevice(fs.disk), ev, b) == Words(fs'.disk[b])
    {
      var j := AfterLast(OnDevice(fs.disk), ev, b);
      if j < 0 {
        assert b !in logged;
      }
    }
  }

  // ---- crashes ----

  /** At this moment the history consists of whole transactions. */
  ghost predicate Whole(sb: Super, fs: Fs, ev: seq<S.Event>)
    requires 2 <= sb.inodestart && Shape(sb, fs)
  {
    exists txs :: Chain(sb, fs, txs) && ev == AllEvents(txs)
  }

  /** .. and so it does at every quiet moment of a run. */
  ghost predicate WholeWhenQuiet(sb: Super, fs: Fs, l: L.Layout, d: L.Disk, ts: seq<S.Step>)
    requires 2 <= sb.inodestart && Shape(sb, fs) && L.Formatted(l, d)
  {
    forall n {:trigger ts[..n]} :: 0 <= n <= |ts| && R.IsRun(l, d, ts[..n]) && R.Quiet(R.Final(l, d, ts[..n])) ==>
      Whole(sb, fs, R.Final(l, d, ts[..n]).events)
  }

  /** Crash consistency of the file system.  Start from a complete file system with an empty log.  If at
      every quiet moment of a run the operations so far amount to transactions, then whatever crashes
      there are, recovery ends with a complete file system again: the one that some of these
      transactions, from the first on without a gap, lead to. */
  lemma FileSystemSurvives(sb: Super, fs: Fs, l: L.Layout, d: L.Disk, ts: seq<S.Step>) returns (txs: seq<Tx>)
    requires 2 <= sb.inodestart && Complete(sb, fs) && l == LogOf(sb) && d == OnDevice(fs.disk)
    requires L.Formatted(l, d) && L.Header(l, d) == []
    requires R.IsRun(l, d, ts) && WholeWhenQuiet(sb, fs, l, d, ts)
    ensures Chain(sb, fs, txs) && Complete(sb, LastFs(fs, txs)) && HolesKept(sb, fs, LastFs(fs, txs))
    ensures var s := R.Final(l, d, ts);
      && s.durable <= |s.events| && AllEvents(txs) == s.events[..s.durable]
      && |L.Recover(l, s.disk)| == sb.size
      && forall b :: l.Home(b) ==> L.Recover(l, s.disk)[b] == Words(LastFs(fs, txs).disk[b])
  {
    hide *;
    CompleteShape(sb, fs);
    txs := DurableIsWhole(sb, fs, l, d, ts);
    FinalFormatted(l, d, ts);
    R.CrashAtomicity(l, d, ts);
    RecoveredIsLast(sb, fs, l, d, txs, L.Recover(l, R.Final(l, d, ts).disk));
  }

  lemma CompleteShape(sb: Super, fs: Fs)
    requires Complete(sb, fs)
    ensures Shape(sb, fs)
  {
  }

  lemma FinalFormatted(l: L.Layout, d: L.Disk, ts: seq<S.Step>)
    requires L.Formatted(l, d) && R.IsRun(l, d, ts)
    ensures L.Formatted(l, R.Final(l, d, ts).disk)
  {
  }

  lemma DurableIsWhole(sb: Super, fs: Fs, l: L.Layout, d: L.Disk, ts: seq<S.Step>) returns (txs: seq<Tx>)
    requires 2 <= sb.inodestart && Shape(sb, fs) && L.Formatted(l, d)
    requires R.IsRun(l, d, ts) && WholeWhenQuiet(sb, fs, l, d, ts)
    ensures Chain(sb, fs, txs)
    ensures var s := R.Final(l, d, ts); s.durable <= |s.events| && AllEvents(txs) == s.events[..s.durable]
  {
    hide Shape;
    hide Whole;
    hide Chain;
    hide AllEvents;
    var n := R.DurableMoment(l, d, ts);
    txs := TheChain(sb, fs, R.Final(l, d, ts[..n]).events);
  }

  /** A disk that has the writes of a chain of transactions holds the file system they lead to. */
  lemma RecoveredIsLast(sb: Super, fs: Fs, l: L.Layout, d: L.Disk, txs: seq<Tx>, rec: L.Disk)
    requires 2 <= sb.inodestart && Complete(sb, fs) && l == LogOf(sb) && d == OnDevice(fs.disk) && Chain(sb, fs, txs)
    requires L.Formatted(l, d) && L.Header(l, d) == [] && |rec| == l.nblocks == |L.Recover(l, d)|
    requires forall b :: l.Home(b) ==> rec[b] == S.After(L.Recover(l, d), AllEvents(txs), b)
    ensures Complete(sb, LastFs(fs, txs)) && HolesKept(sb, fs, LastFs(fs, txs)) && |rec| == sb.size
    ensures forall b :: l.Home(b) ==> rec[b] == Words(LastFs(fs, txs).disk[b])
  {
    hide Words;
    hide Chain;
    hide AllEvents;
    hide EntriesOwned;
    hide OwnersReal;
    hide BitmapExact;
    hide AllSynced;
    hide HolesKept;
    EmptyLogRecovers(l, d);
    ChainEnds(sb, fs, txs, 0);
    forall b | l.Home(b)
      ensures rec[b] == Words(LastFs(fs, txs).disk[b])
    {
      ChainEnds(sb, fs, txs, b);
      SameStart(L.Recover(l, d), d, AllEvents(txs), b);
    }
  }

  lemma TheChain(sb: Super, fs: Fs, ev: seq<S.Event>) returns (txs: seq<Tx>)
    requires 2 <= sb.inodestart && Shape(sb, fs) && Whole(sb, fs, ev)
    ensures Chain(sb, fs, txs) && ev == AllEvents(txs)
  {
    txs :| Chain(sb, fs, txs) && ev == AllEvents(txs);
  }

  /** The blocks from the inodes on are all there is to a file system. */
  lemma CompleteElsewhere(sb: Super, fs: Fs, img: seq<Block>)
    requires Complete(sb, fs) && |img| == sb.size && forall b :: 0 <= b < |img| ==> |img[b]| == BSIZE
    requires forall b :: sb.inodestart <= b < sb.size ==> img[b] == fs.disk[b]
    ensures Complete(sb, fs.(disk := img)) && HolesKept(sb, fs, fs.(disk := img))
  {
    var fs' := fs.(disk := img);
    forall i | 0 <= i < |fs.inodes| && 0 < fs.inodes[i].addrs[NDIRECT] < sb.size
      ensures fs'.disk[fs.inodes[i].addrs[NDIRECT]] == fs.disk[fs.inodes[i].addrs[NDIRECT]]
    {
      IndirectOwned(sb, fs, i);
    }
    EntriesUnchanged(sb, fs, fs');
    BitmapUntouched(sb, fs, fs');
    hide Entry;
    hide Used;
    forall i | 0 <= i < sb.ninodes
      ensures Synced(sb, fs', i)
    {
      assert Synced(sb, fs, i);
      RegionsDisjoint(sb, i, 0);
    }
  }

  /** Read as bytes, a recovered disk is the file system that its words say. */
  lemma RecoveredMounts(sb: Super, fs: Fs, l: L.Layout, rec: L.Disk, img: seq<Block>)
    requires 2 <= sb.inodestart && Complete(sb, fs) && l == LogOf(sb) && |img| == sb.size
    requires (forall b :: 0 <= b < |img| ==> |img[b]| == BSIZE) && rec == OnDevice(img)
    requires forall b :: l.Home(b) ==> rec[b] == Words(fs.disk[b])
    ensures Complete(sb, fs.(disk := img)) && HolesKept(sb, fs, fs.(disk := img))
    ensures forall b :: l.Home(b) ==> img[b] == fs.disk[b]
  {
    hide Inv;
    hide AllSynced;
    hide Words;
    hide NoHoles;
    CompleteShape(sb, fs);
    forall b | l.Home(b)
      ensures img[b] == fs.disk[b]
    {
      WordsInjective(img[b], fs.disk[b]);
    }
    CompleteElsewhere(sb, fs, img);
  }

  lemma EmptyLogRecovers(l: L.Layout, d: L.Disk)
    requires L.Formatted(l, d) && L.Header(l, d) == []
    ensures |L.Recover(l, d)| == l.nblocks && forall b :: l.Home(b) ==> L.Recover(l, d)[b] == d[b]
  {
    L.RecoverIsLogical(l, d);
  }

  lemma {:induction false} SameStart(d: L.Disk, d': L.Disk, ev: seq<S.Event>, b: int)
    requires 0 <= b < |d| && |d'| == |d| && d[b] == d'[b]
    ensures S.After(d, ev, b) == S.After(d', ev, b)
    decreases |ev|
  {
    if ev != [] {
      SameStart(d, d', ev[..|ev| - 1], b);
    }
  }

  /** The image that mkfs makes has an empty log. */
  lemma FreshImageFormatted(sb: Super, img: seq<Block>)
    requires FrontOk(sb, img) && 2 < sb.inodestart && forall b :: 0 <= b < |img| ==> |img[b]| == BSIZE
    ensures L.Formatted(LogOf(sb), OnDevice(img)) && L.Header(LogOf(sb), OnDevice(img)) == []
  {
    assert img[2] == ZeroBlock();
    assert Words(img[2])[0] == 0;
  }
}
