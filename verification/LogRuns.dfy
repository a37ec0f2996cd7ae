/** Theorems about every run of the logging system, crashes and recoveries included. */
module LogRuns {
  import opened LogDisk
  import opened LogSystem

  // ---- runs ----

  predicate IsRun(l: Layout, d: Disk, ts: seq<Step>)
    requires Formatted(l, d)
    decreases |ts|, 0
  {
    if ts == [] then true
    else
      var n := |ts| - 1;
      IsRun(l, d, ts[..n]) && Enabled(l, Final(l, d, ts[..n]), ts[n])
  }

  /** The state after the steps `ts` from a machine that boots on disk `d`. */
  function Final(l: Layout, d: Disk, ts: seq<Step>): (s: Sys)
    requires Formatted(l, d) && IsRun(l, d, ts)
    ensures Inv(l, s)
    decreases |ts|, 1
  {
    if ts == [] then Fresh(d)
    else
      var n := |ts| - 1;
      StepKeepsInv(l, Final(l, d, ts[..n]), ts[n]);
      Next(l, Final(l, d, ts[..n]), ts[n])
  }

  // ---- content ----

  lemma WriteKeepsContent(l: Layout, init: Disk, s: Sys, i: nat, b: int, v: Block)
    requires |init| == l.nblocks && Inv(l, s) && InvContent(l, init, s)
    requires Enabled(l, s, Write(i, b, v))
    ensures Inv(l, DoWrite(l, s, i, b, v)) && InvContent(l, init, DoWrite(l, s, i, b, v))
  {
    WriteKeepsInv(l, s, i, b, v);
    var s' := DoWrite(l, s, i, b, v);
    if !s'.panicked {
      assert s'.events[..s.durable] == s.events[..s.durable];
      assert s'.events[..|s.events|] == s.events;
      forall c | l.Home(c)
        ensures Overlay(s'.disk, s'.lh, s'.cached, c) == After(init, s'.events, c)
      {
        OverlayWrite(s.disk, s.lh, s.cached, b, v, c);
      }
    }
  }

  /** log_write changes what the cache shows at the written block and nowhere else. */
  lemma OverlayWrite(d: Disk, h: seq<int>, cached: seq<Block>, b: int, v: Block, c: int)
    requires |h| == |cached| && 0 <= b < |d| && 0 <= c < |d|
    ensures var k := Slot(h, b);
      var h', cached' := if k < |h| then h else h + [b], if k < |h| then cached[k := v] else cached + [v];
      Overlay(d, h', cached', c) == if c == b then v else Overlay(d, h, cached, c)
  {
    var k := Slot(h, b);
    if k == |h| {
      assert (h + [b])[..|h|] == h;
      SlotOfExtension(h, b, c);
    }
  }

  lemma {:induction false} SlotOfExtension(h: seq<int>, b: int, c: int)
    ensures Slot(h + [b], c) == if Slot(h, c) < |h| then Slot(h, c) else if b == c then |h| else |h| + 1
  {
    if h != [] {
      assert (h + [b])[1..] == h[1..] + [b];
      SlotOfExtension(h[1..], b, c);
    }
  }

  lemma LogBlockKeepsContent(l: Layout, init: Disk, s: Sys)
    requires |init| == l.nblocks && Inv(l, s) && InvContent(l, init, s) && Enabled(l, s, LogBlock)
    ensures Inv(l, Next(l, s, LogBlock)) && InvContent(l, init, Next(l, s, LogBlock))
  {
    LogBlockKeepsInv(l, s);
    LoggingKeepsLogical(l, s.disk, s.phase.k, s.cached[s.phase.k]);
  }

  lemma WriteHeadKeepsContent(l: Layout, init: Disk, s: Sys)
    requires |init| == l.nblocks && Inv(l, s) && InvContent(l, init, s) && Enabled(l, s, WriteHead)
    ensures Inv(l, DoWriteHead(l, s)) && InvContent(l, init, DoWriteHead(l, s))
  {
    WriteHeadKeepsInv(l, s);
    HeadWriteCommits(l, s.disk, s.lh, s.cached);
    assert s.events[..|s.events|] == s.events;
  }

  lemma InstallKeepsContent(l: Layout, init: Disk, s: Sys)
    requires |init| == l.nblocks && Inv(l, s) && InvContent(l, init, s) && Enabled(l, s, InstallBlock)
    ensures Inv(l, DoInstall(l, s)) && InvContent(l, init, DoInstall(l, s))
  {
    InstallBlockKeepsInv(l, s);
    InstallKeepsLogical(l, s.disk, s.phase.k);
  }

  lemma RecoverBlockKeepsContent(l: Layout, init: Disk, s: Sys)
    requires |init| == l.nblocks && Inv(l, s) && InvContent(l, init, s) && Enabled(l, s, RecoverBlock)
    ensures Inv(l, DoRecoverBlock(l, s)) && InvContent(l, init, DoRecoverBlock(l, s))
  {
    RecoverBlockKeepsInv(l, s);
    InstallKeepsLogical(l, s.disk, s.phase.k);
  }

  lemma ClearKeepsContent(l: Layout, init: Disk, s: Sys)
    requires |init| == l.nblocks && Inv(l, s) && InvContent(l, init, s)
    requires (s.phase.Installing? || s.phase.Recovering?) && s.phase.k == |s.lh|
    ensures Inv(l, DoClear(l, s)) && InvContent(l, init, DoClear(l, s))
  {
    ClearKeepsInv(l, s);
    ClearKeepsLogical(l, s.disk);
    assert s.events[..s.durable] == s.events;
  }

  lemma StepKeepsContent(l: Layout, init: Disk, s: Sys, t: Step)
    requires |init| == l.nblocks && Inv(l, s) && InvContent(l, init, s) && Enabled(l, s, t)
    ensures Inv(l, Next(l, s, t)) && InvContent(l, init, Next(l, s, t))
  {
    StepKeepsInv(l, s, t);
    match t
    case Write(i, b, v) => WriteKeepsContent(l, init, s, i, b, v);
    case ClearHead => ClearKeepsContent(l, init, s);
    case RecoverClear => ClearKeepsContent(l, init, s);
    case Crash => assert s.events[..s.durable][..s.durable] == s.events[..s.durable];
    case Begin(p) =>
    case End(i) =>
    case Finish =>
    case ReadHead =>
    case LogBlock => LogBlockKeepsContent(l, init, s);
    case WriteHead => WriteHeadKeepsContent(l, init, s);
    case InstallBlock => InstallKeepsContent(l, init, s);
    case RecoverBlock => RecoverBlockKeepsContent(l, init, s);
  }

  lemma {:induction false} RunKeepsContent(l: Layout, d: Disk, ts: seq<Step>)
    requires Formatted(l, d) && IsRun(l, d, ts)
    ensures |Recover(l, d)| == l.nblocks
    ensures InvContent(l, Recover(l, d), Final(l, d, ts))
  {
    if ts == [] {
      RecoverIsLogical(l, d);
    } else {
      var n := |ts| - 1;
      RunKeepsContent(l, d, ts[..n]);
      StepKeepsContent(l, Recover(l, d), Final(l, d, ts[..n]), ts[n]);
    }
  }

  /** No operation has writes on both sides of position k. */
  predicate NoSplitOp(ev: seq<Event>, k: nat) {
    k <= |ev| && forall i, j :: 0 <= i < k <= j < |ev| ==> ev[i].op != ev[j].op
  }

  /** Crash atomicity.  Take any run, with any number of crashes anywhere, recovery included, and
      let recovery complete on the disk it leaves.  Each home block then holds exactly what the
      durable prefix of the log_writes put there: whole groups of operations in order, no
      operation in part, and nothing of an operation still open. */
  lemma CrashAtomicity(l: Layout, d: Disk, ts: seq<Step>)
    requires Formatted(l, d) && IsRun(l, d, ts)
    ensures var s, d0 := Final(l, d, ts), Recover(l, d);
      && NoSplitOp(s.events, s.durable)
      && (forall i, j :: 0 <= i < |s.ops| && 0 <= j < s.durable ==> s.events[j].op != s.ops[i].id)
      && |Recover(l, s.disk)| == l.nblocks == |d0|
      && forall b :: l.Home(b) ==> Recover(l, s.disk)[b] == After(d0, s.events[..s.durable], b)
  {
    RunKeepsContent(l, d, ts);
    RecoverIsLogical(l, Final(l, d, ts).disk);
  }

  /** Between crashes the buffer cache shows every write made so far, and an idle log has all of
      them on disk in their home blocks. */
  lemma CacheShowsEveryWrite(l: Layout, d: Disk, ts: seq<Step>)
    requires Formatted(l, d) && IsRun(l, d, ts) && Up(Final(l, d, ts))
    ensures var s, d0 := Final(l, d, ts), Recover(l, d);
      && |d0| == l.nblocks
      && (forall b :: l.Home(b) ==> Overlay(s.disk, s.lh, s.cached, b) == After(d0, s.events, b))
      && (s.outstanding == 0 && !s.committing ==>
            forall b :: l.Home(b) ==> s.disk[b] == After(d0, s.events, b))
  {
    RunKeepsContent(l, d, ts);
  }

  /** Durability: no step, crashes included, takes back a durable write, and when a committing
      end_op returns every write so far is durable. */
  lemma DurableStaysDurable(l: Layout, s: Sys, t: Step)
    requires Inv(l, s) && Enabled(l, s, t)
    ensures Inv(l, Next(l, s, t))
    ensures var s' := Next(l, s, t); s.events[..s.durable] <= s'.events[..s'.durable]
    ensures t.Finish? ==> s.durable == |s.events|
  {
    StepKeepsInv(l, s, t);
  }

  lemma {:induction false} DurableForever(l: Layout, d: Disk, ts: seq<Step>, n: nat)
    requires Formatted(l, d) && IsRun(l, d, ts) && n <= |ts|
    ensures IsRun(l, d, ts[..n])
    ensures var s, s' := Final(l, d, ts[..n]), Final(l, d, ts);
      s.events[..s.durable] <= s'.events[..s'.durable]
    decreases |ts|
  {
    if n == |ts| {
      assert ts[..n] == ts;
    } else {
      var m := |ts| - 1;
      assert ts[..m][..n] == ts[..n];
      DurableForever(l, d, ts[..m], n);
      DurableStaysDurable(l, Final(l, d, ts[..m]), ts[m]);
    }
  }

  /** When a committing end_op returns, every log_write made so far is in the durable part and stays
      in it through every later step and crash. */
  lemma CommittedSurvives(l: Layout, d: Disk, ts: seq<Step>, n: nat)
    requires Formatted(l, d) && IsRun(l, d, ts) && n < |ts| && ts[n].Finish?
    ensures IsRun(l, d, ts[..n])
    ensures var s' := Final(l, d, ts); Final(l, d, ts[..n]).events <= s'.events[..s'.durable]
  {
    hide Next;
    hide Enabled;
    DurableForever(l, d, ts, n);
    DurableForever(l, d, ts, n + 1);
    assert ts[..n + 1][..n] == ts[..n];
    var s := Final(l, d, ts[..n]);
    DurableStaysDurable(l, s, ts[n]);
    assert s.events[..s.durable] == s.events;
  }

  // ---- where a crash leads back to ----

  /** No operation is open. */
  predicate Quiet(s: Sys) {
    s.ops == []
  }

  /** Home block b as the running kernel shows it, or, before it is up, as recovery will leave it. */
  function Shown(l: Layout, s: Sys, b: int): Block
    requires Inv(l, s) && l.Home(b)
  {
    if Up(s) then Overlay(s.disk, s.lh, s.cached, b) else LogicalAt(l, s.disk, b)
  }

  lemma DurableStep(l: Layout, s: Sys, t: Step)
    requires Inv(l, s) && Enabled(l, s, t)
    ensures Inv(l, Next(l, s, t))
    ensures var s' := Next(l, s, t);
      if t.WriteHead? then s'.events[..s'.durable] == s.events && Quiet(s)
      else s'.events[..s'.durable] == s.events[..s.durable]
  {
    StepKeepsInv(l, s, t);
    var s' := Next(l, s, t);
    if t.WriteHead? {
      assert s'.events[..s'.durable] == s.events;
    } else {
      assert s'.durable == s.durable && s'.events[..s.durable] == s.events[..s.durable];
    }
  }

  /** What is durable is the history up to some quiet moment of the run. */
  lemma {:induction false} DurableMoment(l: Layout, d: Disk, ts: seq<Step>) returns (n: nat)
    requires Formatted(l, d) && IsRun(l, d, ts)
    ensures n <= |ts| && IsRun(l, d, ts[..n])
    ensures var q, s := Final(l, d, ts[..n]), Final(l, d, ts); Quiet(q) && q.events == s.events[..s.durable]
    decreases |ts|
  {
    hide Inv;
    hide Enabled;
    hide Next;
    n := 0;
    if ts != [] {
      var m := |ts| - 1;
      var r := DurableMoment(l, d, ts[..m]);
      assert ts[..m][..r] == ts[..r];
      DurableStep(l, Final(l, d, ts[..m]), ts[m]);
      n := if ts[m].WriteHead? then m else r;
    }
  }

  /** Take any run with crashes anywhere and let recovery complete on the disk it leaves.  Every home
      block then holds what the kernel showed at one moment of the run, the same for all of them, at
      which no operation was open. */
  lemma CrashLeadsToQuietMoment(l: Layout, d: Disk, ts: seq<Step>) returns (n: nat)
    requires Formatted(l, d) && IsRun(l, d, ts)
    ensures n <= |ts| && IsRun(l, d, ts[..n]) && Quiet(Final(l, d, ts[..n]))
    ensures var q, s := Final(l, d, ts[..n]), Final(l, d, ts);
      && q.events == s.events[..s.durable] && |Recover(l, s.disk)| == l.nblocks
      && forall b :: l.Home(b) ==> Recover(l, s.disk)[b] == Shown(l, q, b)
  {
    hide Enabled;
    hide Next;
    n := DurableMoment(l, d, ts);
    CrashAtomicity(l, d, ts);
    RunKeepsContent(l, d, ts[..n]);
    var q := Final(l, d, ts[..n]);
    assert !Up(q) ==> q.events[..q.durable] == q.events;
  }

  /** A panic stops every process but loses nothing: the machine can still be restarted, and what was
      durable is what comes back. */
  lemma PanicLosesNothingDurable(l: Layout, d: Disk, ts: seq<Step>)
    requires Formatted(l, d) && IsRun(l, d, ts) && Final(l, d, ts).panicked
    ensures forall t :: Enabled(l, Final(l, d, ts), t) <==> t.Crash?
    ensures IsRun(l, d, ts + [Crash])
    ensures var s, s' := Final(l, d, ts), Final(l, d, ts + [Crash]);
      !s'.panicked && s'.disk == s.disk && s.durable <= |s.events| && s'.events == s.events[..s.durable]
  {
    Extend(l, d, ts, Crash);
  }

  // ---- admission ----

  /** Admission over every run.  A commit has the log to itself; an idle log is empty, admits the
      next begin_op and leaves nobody asleep; the header never overflows. */
  lemma Admission(l: Layout, d: Disk, ts: seq<Step>)
    requires Formatted(l, d) && IsRun(l, d, ts)
    ensures var s := Final(l, d, ts);
      && (s.committing ==> s.outstanding == 0)
      && (Up(s) && !s.committing && s.outstanding == 0 ==> s.lh == [] && Admits(s) && s.asleep == {})
      && |s.lh| <= LOGSIZE
      && s.outstanding == |s.ops| <= LOGSIZE / MAXOPBLOCKS
  {
    var s := Final(l, d, ts);
    ReservedNonNegative(s.ops);
  }

  /** A write that would append a block number, by an operation within its budget. */
  predicate InBudgetAppend(l: Layout, s: Sys, i: nat, b: int) {
    && !s.panicked && Up(s) && i < |s.ops| && s.ops[i].used < MAXOPBLOCKS
    && l.Home(b) && b !in s.lh
  }

  /** When log_write panics.  With more than LOGSIZE log blocks an in-budget append never does;
      an absorbed write, which needs no room, does exactly when the header is full. */
  lemma WhenLogWritePanics(l: Layout, s: Sys, i: nat, b: int, v: Block)
    requires Inv(l, s) && Enabled(l, s, Write(i, b, v)) && l.size > LOGSIZE
    ensures DoWrite(l, s, i, b, v).panicked <==> b in s.lh && |s.lh| == LOGSIZE
  {
    if b !in s.lh {
      BudgetLeavesRoom(l, s, i);
    }
  }

  lemma Extend(l: Layout, d: Disk, ts: seq<Step>, t: Step)
    requires Formatted(l, d) && IsRun(l, d, ts) && Enabled(l, Final(l, d, ts), t)
    ensures IsRun(l, d, ts + [t])
    ensures Final(l, d, ts + [t]) == Next(l, Final(l, d, ts), t)
  {
    assert (ts + [t])[..|ts|] == ts;
  }

  // Three operations are open and together have logged the n blocks just after the log.

  function Spent(n: nat, i: nat): nat {
    if n <= i * MAXOPBLOCKS then 0
    else if n >= (i + 1) * MAXOPBLOCKS then MAXOPBLOCKS
    else n - i * MAXOPBLOCKS
  }

  predicate Filled(l: Layout, s: Sys, n: nat) {
    && s.phase.Running? && !s.panicked && !s.committing && s.outstanding == 3
    && s.ops == [Op(0, 0, Spent(n, 0)), Op(1, 1, Spent(n, 1)), Op(2, 2, Spent(n, 2))]
    && s.lh == seq(n, j => l.start + l.size + j)
    && |s.cached| == n
  }

  predicate Opened(s: Sys, k: nat) {
    && s.phase.Running? && !s.panicked && !s.committing && s.outstanding == k && s.nextOp == k
    && s.ops == seq(k, (i: nat) => Op(i, i, 0))
    && s.lh == [] && s.cached == [] && s.asleep == {}
  }

  lemma BootOpensNone(l: Layout, d: Disk)
    requires Formatted(l, d) && Header(l, d) == []
    ensures IsRun(l, d, [ReadHead, RecoverClear]) && Opened(Final(l, d, [ReadHead, RecoverClear]), 0)
  {
    hide Inv;
    Extend(l, d, [], ReadHead);
    assert [] + [ReadHead] == [ReadHead];
    Extend(l, d, [ReadHead], RecoverClear);
    assert [ReadHead] + [RecoverClear] == [ReadHead, RecoverClear];
  }

  lemma OpenOne(l: Layout, s: Sys, k: nat)
    requires Inv(l, s) && Opened(s, k) && k < 3
    ensures Enabled(l, s, Begin(k)) && Opened(Next(l, s, Begin(k)), k + 1)
  {
  }

  lemma {:induction false} OpenRun(l: Layout, d: Disk, k: nat) returns (ts: seq<Step>)
    requires Formatted(l, d) && Header(l, d) == [] && k <= 3
    ensures IsRun(l, d, ts) && Opened(Final(l, d, ts), k)
  {
    if k == 0 {
      BootOpensNone(l, d);
      ts := [ReadHead, RecoverClear];
    } else {
      var ts' := OpenRun(l, d, k - 1);
      OpenOne(l, Final(l, d, ts'), k - 1);
      Extend(l, d, ts', Begin(k - 1));
      ts := ts' + [Begin(k - 1)];
    }
  }

  function FillStep(l: Layout, n: nat): Step {
    Write(n / MAXOPBLOCKS, l.start + l.size + n, [])
  }

  lemma FillOne(l: Layout, s: Sys, n: nat)
    requires Inv(l, s) && l.start + l.size + LOGSIZE <= l.nblocks
    requires Filled(l, s, n) && n < LOGSIZE && n + 1 < l.size
    ensures Enabled(l, s, FillStep(l, n)) && Filled(l, Next(l, s, FillStep(l, n)), n + 1)
  {
    var s' := DoWrite(l, s, n / MAXOPBLOCKS, l.start + l.size + n, []);
    assert s'.lh == seq(n + 1, j => l.start + l.size + j);
  }

  lemma OpenedIsFilled(l: Layout, s: Sys)
    requires Opened(s, 3)
    ensures Filled(l, s, 0)
  {
    assert s.ops == [Op(0, 0, 0), Op(1, 1, 0), Op(2, 2, 0)];
  }

  lemma {:induction false} FillRun(l: Layout, d: Disk, n: nat) returns (ts: seq<Step>)
    requires Formatted(l, d) && Header(l, d) == [] && l.start + l.size + LOGSIZE <= l.nblocks
    requires n <= LOGSIZE && n < l.size
    ensures IsRun(l, d, ts) && Filled(l, Final(l, d, ts), n)
  {
    if n == 0 {
      ts := OpenRun(l, d, 3);
      OpenedIsFilled(l, Final(l, d, ts));
    } else {
      var ts' := FillRun(l, d, n - 1);
      FillOne(l, Final(l, d, ts'), n - 1);
      Extend(l, d, ts', FillStep(l, n - 1));
      ts := ts' + [FillStep(l, n - 1)];
    }
  }

  ghost predicate Reachable(l: Layout, d: Disk, s: Sys)
    requires Formatted(l, d)
  {
    exists ts :: IsRun(l, d, ts) && s == Final(l, d, ts)
  }

  ghost predicate AppendsSafe(l: Layout, s: Sys) {
    forall i, b :: InBudgetAppend(l, s, i, b) ==> !LogWritePanics(l, s)
  }

  /** begin_op reserves against LOGSIZE but a log of `size` blocks holds size - 1 of them, so
      in-budget appends are safe over all runs exactly when size exceeds LOGSIZE.  mkfs makes it
      equal to LOGSIZE. */
  lemma AppendsSafeIffLogBigEnough(l: Layout, d: Disk)
    requires Formatted(l, d) && Header(l, d) == [] && l.start + l.size + LOGSIZE <= l.nblocks
    ensures l.size > LOGSIZE <==> forall s :: Reachable(l, d, s) ==> AppendsSafe(l, s)
  {
    if l.size > LOGSIZE {
      forall s | Reachable(l, d, s)
        ensures AppendsSafe(l, s)
      {
        BigLogAppendsSafe(l, s);
      }
    } else {
      var ts := FillRun(l, d, l.size - 1);
      var s := Final(l, d, ts);
      assert Reachable(l, d, s);
      FilledSmallLogUnsafe(l, s);
    }
  }

  lemma BigLogAppendsSafe(l: Layout, s: Sys)
    requires Inv(l, s) && l.size > LOGSIZE
    ensures AppendsSafe(l, s)
  {
    forall i, b | InBudgetAppend(l, s, i, b)
      ensures !LogWritePanics(l, s)
    {
      BudgetLeavesRoom(l, s, i);
    }
  }

  lemma FilledSmallLogUnsafe(l: Layout, s: Sys)
    requires l.Ok() && l.size <= LOGSIZE && Filled(l, s, l.size - 1)
    requires l.start + l.size + LOGSIZE <= l.nblocks
    ensures !AppendsSafe(l, s)
  {
    var n := l.size - 1;
    assert InBudgetAppend(l, s, n / MAXOPBLOCKS, l.start + l.size + n);
  }

  /** Even a large enough log has a run in which an operation rewriting a block it has already
      logged panics: the size test comes before absorption. */
  lemma FullLogPanicsOnAbsorbedWrite(l: Layout, d: Disk)
    requires Formatted(l, d) && Header(l, d) == [] && l.start + l.size + LOGSIZE <= l.nblocks
    requires l.size > LOGSIZE
    ensures exists s, i, b, v ::
              && Reachable(l, d, s)
              && Enabled(l, s, Write(i, b, v)) && b in s.lh
              && LogWritePanics(l, s)
  {
    hide Inv;
    hide Filled;
    hide Enabled;
    hide LogWritePanics;
    var ts := FillRun(l, d, LOGSIZE);
    var s := Final(l, d, ts);
    assert Reachable(l, d, s);
    FilledPanics(l, s);
  }

  lemma FilledPanics(l: Layout, s: Sys)
    requires Filled(l, s, LOGSIZE) && l.start + l.size + LOGSIZE <= l.nblocks
    ensures Enabled(l, s, Write(0, l.start + l.size, [])) && l.start + l.size in s.lh && LogWritePanics(l, s)
  {
    assert s.lh[0] == l.start + l.size;
  }

  // ---- operations that cannot meet the full log ----

  /** The blocks operation `id` has given to log_write, in order. */
  function BlocksOf(ev: seq<Event>, id: nat): seq<int> {
    if ev == [] then []
    else
      var n := |ev| - 1;
      BlocksOf(ev[..n], id) + if ev[n].op == id then [ev[n].blk] else []
  }

  function Distinct(bs: seq<int>): set<int> {
    set b | b in bs
  }

  /** Before each of these log_writes there were fewer than MAXOPBLOCKS different blocks. */
  predicate Paced(bs: seq<int>) {
    forall k {:trigger bs[..k]} :: 0 <= k < |bs| ==> |Distinct(bs[..k])| < MAXOPBLOCKS
  }

  /** Operation id of the run logs the blocks plan[id], each plan being paced. */
  predicate Follows(s: Sys, t: Step, plan: map<nat, seq<int>>) {
    t.Write? && t.i < |s.ops| ==>
      var id := s.ops[t.i].id;
      id in plan && Paced(plan[id]) && BlocksOf(s.events, id) + [t.b] <= plan[id]
  }

  predicate FollowsAll(l: Layout, d: Disk, ts: seq<Step>, plan: map<nat, seq<int>>)
    requires Formatted(l, d) && IsRun(l, d, ts)
  {
    if ts == [] then true
    else
      var n := |ts| - 1;
      FollowsAll(l, d, ts[..n], plan) && Follows(Final(l, d, ts[..n]), ts[n], plan)
  }

  /** An operation is charged for no more blocks than it has logged. */
  predicate Charged(s: Sys) {
    forall i {:trigger s.ops[i]} :: 0 <= i < |s.ops| ==> s.ops[i].used <= |Distinct(BlocksOf(s.events, s.ops[i].id))|
  }

  lemma {:induction false} BlocksAreEvents(ev: seq<Event>, id: nat, b: int)
    requires b in BlocksOf(ev, id)
    ensures exists j :: 0 <= j < |ev| && ev[j].op == id && ev[j].blk == b
    decreases |ev|
  {
    var n := |ev| - 1;
    if !(ev[n].op == id && ev[n].blk == b) {
      BlocksAreEvents(ev[..n], id, b);
    }
  }

  /** What an open operation has logged is in the header. */
  lemma LoggedIsInHeader(l: Layout, s: Sys, i: nat, b: int)
    requires Inv(l, s) && i < |s.ops| && b in BlocksOf(s.events, s.ops[i].id)
    ensures b in s.lh
  {
    BlocksAreEvents(s.events, s.ops[i].id, b);
  }

  lemma DistinctMore(bs: seq<int>, b: int)
    ensures Distinct(bs + [b]) == Distinct(bs) + {b}
    ensures |Distinct(bs)| <= |Distinct(bs + [b])|
    ensures b !in bs ==> |Distinct(bs + [b])| == |Distinct(bs)| + 1
  {
    assert Distinct(bs + [b]) == Distinct(bs) + {b};
    assert b in bs ==> Distinct(bs) + {b} == Distinct(bs);
  }

  lemma WriteCharged(l: Layout, s: Sys, i: nat, b: int, v: Block)
    requires Inv(l, s) && Charged(s) && Enabled(l, s, Write(i, b, v))
    ensures Charged(DoWrite(l, s, i, b, v))
  {
    var s' := DoWrite(l, s, i, b, v);
    if !s'.panicked {
      hide Inv;
      hide Distinct;
      assert s'.events[..|s.events|] == s.events;
      forall j | 0 <= j < |s'.ops|
        ensures s'.ops[j].used <= |Distinct(BlocksOf(s'.events, s'.ops[j].id))|
      {
        var bs := BlocksOf(s.events, s.ops[j].id);
        assert BlocksOf(s'.events, s.ops[j].id) == bs || BlocksOf(s'.events, s.ops[j].id) == bs + [b];
        DistinctMore(bs, b);
        if j == i && b in bs {
          LoggedIsInHeader(l, s, i, b);
        }
      }
    }
  }

  lemma StepCharged(l: Layout, s: Sys, t: Step)
    requires Inv(l, s) && Charged(s) && Enabled(l, s, t)
    ensures Charged(Next(l, s, t))
  {
    if t.Write? {
      WriteCharged(l, s, t.i, t.b, t.v);
    }
  }

  lemma PacedStep(l: Layout, s: Sys, t: Step, plan: map<nat, seq<int>>)
    requires Inv(l, s) && Charged(s) && !s.panicked && l.size > LOGSIZE && Enabled(l, s, t) && Follows(s, t, plan)
    ensures !Next(l, s, t).panicked
  {
    if t.Write? {
      var id := s.ops[t.i].id;
      var bs := BlocksOf(s.events, id);
      assert plan[id][..|bs|] == bs;
      BudgetLeavesRoom(l, s, t.i);
    } else if t.End? {
      EndKeepsInv(l, s, t.i);
    }
  }

  /** With more than LOGSIZE log blocks, no run panics whose operations log their blocks at this pace,
      whatever other operations are open and however full they have made the log. */
  lemma {:induction false} PacedNeverPanics(l: Layout, d: Disk, ts: seq<Step>, plan: map<nat, seq<int>>)
    requires Formatted(l, d) && IsRun(l, d, ts) && l.size > LOGSIZE && FollowsAll(l, d, ts, plan)
    ensures !Final(l, d, ts).panicked && Charged(Final(l, d, ts))
    decreases |ts|
  {
    hide Inv;
    hide Charged;
    hide Enabled;
    hide Next;
    if ts == [] {
      NoneCharged(d);
    } else {
      var n := |ts| - 1;
      PacedNeverPanics(l, d, ts[..n], plan);
      StepCharged(l, Final(l, d, ts[..n]), ts[n]);
      PacedStep(l, Final(l, d, ts[..n]), ts[n], plan);
    }
  }

  lemma NoneCharged(d: Disk)
    ensures Charged(Fresh(d))
  {
  }
}
