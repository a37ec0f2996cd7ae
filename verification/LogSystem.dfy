/** Group commit as a transition system: many processes run begin_op / log_write / end_op, one
    of them commits block by block, and a crash may fall between any two steps, recovery included.

    `events` is a history variable: every log_write of every operation since the disk was made,
    cut back by a crash to the part that was durable.  `durable` is the length of that part. */
module LogSystem {
  import opened LogDisk

  datatype Op = Op(pid: nat, id: nat, used: nat)
  datatype Event = Event(op: nat, blk: int, val: Block)

  /** Where the committing process or the recovering kernel is. */
  datatype Phase =
    | Running                  // no commit in progress
    | Logging(k: nat)          // write_log has written k blocks
    | Installing(k: nat)       // install_trans(0) has installed k blocks
    | Finishing                // commit() returned, log.committing not yet cleared
    | Booting                  // memory lost, read_head not yet done
    | Recovering(k: nat)       // install_trans(1) has installed k blocks

  datatype Sys = Sys(
    disk: Disk,
    phase: Phase,
    lh: seq<int>,              // log.lh.block[0 .. log.lh.n]
    cached: seq<Block>,        // buffer contents of those blocks, pinned in the cache
    outstanding: int,
    committing: bool,
    committer: nat,
    ops: seq<Op>,              // operations between begin_op and end_op
    asleep: set<nat>,          // processes asleep on &log
    panicked: bool,
    events: seq<Event>,
    durable: nat,
    firstOp: nat,              // ids below this belong to committed groups
    nextOp: nat)

  datatype Step =
    | Begin(p: nat)
    | Write(i: nat, b: int, v: Block)
    | End(i: nat)
    | LogBlock
    | WriteHead
    | InstallBlock
    | ClearHead
    | Finish
    | Crash
    | ReadHead
    | RecoverBlock
    | RecoverClear

  function Fresh(d: Disk): Sys {
    Sys(d, Booting, [], [], 0, false, 0, [], {}, false, [], 0, 0, 0)
  }

  predicate Up(s: Sys) {
    !s.phase.Booting? && !s.phase.Recovering?
  }

  // ---- log_write, begin_op and end_op as the source computes them ----

  predicate TooBig(l: Layout, lh: seq<int>) {
    |lh| >= LOGSIZE || |lh| >= l.size - 1
  }

  predicate LogWritePanics(l: Layout, s: Sys) {
    TooBig(l, s.lh) || s.outstanding < 1
  }

  predicate Admits(s: Sys) {
    !s.committing && |s.lh| + (s.outstanding + 1) * MAXOPBLOCKS <= LOGSIZE
  }

  // ---- the transition system ----

  predicate Enabled(l: Layout, s: Sys, t: Step) {
    (t.Crash? || !s.panicked) &&
    match t
    case Begin(p) => Up(s) && p !in s.asleep && (s.committing ==> p != s.committer)
                     && forall i :: 0 <= i < |s.ops| ==> s.ops[i].pid != p
    case Write(i, b, v) => Up(s) && i < |s.ops| && l.Home(b)
                           && (b in s.lh || s.ops[i].used < MAXOPBLOCKS)
    case End(i) => Up(s) && i < |s.ops|
    case LogBlock => s.phase.Logging? && s.phase.k < |s.lh|
    case WriteHead => s.phase.Logging? && s.phase.k == |s.lh|
    case InstallBlock => s.phase.Installing? && s.phase.k < |s.lh|
    case ClearHead => s.phase.Installing? && s.phase.k == |s.lh|
    case Finish => s.phase.Finishing?
    case Crash => true
    case ReadHead => s.phase.Booting?
    case RecoverBlock => s.phase.Recovering? && s.phase.k < |s.lh|
    case RecoverClear => s.phase.Recovering? && s.phase.k == |s.lh|
  }

  function DoWrite(l: Layout, s: Sys, i: nat, b: int, v: Block): Sys
    requires i < |s.ops| && |s.cached| == |s.lh|
  {
    if LogWritePanics(l, s) then s.(panicked := true)
    else
      var k := Slot(s.lh, b);
      var op := s.ops[i];
      if k < |s.lh| then
        s.(cached := s.cached[k := v], events := s.events + [Event(op.id, b, v)])
      else
        s.(lh := s.lh + [b], cached := s.cached + [v],
           ops := s.ops[i := op.(used := op.used + 1)],
           events := s.events + [Event(op.id, b, v)])
  }

  function DoBegin(s: Sys, p: nat): Sys {
    if Admits(s) then
      s.(outstanding := s.outstanding + 1,
         ops := s.ops + [Op(p, s.nextOp, 0)],
         nextOp := s.nextOp + 1)
    else
      s.(asleep := s.asleep + {p})
  }

  function DoEnd(s: Sys, i: nat): Sys
    requires i < |s.ops|
  {
    var ops' := s.ops[..i] + s.ops[i + 1..];
    var s' := s.(outstanding := s.outstanding - 1, ops := ops');
    if s.committing then s'.(panicked := true)
    else if s'.outstanding == 0 then
      s'.(committing := true, committer := s.ops[i].pid,
          phase := if |s.lh| > 0 then Logging(0) else Finishing)
    else
      s'.(asleep := {})
  }

  function DoCrash(s: Sys): Sys {
    s.(phase := Booting, lh := [], cached := [], outstanding := 0, committing := false,
       ops := [], asleep := {}, panicked := false,
       events := if s.durable <= |s.events| then s.events[..s.durable] else s.events,
       firstOp := s.nextOp)
  }

  /** The commit point. */
  function DoWriteHead(l: Layout, s: Sys): Sys
    requires InvShape(l, s)
  {
    s.(disk := WithHead(l, s.disk, s.lh), phase := Installing(0), durable := |s.events|, firstOp := s.nextOp)
  }

  function DoInstall(l: Layout, s: Sys): Sys
    requires InvShape(l, s) && s.phase.Installing? && s.phase.k < |s.lh|
  {
    s.(disk := WithInstalled(l, s.disk, s.lh, s.phase.k), phase := Installing(s.phase.k + 1))
  }

  function DoRecoverBlock(l: Layout, s: Sys): Sys
    requires InvShape(l, s) && s.phase.Recovering? && s.phase.k < |s.lh|
  {
    s.(disk := WithInstalled(l, s.disk, s.lh, s.phase.k), phase := Recovering(s.phase.k + 1))
  }

  /** `log.lh.n = 0; write_head()`, at the end of commit and of recovery. */
  function DoClear(l: Layout, s: Sys): Sys
    requires InvShape(l, s)
  {
    s.(disk := WithHead(l, s.disk, []), lh := [], cached := [],
       phase := if s.phase.Recovering? then Running else Finishing)
  }

  function Next(l: Layout, s: Sys, t: Step): Sys
    requires Inv(l, s) && Enabled(l, s, t)
  {
    match t
    case Begin(p) => DoBegin(s, p)
    case Write(i, b, v) => DoWrite(l, s, i, b, v)
    case End(i) => DoEnd(s, i)
    case LogBlock =>
      s.(disk := WithLogged(l, s.disk, s.phase.k, s.cached[s.phase.k]), phase := Logging(s.phase.k + 1))
    case WriteHead => DoWriteHead(l, s)
    case InstallBlock => DoInstall(l, s)
    case ClearHead => DoClear(l, s)
    case Finish =>
      s.(committing := false, asleep := {}, phase := Running)
    case Crash => DoCrash(s)
    case ReadHead =>
      s.(lh := Header(l, s.disk), phase := Recovering(0))
    case RecoverBlock => DoRecoverBlock(l, s)
    case RecoverClear => DoClear(l, s)
  }

  // ---- what the history says the home blocks hold ----

  /** Block `b` after the writes `ev`, starting from disk `init`. */
  function After(init: Disk, ev: seq<Event>, b: int): Block
    requires 0 <= b < |init|
  {
    if ev == [] then init[b]
    else if ev[|ev| - 1].blk == b then ev[|ev| - 1].val
    else After(init, ev[..|ev| - 1], b)
  }

  function Reserved(ops: seq<Op>): int {
    if ops == [] then 0 else MAXOPBLOCKS - ops[0].used + Reserved(ops[1..])
  }

  // ---- the invariant ----

  predicate InvShape(l: Layout, s: Sys) {
    && Formatted(l, s.disk)
    && GoodHeader(l, s.lh)
    && |s.cached| == (if Up(s) then |s.lh| else 0)
    && match s.phase
       case Running => Header(l, s.disk) == []
       case Logging(k) => Header(l, s.disk) == [] && k <= |s.lh| && LoggedTo(l, s.disk, k, s.cached)
       case Installing(k) => Header(l, s.disk) == s.lh && k <= |s.lh| && InstalledTo(l, s.disk, s.lh, k)
                             && LoggedTo(l, s.disk, |s.lh|, s.cached)
       case Finishing => Header(l, s.disk) == [] && s.lh == []
       case Booting => s.lh == []
       case Recovering(k) => Header(l, s.disk) == s.lh && k <= |s.lh| && InstalledTo(l, s.disk, s.lh, k)
  }

  predicate InvAdmission(s: Sys) {
    && s.outstanding == |s.ops|
    && (s.committing <==> s.phase.Logging? || s.phase.Installing? || s.phase.Finishing?)
    && (s.committing ==> s.ops == [])
    && (s.phase.Running? && s.ops == [] ==> s.lh == [])
    && (!Up(s) ==> s.ops == [])
    && (s.asleep != {} ==> s.committing || s.ops != [])
    && (forall i :: 0 <= i < |s.ops| ==> s.ops[i].used <= MAXOPBLOCKS)
    && |s.lh| + Reserved(s.ops) <= LOGSIZE
    && |s.ops| * MAXOPBLOCKS <= LOGSIZE
  }

  predicate InvHistory(s: Sys) {
    && s.durable <= |s.events|
    && s.firstOp <= s.nextOp
    && (forall j :: 0 <= j < s.durable ==> s.events[j].op < s.firstOp)
    && (forall j :: s.durable <= j < |s.events| ==> s.firstOp <= s.events[j].op < s.nextOp)
    && (forall i :: 0 <= i < |s.ops| ==> s.firstOp <= s.ops[i].id < s.nextOp)
    && (s.phase.Installing? || s.phase.Finishing? || !Up(s) ==> s.durable == |s.events|)
    && (forall j :: s.durable <= j < |s.events| ==> s.events[j].blk in s.lh)
  }

  predicate Inv(l: Layout, s: Sys) {
    InvShape(l, s) && InvAdmission(s) && InvHistory(s)
  }

  /** The disk is at the durable prefix of the history, and memory at the whole of it. */
  ghost predicate InvContent(l: Layout, init: Disk, s: Sys)
    requires |init| == l.nblocks && Inv(l, s)
  {
    && (forall b :: l.Home(b) ==> LogicalAt(l, s.disk, b) == After(init, s.events[..s.durable], b))
    && (Up(s) ==> forall b :: l.Home(b) ==> Overlay(s.disk, s.lh, s.cached, b) == After(init, s.events, b))
  }

  // ---- every step keeps the invariant ----

  lemma {:induction false} ReservedUpdate(ops: seq<Op>, i: nat, op: Op)
    requires i < |ops|
    ensures Reserved(ops[i := op]) == Reserved(ops) + ops[i].used - op.used
  {
    if i > 0 {
      assert ops[i := op][1..] == ops[1..][i - 1 := op];
      ReservedUpdate(ops[1..], i - 1, op);
    }
  }

  lemma {:induction false} ReservedConcat(a: seq<Op>, b: seq<Op>)
    ensures Reserved(a + b) == Reserved(a) + Reserved(b)
  {
    if a == [] {
      assert a + b == b;
    } else {
      assert (a + b)[1..] == a[1..] + b;
      ReservedConcat(a[1..], b);
    }
  }

  lemma {:induction false} ReservedNonNegative(ops: seq<Op>)
    requires forall i :: 0 <= i < |ops| ==> ops[i].used <= MAXOPBLOCKS
    ensures 0 <= Reserved(ops) <= MAXOPBLOCKS * |ops|
  {
    if ops != [] { ReservedNonNegative(ops[1..]); }
  }

  /** An open operation with budget left always finds room for one more block. */
  lemma BudgetLeavesRoom(l: Layout, s: Sys, i: nat)
    requires Inv(l, s) && i < |s.ops| && s.ops[i].used < MAXOPBLOCKS
    ensures |s.lh| < LOGSIZE
  {
    var a, b := s.ops[..i], s.ops[i + 1..];
    assert s.ops == a + ([s.ops[i]] + b);
    ReservedConcat(a, [s.ops[i]] + b);
    ReservedConcat([s.ops[i]], b);
    ReservedNonNegative(a);
    ReservedNonNegative(b);
  }

  lemma BeginKeepsInv(l: Layout, s: Sys, p: nat)
    requires Inv(l, s) && Enabled(l, s, Begin(p))
    ensures Inv(l, DoBegin(s, p))
  {
    var s' := DoBegin(s, p);
    if Admits(s) {
      ReservedConcat(s.ops, [Op(p, s.nextOp, 0)]);
      ReservedNonNegative(s.ops);
    } 
  }

  lemma WriteKeepsInv(l: Layout, s: Sys, i: nat, b: int, v: Block)
    requires Inv(l, s) && Enabled(l, s, Write(i, b, v))
    ensures Inv(l, DoWrite(l, s, i, b, v))
  {
    var s' := DoWrite(l, s, i, b, v);
    if !s'.panicked {
      var k := Slot(s.lh, b);
      if k == |s.lh| {
        ReservedUpdate(s.ops, i, s'.ops[i]);
      }
    }
  }

  lemma {:induction false} ReservedDrop(ops: seq<Op>, i: nat)
    requires i < |ops|
    ensures Reserved(ops[..i] + ops[i + 1..]) == Reserved(ops) - (MAXOPBLOCKS - ops[i].used)
  {
    if i == 0 {
      assert ops[..0] + ops[1..] == ops[1..];
    } else {
      var rest := ops[1..];
      assert ops[..i] + ops[i + 1..] == [ops[0]] + (rest[..i - 1] + rest[i..]);
      ReservedDrop(rest, i - 1);
    }
  }

  lemma EndKeepsAdmission(s: Sys, i: nat)
    requires InvAdmission(s) && Up(s) && i < |s.ops|
    ensures InvAdmission(DoEnd(s, i)) && DoEnd(s, i).panicked == s.panicked
  {
    ReservedDrop(s.ops, i);
  }

  lemma EndKeepsHistory(s: Sys, i: nat)
    requires InvAdmission(s) && InvHistory(s) && Up(s) && i < |s.ops|
    ensures InvHistory(DoEnd(s, i))
  {
    assert s.durable == |s.events| || s.events[s.durable].blk in s.lh;
  }

  /** end_op never meets its "log.committing" panic. */
  lemma EndKeepsInv(l: Layout, s: Sys, i: nat)
    requires Inv(l, s) && Enabled(l, s, End(i))
    ensures Inv(l, DoEnd(s, i))
    ensures !DoEnd(s, i).panicked
  {
    EndKeepsAdmission(s, i);
    EndKeepsHistory(s, i);
  }

  lemma LogBlockKeepsInv(l: Layout, s: Sys)
    requires Inv(l, s) && Enabled(l, s, LogBlock)
    ensures Inv(l, Next(l, s, LogBlock))
  {
    LoggingKeepsLogical(l, s.disk, s.phase.k, s.cached[s.phase.k]);
  }

  lemma WriteHeadKeepsInv(l: Layout, s: Sys)
    requires Inv(l, s) && Enabled(l, s, WriteHead)
    ensures Inv(l, DoWriteHead(l, s))
  {
    HeadWriteCommits(l, s.disk, s.lh, s.cached);
  }

  lemma InstallBlockKeepsInv(l: Layout, s: Sys)
    requires Inv(l, s) && Enabled(l, s, InstallBlock)
    ensures Inv(l, DoInstall(l, s))
  {
    InstallKeepsLogical(l, s.disk, s.phase.k);
    var s' := DoInstall(l, s);
    assert forall i :: l.start <= i < l.start + l.size ==> s'.disk[i] == s.disk[i];
  }

  lemma RecoverBlockKeepsInv(l: Layout, s: Sys)
    requires Inv(l, s) && Enabled(l, s, RecoverBlock)
    ensures Inv(l, DoRecoverBlock(l, s))
  {
    InstallKeepsLogical(l, s.disk, s.phase.k);
  }

  lemma ClearKeepsInv(l: Layout, s: Sys)
    requires Inv(l, s) && (s.phase.Installing? || s.phase.Recovering?) && s.phase.k == |s.lh|
    ensures Inv(l, DoClear(l, s))
  {
    ClearKeepsLogical(l, s.disk);
  }

  lemma StepKeepsInv(l: Layout, s: Sys, t: Step)
    requires Inv(l, s) && Enabled(l, s, t)
    ensures Inv(l, Next(l, s, t))
  {
    match t
    case Begin(p) => BeginKeepsInv(l, s, p);
    case Write(i, b, v) => WriteKeepsInv(l, s, i, b, v);
    case End(i) => EndKeepsInv(l, s, i);
    case LogBlock => LogBlockKeepsInv(l, s);
    case WriteHead => WriteHeadKeepsInv(l, s);
    case InstallBlock => InstallBlockKeepsInv(l, s);
    case RecoverBlock => RecoverBlockKeepsInv(l, s);
    case ClearHead => ClearKeepsInv(l, s);
    case RecoverClear => ClearKeepsInv(l, s);
    case _ =>
  }
}
