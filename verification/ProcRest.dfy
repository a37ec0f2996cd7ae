/** What the steps keep between processes: wakeups in progress, children and parents, zombies and
    those who wait for them, process ids, sleep locks. */
module ProcRest {
  import opened Collections
  import opened ProcSys
  import opened ProcInv

  /** A wakeup in progress, of a process or of a handler, has left nobody behind: among the slots it has
      passed, nobody waits on its channel with a lock that the caller of wakeup holds. */
  ghost predicate InvWake(s: Sys) {
    && (forall w, q {:trigger s.proc[w], s.proc[q]} :: 0 <= w < |s.proc| && 0 <= q < |s.proc| && w != q ==>
          Passed(s.proc[w].pc, q, s.proc[q].waits))
    && (forall c, q {:trigger s.cpu[c], s.proc[q]} :: 0 <= c < |s.cpu| && 0 <= q < |s.proc| ==>
          CorePassed(s.cpu[c].pc, q, s.proc[q].waits))
  }

  ghost predicate Passed(pc: Pc, q: Slot, waits: Opt<Awaited>) {
    pc.Waking? && q < pc.q && waits.Some? && waits.v.chan == pc.chan ==> waits.v.lk !in RetLocks(pc.ret)
  }

  ghost predicate CorePassed(pc: SchedPc, q: Slot, waits: Opt<Awaited>) {
    pc.Alarm? && q < pc.at && waits.Some? && waits.v.chan == pc.chan ==> waits.v.lk != pc.l
  }

  predicate Alive(st: PState) {
    st == RUNNING || st == RUNNABLE || st == SLEEPING
  }

  /** How far reparent has come in giving the children of a process away. */
  function Given(pc: Pc, n: nat): nat {
    match pc
    case Reparent(k) => k
    case Waking(_, _, ToReparent(k)) => k
    case Waking(_, _, ToExit) => n
    case ExitLk => n
    case _ => 0
  }

  ghost predicate ParentOk(s: Sys, x: Slot)
    requires x < |s.proc|
  {
    s.proc[x].parent.Some? ==>
      var q := s.proc[x].parent.v;
      q < |s.proc| && Alive(s.proc[q].state) && x >= Given(s.proc[q].pc, |s.proc|)
  }

  ghost predicate InvParents(s: Sys) {
    && s.init < |s.proc| && Alive(s.proc[s.init].state) && !Exiting(s.proc[s.init].pc)
    && (forall x {:trigger s.proc[x]} :: 0 <= x < |s.proc| ==> ParentOk(s, x))
  }

  /** Each slot that is being set up has one maker. */
  ghost predicate MakerOk(s: Sys, p: Slot)
    requires p < |s.proc|
  {
    s.proc[p].pc.ForkPar? || s.proc[p].pc.ForkEnd? ==>
      var q := s.proc[p].pc.q;
      q < |s.proc| && q != p && s.proc[q].state == USED && s.proc[q].maker == Some(p)
  }

  ghost predicate InvMakers(s: Sys) {
    forall p {:trigger s.proc[p]} :: 0 <= p < |s.proc| ==> MakerOk(s, p)
  }

  ghost predicate InvPids(s: Sys) {
    && (forall p {:trigger s.proc[p]} :: 0 <= p < |s.proc| && s.proc[p].state != UNUSED ==>
          0 < s.proc[p].pid < s.nextpid && s.proc[p].pid !in s.reaped)
    && (forall p, q {:trigger s.proc[p], s.proc[q]} ::
          0 <= p < q < |s.proc| && s.proc[p].state != UNUSED && s.proc[q].state != UNUSED ==>
            s.proc[p].pid != s.proc[q].pid)
    && (forall i {:trigger s.reaped[i]} :: 0 <= i < |s.reaped| ==> s.reaped[i] < s.nextpid)
    && (forall i, j {:trigger s.reaped[i], s.reaped[j]} :: 0 <= i < j < |s.reaped| ==> s.reaped[i] != s.reaped[j])
  }

  // ---- sleep locks ----

  /** A sleep lock that is set carries the pid of the one process that owns it. */
  ghost predicate InvSleepLocks(s: Sys) {
    && (forall p, n {:trigger n in s.proc[p].owns} :: 0 <= p < |s.proc| && n in s.proc[p].owns ==>
          s.proc[p].state != UNUSED && HoldingSleep(s, p, n))
    && (forall p, n {:trigger HoldingSleep(s, p, n)} ::
          0 <= p < |s.proc| && s.proc[p].state != UNUSED && HoldingSleep(s, p, n) ==> n in s.proc[p].owns)
    && (forall n {:trigger n in s.locked} :: n in s.locked ==> s.locked[n] < s.nextpid)
  }

  /** Process q sleeps for sleep lock n. */
  predicate Awaits(r: Proc, n: nat) {
    r.waits == Some(Awaited(OfSleepLock(n), Inner(n)))
  }

  /** Whoever holds the spinlock in sleep lock n has just cleared it and has yet to come to q. */
  ghost predicate Releasing(s: Sys, n: nat, q: Slot) {
    && Inner(n) in s.lock && s.lock[Inner(n)].Thread? && s.lock[Inner(n)].p < |s.proc|
    && var pc := s.proc[s.lock[Inner(n)].p].pc; pc.Waking? && pc.chan == OfSleepLock(n) && pc.q <= q
  }

  /** What a process has seen of a sleep lock stays true while it holds the spinlock in it, and whoever
      sleeps for a sleep lock sleeps for one that is set or about to be woken for. */
  ghost predicate SleeperOk(s: Sys, p: Slot)
    requires p < |s.proc|
  {
    var r := s.proc[p];
    && (r.pc.SetLock? ==> r.pc.n !in s.locked)
    && (r.pc.SleepIn? && r.pc.chan.OfSleepLock? ==> r.pc.chan.n in s.locked)
    && (forall n {:trigger Awaits(r, n)} :: Awaits(r, n) ==> n in s.locked || Releasing(s, n, p))
  }

  ghost predicate InvSleepers(s: Sys) {
    forall p {:trigger s.proc[p]} :: 0 <= p < |s.proc| ==> SleeperOk(s, p)
  }

  // ---- wait and exit ----

  /** How far wait has looked, with wait_lock held all along. */
  function Looked(pc: Pc, n: nat): nat {
    match pc
    case WaitScan(k, _) => k
    case WaitGo => n
    case SleepIn(_, lk, _) => if lk == WAIT then n else 0
    case _ => 0
  }

  /** p sleeps in wait. */
  predicate InWait(p: Slot, r: Proc) {
    r.waits == Some(Awaited(OfProc(p), WAIT))
  }

  /** Whoever holds wait_lock is about to wake q, because it has just given q a child. */
  ghost predicate Excused(s: Sys, q: Slot) {
    && WAIT in s.lock && s.lock[WAIT].Thread? && s.lock[WAIT].p < |s.proc|
    && var pc := s.proc[s.lock[WAIT].p].pc; pc.Waking? && pc.ret.ToReparent? && pc.chan == OfProc(q) && pc.q <= q
  }

  ghost predicate ZombieOk(s: Sys, x: Slot)
    requires x < |s.proc|
  {
    s.proc[x].state == ZOMBIE && s.proc[x].parent.Some? && s.proc[x].parent.v < |s.proc| ==>
      var q := s.proc[x].parent.v;
      && x >= Looked(s.proc[q].pc, |s.proc|)
      && (InWait(q, s.proc[q]) ==> Excused(s, q))
  }

  /** On the way out, the parent is woken and stays awake as long as wait_lock is held. */
  ghost predicate ExitOk(s: Sys, p: Slot)
    requires p < |s.proc|
  {
    match s.proc[p].pc
    case Waking(chan, _, ToReparent(_)) => chan == OfProc(s.init)
    case Waking(chan, _, ToExit) => s.proc[p].parent.Some? ==> chan == OfProc(s.proc[p].parent.v)
    case ExitLk => s.proc[p].parent.Some? && s.proc[p].parent.v < |s.proc| ==>
      !InWait(s.proc[p].parent.v, s.proc[s.proc[p].parent.v])
    case _ => true
  }

  ghost predicate InvZombies(s: Sys) {
    forall x {:trigger s.proc[x]} :: 0 <= x < |s.proc| ==> ZombieOk(s, x) && ExitOk(s, x)
  }

  ghost predicate Rest(s: Sys) {
    InvWake(s) && InvParents(s) && InvMakers(s) && InvPids(s) && InvSleepLocks(s) && InvSleepers(s) && InvZombies(s)
  }

  ghost predicate Inv(s: Sys) {
    Base(s) && Rest(s)
  }

  // ---- what each part depends on ----

  predicate CalmWake(r: Proc, r': Proc) {
    && (r'.waits == r.waits || r'.waits == None)
    && (r'.pc.Waking? ==> r'.pc == r.pc || r'.pc.q == 0)
  }

  ghost predicate CalmCores(s: Sys, s': Sys) {
    && |s'.cpu| == |s.cpu|
    && (forall c {:trigger s'.cpu[c]} :: 0 <= c < |s.cpu| && s'.cpu[c].pc.Alarm? ==>
          s'.cpu[c].pc == s.cpu[c].pc || s'.cpu[c].pc.at == 0)
  }

  lemma WakeFrame(s: Sys, s': Sys)
    requires InvWake(s) && |s'.proc| == |s.proc| && CalmCores(s, s')
    requires forall p {:trigger s'.proc[p]} :: 0 <= p < |s.proc| ==> CalmWake(s.proc[p], s'.proc[p])
    ensures InvWake(s')
  {
    forall w, q | 0 <= w < |s'.proc| && 0 <= q < |s'.proc| && w != q
      ensures Passed(s'.proc[w].pc, q, s'.proc[q].waits)
    {
      assert Passed(s.proc[w].pc, q, s.proc[q].waits);
    }
    forall c, q | 0 <= c < |s'.cpu| && 0 <= q < |s'.proc|
      ensures CorePassed(s'.cpu[c].pc, q, s'.proc[q].waits)
    {
      assert CorePassed(s.cpu[c].pc, q, s.proc[q].waits) && CalmWake(s.proc[q], s'.proc[q]);
    }
  }

  predicate CalmParents(r: Proc, r': Proc, n: nat) {
    && (r'.parent == r.parent || r'.parent == None) && (Alive(r.state) ==> Alive(r'.state))
          && Given(r'.pc, n) <= Given(r.pc, n)
  }

  lemma ParentsFrame(s: Sys, s': Sys)
    requires InvParents(s) && |s'.proc| == |s.proc| && s'.init == s.init && !Exiting(s'.proc[s.init].pc)
    requires forall p {:trigger s'.proc[p]} :: 0 <= p < |s.proc| ==> CalmParents(s.proc[p], s'.proc[p], |s.proc|)
    ensures InvParents(s')
  {
    hide Given;
    forall x | 0 <= x < |s'.proc|
      ensures ParentOk(s', x)
    {
      assert ParentOk(s, x);
      if s.proc[x].parent.Some? {
        assert CalmParents(s.proc[s.proc[x].parent.v], s'.proc[s.proc[x].parent.v], |s.proc|);
      }
    }
  }

  predicate CalmMakers(r: Proc, r': Proc) {
    && (r'.pc.ForkPar? || r'.pc.ForkEnd? ==> (r.pc.ForkPar? || r.pc.ForkEnd?) && r'.pc.q == r.pc.q)
    && (r.state == USED ==> r'.state == USED && r'.maker == r.maker)
  }

  lemma MakersFrame(s: Sys, s': Sys)
    requires InvMakers(s) && |s'.proc| == |s.proc|
    requires forall p {:trigger s'.proc[p]} :: 0 <= p < |s.proc| ==> CalmMakers(s.proc[p], s'.proc[p])
    ensures InvMakers(s')
  {
    forall x | 0 <= x < |s'.proc|
      ensures MakerOk(s', x)
    {
      assert MakerOk(s, x);
      if s'.proc[x].pc.ForkPar? || s'.proc[x].pc.ForkEnd? {
        assert CalmMakers(s.proc[s'.proc[x].pc.q], s'.proc[s'.proc[x].pc.q]);
      }
    }
  }

  predicate CalmPids(r: Proc, r': Proc) {
    r'.pid == r.pid && (r'.state == UNUSED <==> r.state == UNUSED)
  }

  lemma PidsFrame(s: Sys, s': Sys)
    requires InvPids(s) && |s'.proc| == |s.proc| && s'.nextpid >= s.nextpid && s'.reaped == s.reaped
    requires forall p {:trigger s'.proc[p]} :: 0 <= p < |s.proc| ==> CalmPids(s.proc[p], s'.proc[p])
    ensures InvPids(s')
  {
  }

  predicate CalmOwns(r: Proc, r': Proc) {
    && r'.owns == r.owns && (r'.state == UNUSED ==> r.state == UNUSED || r.owns == {})
    && (r'.state != UNUSED ==> r.state != UNUSED && r'.pid == r.pid)
  }

  lemma OwnsFrame(s: Sys, s': Sys)
    requires InvSleepLocks(s) && |s'.proc| == |s.proc| && s'.locked == s.locked && s'.nextpid >= s.nextpid
    requires forall p {:trigger s'.proc[p]} :: 0 <= p < |s.proc| ==> CalmOwns(s.proc[p], s'.proc[p])
    ensures InvSleepLocks(s')
  {
    forall p, n | 0 <= p < |s'.proc|
      ensures n in s'.proc[p].owns ==> s'.proc[p].state != UNUSED && HoldingSleep(s', p, n)
      ensures s'.proc[p].state != UNUSED && HoldingSleep(s', p, n) ==> n in s'.proc[p].owns
    {
      assert CalmOwns(s.proc[p], s'.proc[p]);
      assert s'.proc[p].state != UNUSED ==> HoldingSleep(s', p, n) == HoldingSleep(s, p, n);
    }
  }

  predicate CalmSleepers(r: Proc, r': Proc) {
    && (r'.pc.SetLock? ==> r'.pc == r.pc)
    && (r'.pc.SleepIn? && r'.pc.chan.OfSleepLock? ==> r'.pc == r.pc)
    && (r.pc.Waking? && r.pc.chan.OfSleepLock? ==> r'.pc == r.pc)
    && (r'.waits == r.waits || r'.waits == None)
  }

  /** At most the locks of thread p have been given up, and none while it is in wakeup. */
  ghost predicate LocksKept(s: Sys, p: Slot, s': Sys)
    requires p < |s.proc|
  {
    forall l {:trigger l in s'.lock} {:trigger l in s.lock} :: l in s.lock && s.lock[l].Thread? ==>
      (l in s'.lock && s'.lock[l] == s.lock[l]) || (s.lock[l] == Thread(p) && !s.proc[p].pc.Waking?)
  }

  lemma SleepersFrame(s: Sys, p: Slot, s': Sys)
    requires InvSleepers(s) && |s'.proc| == |s.proc| && s'.locked == s.locked && p < |s.proc| && LocksKept(s, p, s')
    requires forall x {:trigger s'.proc[x]} :: 0 <= x < |s.proc| ==> CalmSleepers(s.proc[x], s'.proc[x])
    ensures InvSleepers(s')
  {
    forall x | 0 <= x < |s'.proc|
      ensures SleeperOk(s', x)
    {
      assert SleeperOk(s, x) && CalmSleepers(s.proc[x], s'.proc[x]);
      forall n | Awaits(s'.proc[x], n)
        ensures n in s'.locked || Releasing(s', n, x)
      {
        assert Awaits(s.proc[x], n);
        if Releasing(s, n, x) {
          assert CalmSleepers(s.proc[s.lock[Inner(n)].p], s'.proc[s.lock[Inner(n)].p]);
        }
      }
    }
  }

  predicate CalmZombies(r: Proc, r': Proc, n: nat) {
    && (r'.state == ZOMBIE ==> r.state == ZOMBIE) && (r'.parent == r.parent || r'.parent == None)
    && Looked(r'.pc, n) <= Looked(r.pc, n) && (r'.waits == r.waits || r'.waits == None)
    && (r'.pc.ExitLk? || (r'.pc.Waking? && (r'.pc.ret.ToReparent? || r'.pc.ret.ToExit?)) ==> SameWay(r'.pc, r.pc))
  }

  /** The same call of wakeup, perhaps further on. */
  predicate SameWay(pc': Pc, pc: Pc) {
    if pc'.Waking? then pc.Waking? && pc'.chan == pc.chan && pc'.ret == pc.ret else pc' == pc
  }

  lemma ZombiesFrame(s: Sys, s': Sys)
    requires InvZombies(s) && |s'.proc| == |s.proc| && s'.init == s.init
    requires forall p {:trigger s'.proc[p]} :: 0 <= p < |s.proc| ==> CalmZombies(s.proc[p], s'.proc[p], |s.proc|)
    requires forall q {:trigger Excused(s', q)} :: 0 <= q < |s.proc| && Excused(s, q) ==>
      Excused(s', q) || !InWait(q, s'.proc[q])
    ensures InvZombies(s')
  {
    hide Looked;
    hide Excused;
    forall x | 0 <= x < |s'.proc|
      ensures ZombieOk(s', x) && ExitOk(s', x)
    {
      assert ZombieOk(s, x) && ExitOk(s, x) && CalmZombies(s.proc[x], s'.proc[x], |s.proc|);
      if s'.proc[x].parent.Some? && s'.proc[x].parent.v < |s.proc| {
        var q := s.proc[x].parent.v;
        assert CalmZombies(s.proc[q], s'.proc[q], |s.proc|);
        assert Excused(s, q) ==> Excused(s', q) || !InWait(q, s'.proc[q]);
      }
    }
  }

  // ---- steps that mean nothing to others ----

  predicate Calm(r: Proc, r': Proc, n: nat) {
    CalmWake(r, r') && CalmParents(r, r', n) && CalmMakers(r, r') && CalmPids(r, r') && CalmOwns(r, r')
      && CalmSleepers(r, r')
    && CalmZombies(r, r', n)
  }

  /** wait_lock does not change hands while reparent wakes init. */
  ghost predicate Steady(s: Sys, s': Sys)
    requires |s'.proc| == |s.proc|
  {
    forall q {:trigger Excused(s', q)} :: 0 <= q < |s.proc| && Excused(s, q) ==>
      Excused(s', q) || !InWait(q, s'.proc[q])
  }

  lemma CalmKeeps(s: Sys, p: Slot, s': Sys)
    requires Rest(s) && |s'.proc| == |s.proc| && p < |s.proc| && s'.init == s.init && !Exiting(s'.proc[s.init].pc)
    requires s'.nextpid >= s.nextpid && s'.reaped == s.reaped && s'.locked == s.locked
    requires Steady(s, s') && LocksKept(s, p, s') && CalmCores(s, s')
    requires forall x {:trigger s'.proc[x]} :: 0 <= x < |s.proc| ==> Calm(s.proc[x], s'.proc[x], |s.proc|)
    ensures Rest(s')
  {
    hide InvWake;
    hide InvMakers;
    hide InvPids;
    hide InvSleepLocks;
    hide InvSleepers;
    hide InvZombies;
    hide Excused;
    hide LocksKept;
    WakeFrame(s, s');
    ParentsFrame(s, s');
    MakersFrame(s, s');
    PidsFrame(s, s');
    OwnsFrame(s, s');
    SleepersFrame(s, p, s');
    ZombiesFrame(s, s');
  }
}
