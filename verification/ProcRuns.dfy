/** Whole runs of the process protocol, and what holds at the end of every one of them. */
module ProcRuns {
  import opened Collections
  import opened ProcSys
  import opened ProcInv
  import opened ProcRest
  import opened ProcSteps

  lemma MakerUsed(s: Sys, p: Slot)
    requires Rest(s) && p < |s.proc| && (s.proc[p].pc.ForkPar? || s.proc[p].pc.ForkEnd?)
    ensures s.proc[p].pc.q < |s.proc| && s.proc[s.proc[p].pc.q].state == USED
  {
    assert MakerOk(s, p);
  }

  /** The steps by where they are taken. */
  datatype Part = Scheduling | Resuming | Sleeping | Ending | Waiting | Locking | Interrupts

  function PartOf(st: Step): Part {
    match st
    case Choose(_, _) => Scheduling
    case Switch(_) => Scheduling
    case Leave(_) => Scheduling
    case Clear(_) => Scheduling
    case Unlock(_) => Scheduling
    case Return(_) => Resuming
    case TakeBack(_) => Resuming
    case Yield(_) => Resuming
    case Kill(_, _) => Resuming
    case Sleep(_, _, _) => Sleeping
    case SleepRelease(_) => Sleeping
    case SleepMark(_) => Sleeping
    case Acquire(_, _) => Sleeping
    case Release(_, _) => Sleeping
    case Wakeup(_, _) => Sleeping
    case WakeOne(_) => Sleeping
    case WakeEnd(_) => Sleeping
    case ForkAlloc(_, _) => Ending
    case ForkFail(_) => Ending
    case ForkParent(_) => Ending
    case ForkGo(_) => Ending
    case Exit(_) => Ending
    case ReparentOne(_) => Ending
    case ReparentEnd(_) => Ending
    case ExitZombie(_) => Ending
    case ExitRelease(_) => Ending
    case Wait(_) => Waiting
    case WaitLook(_) => Waiting
    case WaitFault(_) => Waiting
    case WaitKids(_) => Waiting
    case WaitSleep(_) => Waiting
    case WaitEnd(_) => Waiting
    case AcquireSleep(_, _) => Locking
    case TestSleep(_) => Locking
    case SetSleep(_) => Locking
    case ReleaseSleep(_, _) => Locking
    case ClearSleep(_) => Locking
    case DoneSleep(_) => Locking
    case IntrTake(_, _) => Interrupts
    case IntrWakeup(_, _) => Interrupts
    case IntrOne(_) => Interrupts
    case IntrEnd(_) => Interrupts
    case IntrDrop(_) => Interrupts
  }

  lemma SchedulingKeeps(s: Sys, st: Step, s': Sys)
    requires Inv(s) && Next(s, st) == Some(s') && PartOf(st).Scheduling?
    ensures Inv(s')
  {
    hide Base;
    hide Rest;
    match st {
      case Choose(c, q) =>
        ChooseKeeps(s, c, q);
        ChooseQuiet(s, c, q);
      case Switch(c) =>
        SwitchKeeps(s, c);
        SwitchQuiet(s, c);
      case Leave(c) =>
        LeaveKeeps(s, c);
        LeaveQuiet(s, c);
      case Clear(c) =>
        ClearKeeps(s, c);
        ClearQuiet(s, c);
      case Unlock(c) =>
        UnlockKeeps(s, c);
        UnlockQuiet(s, c);
      case _ =>
    }
  }

  lemma ResumingKeeps(s: Sys, st: Step, s': Sys)
    requires Inv(s) && Next(s, st) == Some(s') && PartOf(st).Resuming?
    ensures Inv(s')
  {
    hide Base;
    hide Rest;
    match st {
      case Return(p) =>
        ReturnKeeps(s, p);
        ReturnQuiet(s, p);
      case TakeBack(p) =>
        TakeBackKeeps(s, p);
        TakeBackQuiet(s, p);
      case Yield(p) =>
        YieldKeeps(s, p);
        YieldQuiet(s, p);
      case Kill(p, q) =>
        KillKeeps(s, p, q);
        KillQuiet(s, p, q);
      case _ =>
    }
  }

  lemma SleepingKeeps(s: Sys, st: Step, s': Sys)
    requires Inv(s) && Next(s, st) == Some(s') && PartOf(st).Sleeping?
    ensures Inv(s')
  {
    hide Base;
    hide Rest;
    match st {
      case Sleep(p, chan, lk) =>
        SleepKeeps(s, p, chan, lk);
        SleepQuiet(s, p, chan, lk);
      case SleepRelease(p) =>
        SleepReleaseKeeps(s, p);
        SleepReleaseRest(s, p);
      case SleepMark(p) =>
        SleepMarkKeeps(s, p);
        SleepMarkQuiet(s, p);
      case Acquire(p, l) =>
        AcquireKeeps(s, p, l);
        AcquireQuiet(s, p, l);
      case Release(p, l) =>
        ReleaseKeeps(s, p, l);
        ReleaseQuiet(s, p, l);
      case Wakeup(p, chan) =>
        WakeupKeeps(s, p, chan);
        WakeupQuiet(s, p, chan);
      case WakeOne(p) =>
        WakeOneKeeps(s, p);
        WakeOneRest(s, p);
      case WakeEnd(p) =>
        WakeEndKeeps(s, p);
        WakeEndRest(s, p);
      case _ =>
    }
  }

  lemma EndingKeeps(s: Sys, st: Step, s': Sys)
    requires Inv(s) && Next(s, st) == Some(s') && PartOf(st).Ending?
    ensures Inv(s')
  {
    hide Base;
    hide Rest;
    match st {
      case ForkAlloc(p, q) =>
        ForkAllocKeeps(s, p, q);
        ForkAllocRest(s, p, q);
      case ForkFail(p) =>
        SameBase(s, s');
        ForkFailQuiet(s, p);
      case ForkParent(p) =>
        MakerUsed(s, p);
        ForkParentKeeps(s, p);
        ForkParentRest(s, p);
      case ForkGo(p) =>
        MakerUsed(s, p);
        ForkGoKeeps(s, p);
        ForkGoRest(s, p);
      case Exit(p) =>
        ExitKeeps(s, p);
        ExitQuiet(s, p);
      case ReparentOne(p) =>
        ReparentOneKeeps(s, p);
        ReparentOneRest(s, p);
      case ReparentEnd(p) =>
        ReparentEndKeeps(s, p);
        ReparentEndRest(s, p);
      case ExitZombie(p) =>
        ExitZombieKeeps(s, p);
        ExitZombieRest(s, p);
      case ExitRelease(p) =>
        ExitReleaseKeeps(s, p);
        ExitReleaseQuiet(s, p);
      case _ =>
    }
  }

  lemma WaitingKeeps(s: Sys, st: Step, s': Sys)
    requires Inv(s) && Next(s, st) == Some(s') && PartOf(st).Waiting?
    ensures Inv(s')
  {
    hide Base;
    hide Rest;
    match st {
      case Wait(p) =>
        WaitKeeps(s, p);
        WaitQuiet(s, p);
      case WaitLook(p) =>
        WaitLookKeeps(s, p);
        WaitLookRest(s, p);
      case WaitFault(p) =>
        WaitFaultKeeps(s, p);
        WaitFaultQuiet(s, p);
      case WaitKids(p) =>
        WaitKidsKeeps(s, p);
        WaitKidsQuiet(s, p);
      case WaitSleep(p) =>
        WaitSleepKeeps(s, p);
        WaitSleepQuiet(s, p);
      case WaitEnd(p) =>
        WaitEndKeeps(s, p);
        WaitEndQuiet(s, p);
      case _ =>
    }
  }

  lemma LockingKeeps(s: Sys, st: Step, s': Sys)
    requires Inv(s) && Next(s, st) == Some(s') && PartOf(st).Locking?
    ensures Inv(s')
  {
    hide Base;
    hide Rest;
    match st {
      case AcquireSleep(p, n) =>
        AcquireSleepKeeps(s, p, n);
        AcquireSleepQuiet(s, p, n);
      case TestSleep(p) =>
        TestSleepKeeps(s, p);
        TestSleepRest(s, p);
      case SetSleep(p) =>
        SetSleepKeeps(s, p);
        SetSleepRest(s, p);
      case ReleaseSleep(p, n) =>
        ReleaseSleepKeeps(s, p, n);
        ReleaseSleepQuiet(s, p, n);
      case ClearSleep(p) =>
        ClearSleepKeeps(s, p);
        ClearSleepRest(s, p);
      case DoneSleep(p) =>
        DoneSleepKeeps(s, p);
        DoneSleepQuiet(s, p);
      case _ =>
    }
  }

  lemma InterruptsKeeps(s: Sys, st: Step, s': Sys)
    requires Inv(s) && Next(s, st) == Some(s') && PartOf(st).Interrupts?
    ensures Inv(s')
  {
    hide Base;
    hide Rest;
    match st {
      case IntrTake(c, l) =>
        IntrTakeKeeps(s, c, l);
        IntrTakeQuiet(s, c, l);
      case IntrWakeup(c, chan) =>
        IntrWakeupKeeps(s, c, chan);
        IntrWakeupQuiet(s, c, chan);
      case IntrOne(c) =>
        IntrOneKeeps(s, c);
        IntrOneRest(s, c);
      case IntrEnd(c) =>
        IntrEndKeeps(s, c);
        IntrEndQuiet(s, c);
      case IntrDrop(c) =>
        IntrDropKeeps(s, c);
        IntrDropQuiet(s, c);
      case _ =>
    }
  }

  lemma StepKeepsInv(s: Sys, st: Step, s': Sys)
    requires Inv(s) && Next(s, st) == Some(s')
    ensures Inv(s')
  {
    hide Inv;
    hide Next;
    match PartOf(st)
    case Scheduling => SchedulingKeeps(s, st, s');
    case Resuming => ResumingKeeps(s, st, s');
    case Sleeping => SleepingKeeps(s, st, s');
    case Ending => EndingKeeps(s, st, s');
    case Waiting => WaitingKeeps(s, st, s');
    case Locking => LockingKeeps(s, st, s');
    case Interrupts => InterruptsKeeps(s, st, s');
  }

  // ---- runs ----

  /** After procinit and userinit: one runnable process, and every core in its scheduler. */
  ghost predicate Init(s: Sys) {
    && s.init < |s.proc| && s.lock == map[] && s.locked == map[] && s.nextpid == 2 && s.reaped == []
    && (forall c {:trigger s.cpu[c]} :: 0 <= c < |s.cpu| ==> s.cpu[c] == Cpu(None, Idle))
    && (forall p {:trigger s.proc[p]} :: 0 <= p < |s.proc| ==>
          s.proc[p] == if p == s.init
                       then Proc(RUNNABLE, Nowhere, None, false, 1, true, None, Parked(Forkret), 0, None, None, {})
                       else Proc(UNUSED, Nowhere, None, false, 0, false, None, Gone, 0, None, None, {}))
  }

  /** Such a machine, for any number of slots and cores. */
  function Boot(procs: nat, cores: nat): (s: Sys)
    requires 0 < procs
    ensures Init(s) && |s.proc| == procs && |s.cpu| == cores
  {
    var init := Proc(RUNNABLE, Nowhere, None, false, 1, true, None, Parked(Forkret), 0, None, None, {});
    var unused := Proc(UNUSED, Nowhere, None, false, 0, false, None, Gone, 0, None, None, {});
    Sys(seq(procs, i => if i == 0 then init else unused), seq(cores, _ => Cpu(None, Idle)), map[], map[], 2, 0, [])
  }

  /** `run` can be taken step by step from s and ends in s'. */
  ghost predicate Runs(s: Sys, run: seq<Step>, s': Sys)
    decreases |run|
  {
    if run == [] then s' == s
    else Next(s, run[0]).Some? && Runs(Next(s, run[0]).v, run[1..], s')
  }

  lemma InitBase(s: Sys)
    requires Init(s)
    ensures Base(s)
  {
    forall p | 0 <= p < |s.proc|
      ensures RecordOk(p, s.proc[p]) && PlockOk(s, p) && Locks(s.proc[p].pc) == {}
    {
      assert !OnCore(s.proc[p].pc);
    }
  }

  lemma InitRest(s: Sys)
    requires Init(s)
    ensures Rest(s)
  {
    forall p | 0 <= p < |s.proc|
      ensures ParentOk(s, p) && MakerOk(s, p) && ZombieOk(s, p) && ExitOk(s, p) && SleeperOk(s, p)
    {
      assert s.proc[p].parent == None && s.proc[p].waits == None;
    }
  }

  lemma InitInv(s: Sys)
    requires Init(s)
    ensures Inv(s)
  {
    InitBase(s);
    InitRest(s);
  }

  lemma {:induction false} RunKeepsInv(s: Sys, run: seq<Step>, s': Sys)
    requires Inv(s) && Runs(s, run, s')
    ensures Inv(s')
    decreases |run|
  {
    hide Inv;
    if run != [] {
      StepKeepsInv(s, run[0], Next(s, run[0]).v);
      RunKeepsInv(Next(s, run[0]).v, run[1..], s');
    }
  }

  lemma Reached(s0: Sys, run: seq<Step>, s: Sys)
    requires Init(s0) && Runs(s0, run, s)
    ensures Inv(s)
  {
    InitInv(s0);
    RunKeepsInv(s0, run, s);
  }

  // ---- what every reachable state satisfies ----

  /** While p->lock is free, p is RUNNING exactly when one core, and only one, has c->proc == p. */
  lemma RunningOnOneCore(s0: Sys, run: seq<Step>, s: Sys, p: Slot)
    requires Init(s0) && Runs(s0, run, s) && p < |s.proc| && s.proc[p].lock == None
    ensures s.proc[p].state == RUNNING <==> exists c :: 0 <= c < |s.cpu| && s.cpu[c].proc == Some(p)
    ensures forall c, d {:trigger s.cpu[c], s.cpu[d]} ::
      0 <= c < |s.cpu| && 0 <= d < |s.cpu| && s.cpu[c].proc == Some(p) && s.cpu[d].proc == Some(p) ==> c == d
  {
    hide Rest;
    hide Init;
    hide Runs;
    Reached(s0, run, s);
    Recs(s, p);
    hide InvThreads;
    hide InvPlocks;
    hide InvLocks;
    if s.proc[p].state == RUNNING {
      assert s.cpu[s.proc[p].core].proc == Some(p);
    }
  }

  /** At most one core runs on the kernel stack of p or is switching to or from it, lock or no lock. */
  lemma OneCoreAtMost(s0: Sys, run: seq<Step>, s: Sys, p: Slot, c: Core, d: Core)
    requires Init(s0) && Runs(s0, run, s) && p < |s.proc| && c < |s.cpu| && d < |s.cpu|
    requires s.cpu[c].proc == Some(p) && s.cpu[d].proc == Some(p)
    ensures c == d && s.proc[p].kstack
  {
    hide Init;
    hide Runs;
    hide Rest;
    Reached(s0, run, s);
    Recs(s, p);
  }

  /** No parent pointer names a slot that is unused, half set up or a zombie. */
  lemma ParentsAlive(s0: Sys, run: seq<Step>, s: Sys, x: Slot)
    requires Init(s0) && Runs(s0, run, s) && x < |s.proc| && s.proc[x].parent.Some?
    ensures s.proc[x].parent.v < |s.proc| && Alive(s.proc[s.proc[x].parent.v].state) && s.proc[x].state != UNUSED
  {
    hide Init;
    hide Runs;
    Reached(s0, run, s);
    Recs(s, x);
    assert ParentOk(s, x);
  }

  /** No lost wakeup: when a wakeup by a holder of l comes to its end, no process is left that gave l up
      in a sleep on that channel and has not been woken since. */
  lemma NoLostWakeup(s0: Sys, run: seq<Step>, s: Sys, w: Slot, q: Slot, l: Lock)
    requires Init(s0) && Runs(s0, run, s) && CanWakeEnd(s, w) && l in RetLocks(s.proc[w].pc.ret) && q < |s.proc|
    ensures s.proc[q].waits != Some(Awaited(s.proc[w].pc.chan, l))
  {
    hide Inv;
    Reached(s0, run, s);
    NobodyLeft(s, w, q, l);
  }

  /** The same of a handler that an interrupt started on a core in its scheduler. */
  lemma NoLostWakeupByHandler(s0: Sys, run: seq<Step>, s: Sys, c: Core, q: Slot)
    requires Init(s0) && Runs(s0, run, s) && CanIntrEnd(s, c) && q < |s.proc|
    ensures s.proc[q].waits != Some(Awaited(s.cpu[c].pc.chan, s.cpu[c].pc.l))
  {
    hide Inv;
    Reached(s0, run, s);
    NobodyLeftByHandler(s, c, q);
  }

  /** .. and a process that has given l up and was not woken is asleep on its channel as soon as its
      lock can be taken, so that wakeup finds it. */
  lemma WaiterIsAsleep(s0: Sys, run: seq<Step>, s: Sys, q: Slot)
    requires Init(s0) && Runs(s0, run, s) && q < |s.proc| && s.proc[q].lock == None
    ensures s.proc[q].waits.Some? <==> s.proc[q].state == SLEEPING
    ensures s.proc[q].state == SLEEPING ==> s.proc[q].waits.v.chan == s.proc[q].chan
  {
    hide Init;
    hide Runs;
    hide Rest;
    Reached(s0, run, s);
    Recs(s, q);
  }

  /** While wait_lock is free, nobody sleeps in wait who has a zombie child. */
  lemma NoZombieMissed(s0: Sys, run: seq<Step>, s: Sys, q: Slot, x: Slot)
    requires Init(s0) && Runs(s0, run, s) && WAIT !in s.lock && q < |s.proc| && x < |s.proc|
    requires s.proc[x].state == ZOMBIE && s.proc[x].parent == Some(q)
    ensures !InWait(q, s.proc[q])
  {
    hide Init;
    hide Runs;
    hide Base;
    Reached(s0, run, s);
    assert ZombieOk(s, x);
  }

  /** No process is reaped twice, and no live process has the pid of a reaped one or of another. */
  lemma ReapedOnce(s0: Sys, run: seq<Step>, s: Sys)
    requires Init(s0) && Runs(s0, run, s)
    ensures forall i, j {:trigger s.reaped[i], s.reaped[j]} :: 0 <= i < j < |s.reaped| ==> s.reaped[i] != s.reaped[j]
    ensures forall p {:trigger s.proc[p]} :: 0 <= p < |s.proc| && s.proc[p].state != UNUSED ==>
      s.proc[p].pid !in s.reaped
  {
    hide Init;
    hide Runs;
    hide Base;
    Reached(s0, run, s);
  }

  /** The kernel stack that wait frees is in use on no core, and its thread will never run again. */
  lemma StackFreedLast(s0: Sys, run: seq<Step>, s: Sys, p: Slot, c: Core)
    requires Init(s0) && Runs(s0, run, s) && CanWaitLook(s, p) && c < |s.cpu|
    requires var k := s.proc[p].pc.next; s.proc[k].kstack && !DoWaitLook(s, p).proc[k].kstack
    ensures var k := s.proc[p].pc.next;
      s.proc[k].state == ZOMBIE && s.proc[k].pc == Parked(Never) && s.cpu[c].proc != Some(k) && s.cpu[c].pc != Away(k)
  {
    hide Rest;
    Reached(s0, run, s);
    hide Base;
    ZombieIsOff(s, s.proc[p].pc.next);
  }

  /** sched's checks never fail: p->lock is held by this core, it is the only lock the core holds, and
      the state has been changed.  The panic that follows it in exit is never reached. */
  lemma SchedChecks(s0: Sys, run: seq<Step>, s: Sys, p: Slot, l: Lock)
    requires Init(s0) && Runs(s0, run, s) && p < |s.proc|
    ensures s.proc[p].pc.Leaving? ==>
      s.proc[p].core < |s.cpu| && s.proc[p].lock == Some(s.proc[p].core) && s.cpu[s.proc[p].core].proc == Some(p)
        && s.proc[p].state != RUNNING
    ensures s.proc[p].pc.Leaving? && l in s.lock ==> s.lock[l] != Thread(p)
    ensures s.proc[p].pc != Landed(Never)
  {
    hide Init;
    hide Runs;
    hide Rest;
    Reached(s0, run, s);
    Recs(s, p);
  }

  /** A sleep lock has at most one owner; it comes from the spinlock inside it being held from the test of
      lk->locked to the setting. */
  lemma SleepLockExclusive(s0: Sys, run: seq<Step>, s: Sys, p: Slot, q: Slot, n: nat)
    requires Init(s0) && Runs(s0, run, s) && p < |s.proc| && q < |s.proc| && n in s.proc[p].owns && n in s.proc[q].owns
    ensures p == q && n in s.locked
  {
    hide Init;
    hide Runs;
    hide Base;
    Reached(s0, run, s);
    assert HoldingSleep(s, p, n) && HoldingSleep(s, q, n);
  }

  /** holdingsleep tells the truth: it is the pid of the owner that stands in the lock. */
  lemma HoldingSleepIsOwning(s0: Sys, run: seq<Step>, s: Sys, p: Slot, n: nat)
    requires Init(s0) && Runs(s0, run, s) && p < |s.proc| && s.proc[p].state != UNUSED
    ensures HoldingSleep(s, p, n) <==> n in s.proc[p].owns
  {
    hide Init;
    hide Runs;
    hide Base;
    Reached(s0, run, s);
  }

  /** The test of lk->locked is not stale when it is set: the lock is free and nobody owns it. */
  lemma TestIsFresh(s0: Sys, run: seq<Step>, s: Sys, p: Slot, q: Slot)
    requires Init(s0) && Runs(s0, run, s) && CanSetSleep(s, p) && q < |s.proc|
    ensures s.proc[p].pc.n !in s.locked && s.proc[p].pc.n !in s.proc[q].owns
  {
    hide Init;
    hide Runs;
    hide Base;
    Reached(s0, run, s);
    assert SleeperOk(s, p);
  }

  /** While a sleep lock is free and the spinlock in it is free too, nobody sleeps for it. */
  lemma NoSleeperOnFreeLock(s0: Sys, run: seq<Step>, s: Sys, q: Slot, n: nat)
    requires Init(s0) && Runs(s0, run, s) && n !in s.locked && Inner(n) !in s.lock && q < |s.proc|
    ensures s.proc[q].waits != Some(Awaited(OfSleepLock(n), Inner(n)))
  {
    hide Init;
    hide Runs;
    hide Base;
    Reached(s0, run, s);
    assert SleeperOk(s, q) && !Awaits(s.proc[q], n);
  }
}
