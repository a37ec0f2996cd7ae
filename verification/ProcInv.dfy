/** What every step of the process protocol keeps. */
module ProcInv {
  import opened Collections
  import opened ProcSys

  // ---- one process by itself ----

  /** The states in which a thread that went to sched with k may be found off its core. */
  predicate StateFits(st: PState, k: Resume) {
    match k
    case Forkret => st == USED || st == RUNNABLE || st == RUNNING
    case FromYield => st == RUNNABLE || st == RUNNING
    case FromSleep(_, _) => st == SLEEPING || st == RUNNABLE || st == RUNNING
    case Never => st == ZOMBIE
  }

  ghost predicate LocksOk(held: set<Lock>) {
    forall l {:trigger l in held} :: l in held ==> l.Spin?
  }

  predicate AfterOk(lk: Lock, after: After) {
    match after
    case ToScan => lk == WAIT
    case ToTest => lk.Inner?
    case ToCode => lk.Spin?
  }

  /** Sleeping in wait is on the process itself and with wait_lock, in acquiresleep on the sleep lock and
      with the spinlock in it; other code uses none of these. */
  predicate SleepOk(p: Slot, chan: Chan, lk: Lock, after: After) {
    match after
    case ToScan => chan == OfProc(p) && lk == WAIT
    case ToTest => lk.Inner? && chan == OfSleepLock(lk.n)
    case ToCode => chan.OfCode? && lk.Spin?
  }

  ghost predicate ThreadOk(p: Slot, r: Proc) {
    match r.pc
    case Gone => r.state == UNUSED && r.lock == None && r.parent == None && r.owns == {}
    case Parked(k) => StateFits(r.state, k) && ResumeOk(k)
    case Leaving(k) => StateFits(r.state, k) && r.state != RUNNING && r.state != USED && ResumeOk(k)
    case Landed(k) => r.state == RUNNING && k != Never && ResumeOk(k)
    case ExitZ => r.state == ZOMBIE
    case Code(held) => r.state == RUNNING && LocksOk(held)
    case SleepIn(chan, lk, after) => r.state == RUNNING && SleepOk(p, chan, lk, after)
    case SleepSet(chan, lk, after) => r.state == RUNNING && SleepOk(p, chan, lk, after)
    case Relock(lk, after) => r.state == RUNNING && AfterOk(lk, after)
    case Waking(chan, _, ret) => r.state == RUNNING && RetOk(chan, ret)
    case TestLock(_, held) => r.state == RUNNING && LocksOk(held)
    case SetLock(_, held) => r.state == RUNNING && LocksOk(held)
    case ClearLock(n, held) => r.state == RUNNING && LocksOk(held) && n in r.owns
    case DoneLock(_, held) => r.state == RUNNING && LocksOk(held)
    case _ => r.state == RUNNING
  }

  ghost predicate ResumeOk(k: Resume) {
    k.FromSleep? ==> AfterOk(k.lk, k.after)
  }

  ghost predicate RetOk(chan: Chan, ret: Ret) {
    match ret
    case ToCaller(held) => LocksOk(held) && chan.OfCode?
    case ToRelease(n, held) => LocksOk(held) && chan == OfSleepLock(n)
    case _ => true
  }

  /** A process waits exactly from the moment sleep gives up lk until someone wakes it, and all that
      time it is asleep on its channel or still holds its own lock on the way there. */
  ghost predicate WaitsOk(p: Slot, r: Proc) {
    match r.pc
    case SleepSet(chan, lk, _) => r.waits == Some(Awaited(chan, lk))
    case Leaving(FromSleep(lk, after)) => r.state == SLEEPING && r.waits == Some(Awaited(r.chan, lk))
      && SleepOk(p, r.chan, lk, after)
    case Parked(FromSleep(lk, after)) =>
      if r.state == SLEEPING then r.waits == Some(Awaited(r.chan, lk)) && SleepOk(p, r.chan, lk, after)
        else r.waits == None
    case _ => r.waits == None
  }

  /** Between the guard at the head of exit and the reaping. */
  predicate Exiting(pc: Pc) {
    match pc
    case Reparent(_) => true
    case Waking(_, _, ret) => ret.ToReparent? || ret.ToExit?
    case ExitLk => true
    case ExitZ => true
    case Leaving(k) => k == Never
    case Parked(k) => k == Never
    case _ => false
  }

  ghost predicate RecordOk(p: Slot, r: Proc) {
    && ThreadOk(p, r) && WaitsOk(p, r)
    && (r.kstack <==> r.state != UNUSED) && (Exiting(r.pc) ==> r.owns == {})
  }

  ghost predicate InvThreads(s: Sys) {
    forall p {:trigger s.proc[p]} :: 0 <= p < |s.proc| ==> RecordOk(p, s.proc[p])
  }

  // ---- processes and cores ----

  ghost predicate InvCores(s: Sys) {
    forall c {:trigger s.cpu[c]} :: 0 <= c < |s.cpu| ==>
      match s.cpu[c].pc
      case Idle => s.cpu[c].proc == None
      case Chosen(q) => q < |s.proc| && s.cpu[c].proc == Some(q) && s.proc[q].lock == Some(c) && s.proc[q].pc.Parked?
        && s.proc[q].state == RUNNING
      case Away(q) => q < |s.proc| && s.cpu[c].proc == Some(q) && s.proc[q].core == c && OnCore(s.proc[q].pc)
      case Back(q) => q < |s.proc| && s.cpu[c].proc == Some(q) && s.proc[q].lock == Some(c) && s.proc[q].pc.Parked?
        && s.proc[q].state != RUNNING
      case Cleared(q) => q < |s.proc| && s.cpu[c].proc == None && s.proc[q].lock == Some(c) && s.proc[q].pc.Parked?
        && s.proc[q].state != RUNNING
      case Handling(l) => s.cpu[c].proc == None && l.Spin?
      case Alarm(l, _, _) => s.cpu[c].proc == None && l.Spin?
  }

  /** The scheduler of core c has p->lock. */
  predicate SchedHas(s: Sys, c: Core, p: Slot) {
    c < |s.cpu| && (s.cpu[c].pc == Chosen(p) || s.cpu[c].pc == Back(p) || s.cpu[c].pc == Cleared(p))
  }

  /** p->lock is held by the core that is switching to or from p, or by p itself, and by no other. */
  ghost predicate PlockOk(s: Sys, p: Slot)
    requires p < |s.proc|
  {
    var r := s.proc[p];
    && (OnCore(r.pc) ==>
          && r.core < |s.cpu| && s.cpu[r.core].pc == Away(p)
          && r.lock == if OwnLock(r.pc) then Some(r.core) else None)
    && (!OnCore(r.pc) && r.lock.Some? ==> SchedHas(s, r.lock.v, p))
    && (r.pc.Parked? && r.state == RUNNING ==> r.lock.Some?)
  }

  ghost predicate InvPlocks(s: Sys) {
    forall p {:trigger s.proc[p]} :: 0 <= p < |s.proc| ==> PlockOk(s, p)
  }

  ghost predicate HolderOk(s: Sys, l: Lock)
    requires l in s.lock
  {
    match s.lock[l]
    case Thread(p) => p < |s.proc| && l in Locks(s.proc[p].pc)
    case Handler(c) => c < |s.cpu| && l in CoreLocks(s.cpu[c].pc)
  }

  /** The table of held spinlocks says who holds what. */
  ghost predicate InvLocks(s: Sys) {
    && (forall l {:trigger l in s.lock} :: l in s.lock ==> HolderOk(s, l))
    && (forall p, l {:trigger l in Locks(s.proc[p].pc)} :: 0 <= p < |s.proc| && l in Locks(s.proc[p].pc) ==>
          l in s.lock && s.lock[l] == Thread(p))
    && (forall c, l {:trigger l in CoreLocks(s.cpu[c].pc)} :: 0 <= c < |s.cpu| && l in CoreLocks(s.cpu[c].pc) ==>
          l in s.lock && s.lock[l] == Handler(c))
  }

  ghost predicate Base(s: Sys) {
    InvThreads(s) && InvCores(s) && InvPlocks(s) && InvLocks(s)
  }

  // ---- steps that change only the acting thread ----

  /** Thread p, on its core, becomes r and the lock table follows what r holds. */
  ghost predicate Acts(s: Sys, p: Slot, r: Proc, s': Sys) {
    && At(s, p) && s'.proc == s.proc[p := r] && s'.cpu == s.cpu
    && OnCore(r.pc) && r.core == s.proc[p].core && r.lock == (if OwnLock(r.pc) then Some(r.core) else None)
    && RecordOk(p, r)
    && (forall l {:trigger l in Locks(r.pc)} :: l in Locks(r.pc) ==>
          l in s'.lock && s'.lock[l] == Thread(p) && (l !in s.lock || s.lock[l] == Thread(p)))
    && (forall l {:trigger l in s'.lock} :: l in s'.lock && l !in Locks(r.pc) ==>
          l in s.lock && s.lock[l] != Thread(p) && s'.lock[l] == s.lock[l])
    && (forall l {:trigger l in s.lock} :: l in s.lock && s.lock[l] != Thread(p) ==>
          l in s'.lock && s'.lock[l] == s.lock[l])
  }

  lemma ActsKeeps(s: Sys, p: Slot, r: Proc, s': Sys)
    requires Base(s) && Acts(s, p, r, s')
    ensures Base(s')
  {
    hide RecordOk;
    forall q | 0 <= q < |s'.proc|
      ensures PlockOk(s', q)
    {
      assert PlockOk(s, q);
      assert q != p ==> s'.proc[q] == s.proc[q];
    }
  }

  // ---- steps that change a thread that is off its core ----

  ghost predicate Rests(s: Sys, q: Slot, r: Proc, s': Sys) {
    && q < |s.proc| && s'.proc == s.proc[q := r] && s'.cpu == s.cpu && s'.lock == s.lock
    && !OnCore(s.proc[q].pc) && !OnCore(r.pc) && s.proc[q].lock == None && r.lock == None && r.state != RUNNING
    && RecordOk(q, r)
  }

  lemma RestsKeeps(s: Sys, q: Slot, r: Proc, s': Sys)
    requires Base(s) && Rests(s, q, r, s')
    ensures Base(s')
  {
    hide RecordOk;
    forall p | 0 <= p < |s'.proc|
      ensures PlockOk(s', p)
    {
      assert PlockOk(s, p);
      assert p != q ==> s'.proc[p] == s.proc[p];
    }
  }

  /** Only what no thread relies on has changed. */
  ghost predicate Marks(s: Sys, q: Slot, r: Proc, s': Sys) {
    && q < |s.proc| && s'.proc == s.proc[q := r] && s'.cpu == s.cpu && s'.lock == s.lock && RecordOk(q, r)
    && r.pc == s.proc[q].pc && r.lock == s.proc[q].lock && r.core == s.proc[q].core && r.state == s.proc[q].state
  }

  lemma MarksKeeps(s: Sys, q: Slot, r: Proc, s': Sys)
    requires Base(s) && Marks(s, q, r, s')
    ensures Base(s')
  {
    hide RecordOk;
    forall p | 0 <= p < |s'.proc|
      ensures PlockOk(s', p)
    {
      assert PlockOk(s, p);
      assert p != q ==> s'.proc[p] == s.proc[p];
    }
  }

  // ---- the scheduler ----

  /** A step of the scheduler changes one process, with no spinlock before or after, and one core. */
  lemma SchedParts(s: Sys, q: Slot, s': Sys)
    requires InvThreads(s) && InvLocks(s) && q < |s.proc| == |s'.proc|
    requires s'.proc == s.proc[q := s'.proc[q]] && s'.lock == s.lock
    requires RecordOk(q, s'.proc[q]) && Locks(s'.proc[q].pc) == {} == Locks(s.proc[q].pc)
    requires |s'.cpu| == |s.cpu| && forall c {:trigger s'.cpu[c]} :: 0 <= c < |s.cpu| ==>
      CoreLocks(s'.cpu[c].pc) == CoreLocks(s.cpu[c].pc)
    ensures InvThreads(s') && InvLocks(s')
  {
    hide RecordOk;
    hide Locks;
    hide CoreLocks;
    forall p, l | 0 <= p < |s'.proc| && l in Locks(s'.proc[p].pc)
      ensures l in s'.lock && s'.lock[l] == Thread(p)
    {
      assert l in Locks(s.proc[p].pc);
    }
    forall c, l | 0 <= c < |s'.cpu| && l in CoreLocks(s'.cpu[c].pc)
      ensures l in s'.lock && s'.lock[l] == Handler(c)
    {
      assert l in CoreLocks(s.cpu[c].pc);
    }
    forall l | l in s'.lock
      ensures HolderOk(s', l)
    {
      assert HolderOk(s, l);
      assert s.lock[l].Handler? ==> CoreLocks(s'.cpu[s.lock[l].c].pc) == CoreLocks(s.cpu[s.lock[l].c].pc);
    }
  }

  lemma ChooseKeeps(s: Sys, c: Core, q: Slot)
    requires Base(s) && CanChoose(s, c, q)
    ensures Base(DoChoose(s, c, q))
  {
    var s' := DoChoose(s, c, q);
    assert RecordOk(q, s.proc[q]) && PlockOk(s, q) && s.proc[q].pc.Parked?;
    SchedParts(s, q, s');
    hide RecordOk;
    hide InvThreads;
    hide InvLocks;
    forall p | 0 <= p < |s'.proc|
      ensures PlockOk(s', p)
    {
      assert PlockOk(s, p);
    }
  }

  lemma SwitchKeeps(s: Sys, c: Core)
    requires Base(s) && CanSwitch(s, c)
    ensures Base(DoSwitch(s, c))
  {
    var q, s' := s.cpu[c].pc.q, DoSwitch(s, c);
    assert RecordOk(q, s.proc[q]) && PlockOk(s, q);
    SchedParts(s, q, s');
    hide RecordOk;
    hide InvThreads;
    hide InvLocks;
    forall p | 0 <= p < |s'.proc|
      ensures PlockOk(s', p)
    {
      assert PlockOk(s, p);
    }
  }

  lemma LeaveKeeps(s: Sys, c: Core)
    requires Base(s) && CanLeave(s, c)
    ensures Base(DoLeave(s, c))
  {
    var q, s' := s.cpu[c].pc.q, DoLeave(s, c);
    assert RecordOk(q, s.proc[q]) && PlockOk(s, q);
    SchedParts(s, q, s');
    hide RecordOk;
    hide InvThreads;
    hide InvLocks;
    forall p | 0 <= p < |s'.proc|
      ensures PlockOk(s', p)
    {
      assert PlockOk(s, p);
    }
  }

  lemma ClearKeeps(s: Sys, c: Core)
    requires Base(s) && CanClear(s, c)
    ensures Base(DoClear(s, c))
  {
    var q, s' := s.cpu[c].pc.q, DoClear(s, c);
    assert RecordOk(q, s.proc[q]) && s.proc[q].pc.Parked?;
    assert s'.proc == s.proc[q := s'.proc[q]];
    SchedParts(s, q, s');
    hide RecordOk;
    hide InvThreads;
    hide InvLocks;
    forall p | 0 <= p < |s'.proc|
      ensures PlockOk(s', p)
    {
      assert PlockOk(s, p);
    }
  }

  lemma UnlockKeeps(s: Sys, c: Core)
    requires Base(s) && CanUnlock(s, c)
    ensures Base(DoUnlock(s, c))
  {
    var q, s' := s.cpu[c].pc.q, DoUnlock(s, c);
    assert RecordOk(q, s.proc[q]) && PlockOk(s, q) && s.proc[q].pc.Parked?;
    SchedParts(s, q, s');
    hide RecordOk;
    hide InvThreads;
    hide InvLocks;
    forall p | 0 <= p < |s'.proc|
      ensures PlockOk(s', p)
    {
      assert PlockOk(s, p);
    }
  }

  // ---- threads ----

  lemma Recs(s: Sys, p: Slot)
    requires Base(s) && p < |s.proc|
    ensures RecordOk(p, s.proc[p]) && PlockOk(s, p)
  {
  }

  lemma Own(s: Sys, p: Slot)
    requires Base(s) && At(s, p)
    ensures RecordOk(p, s.proc[p]) && PlockOk(s, p)
    ensures forall l {:trigger l in s.lock} :: l in s.lock && s.lock[l] == Thread(p) ==> l in Locks(s.proc[p].pc)
    ensures forall l {:trigger l in Locks(s.proc[p].pc)} {:trigger l in s.lock} :: l in Locks(s.proc[p].pc) ==>
      l in s.lock && s.lock[l] == Thread(p)
  {
  }

  lemma ReturnKeeps(s: Sys, p: Slot)
    requires Base(s) && CanReturn(s, p)
    ensures Base(DoReturn(s, p))
  {
    hide Base;
    Own(s, p);
    ActsKeeps(s, p, DoReturn(s, p).proc[p], DoReturn(s, p));
  }

  lemma TakeBackKeeps(s: Sys, p: Slot)
    requires Base(s) && CanTakeBack(s, p)
    ensures Base(DoTakeBack(s, p))
  {
    hide Base;
    Own(s, p);
    ActsKeeps(s, p, DoTakeBack(s, p).proc[p], DoTakeBack(s, p));
  }

  lemma YieldKeeps(s: Sys, p: Slot)
    requires Base(s) && CanYield(s, p)
    ensures Base(DoYield(s, p))
  {
    hide Base;
    Own(s, p);
    ActsKeeps(s, p, DoYield(s, p).proc[p], DoYield(s, p));
  }

  lemma SleepKeeps(s: Sys, p: Slot, chan: Chan, lk: Lock)
    requires Base(s) && CanSleep(s, p, chan, lk)
    ensures Base(DoSleep(s, p, chan, lk))
  {
    hide Base;
    Own(s, p);
    var s' := DoSleep(s, p, chan, lk);
    assert Locks(s'.proc[p].pc) == Locks(s.proc[p].pc);
    ActsKeeps(s, p, s'.proc[p], s');
  }

  lemma SleepReleaseKeeps(s: Sys, p: Slot)
    requires Base(s) && CanSleepRelease(s, p)
    ensures Base(DoSleepRelease(s, p))
  {
    hide Base;
    Own(s, p);
    ActsKeeps(s, p, DoSleepRelease(s, p).proc[p], DoSleepRelease(s, p));
  }

  lemma SleepMarkKeeps(s: Sys, p: Slot)
    requires Base(s) && CanSleepMark(s, p)
    ensures Base(DoSleepMark(s, p))
  {
    hide Base;
    Own(s, p);
    ActsKeeps(s, p, DoSleepMark(s, p).proc[p], DoSleepMark(s, p));
  }

  lemma AcquireKeeps(s: Sys, p: Slot, l: Lock)
    requires Base(s) && CanAcquire(s, p, l)
    ensures Base(DoAcquire(s, p, l))
  {
    hide Base;
    Own(s, p);
    ActsKeeps(s, p, DoAcquire(s, p, l).proc[p], DoAcquire(s, p, l));
  }

  lemma ReleaseKeeps(s: Sys, p: Slot, l: Lock)
    requires Base(s) && CanRelease(s, p, l)
    ensures Base(DoRelease(s, p, l))
  {
    hide Base;
    Own(s, p);
    ActsKeeps(s, p, DoRelease(s, p, l).proc[p], DoRelease(s, p, l));
  }

  lemma WakeupKeeps(s: Sys, p: Slot, chan: Chan)
    requires Base(s) && CanWakeup(s, p, chan)
    ensures Base(DoWakeup(s, p, chan))
  {
    hide Base;
    Own(s, p);
    var s' := DoWakeup(s, p, chan);
    assert Locks(s'.proc[p].pc) == Locks(s.proc[p].pc);
    ActsKeeps(s, p, s'.proc[p], s');
  }

  lemma WakeEndKeeps(s: Sys, p: Slot)
    requires Base(s) && CanWakeEnd(s, p)
    ensures Base(DoWakeEnd(s, p))
  {
    hide Base;
    Own(s, p);
    var s' := DoWakeEnd(s, p);
    assert Locks(s'.proc[p].pc) == Locks(s.proc[p].pc);
    ActsKeeps(s, p, s'.proc[p], s');
  }

  lemma ExitKeeps(s: Sys, p: Slot)
    requires Base(s) && CanExit(s, p)
    ensures Base(DoExit(s, p))
  {
    hide Base;
    Own(s, p);
    ActsKeeps(s, p, DoExit(s, p).proc[p], DoExit(s, p));
  }

  lemma ReparentEndKeeps(s: Sys, p: Slot)
    requires Base(s) && CanReparentEnd(s, p)
    ensures Base(DoReparentEnd(s, p))
  {
    hide Base;
    Own(s, p);
    assert WAIT in Locks(s.proc[p].pc);
    var s' := DoReparentEnd(s, p);
    assert Locks(s'.proc[p].pc) == Locks(s.proc[p].pc);
    ActsKeeps(s, p, s'.proc[p], s');
  }

  lemma ExitZombieKeeps(s: Sys, p: Slot)
    requires Base(s) && CanExitZombie(s, p)
    ensures Base(DoExitZombie(s, p))
  {
    hide Base;
    Own(s, p);
    assert WAIT in Locks(s.proc[p].pc);
    var s' := DoExitZombie(s, p);
    assert Locks(s'.proc[p].pc) == Locks(s.proc[p].pc);
    ActsKeeps(s, p, s'.proc[p], s');
  }

  lemma ExitReleaseKeeps(s: Sys, p: Slot)
    requires Base(s) && CanExitRelease(s, p)
    ensures Base(DoExitRelease(s, p))
  {
    hide Base;
    Own(s, p);
    assert WAIT in Locks(s.proc[p].pc);
    ActsKeeps(s, p, DoExitRelease(s, p).proc[p], DoExitRelease(s, p));
  }

  lemma WaitKeeps(s: Sys, p: Slot)
    requires Base(s) && CanWait(s, p)
    ensures Base(DoWait(s, p))
  {
    hide Base;
    Own(s, p);
    ActsKeeps(s, p, DoWait(s, p).proc[p], DoWait(s, p));
  }

  lemma WaitFaultKeeps(s: Sys, p: Slot)
    requires Base(s) && CanWaitFault(s, p)
    ensures Base(DoWaitFault(s, p))
  {
    hide Base;
    Own(s, p);
    assert WAIT in Locks(s.proc[p].pc);
    var s' := DoWaitFault(s, p);
    assert Locks(s'.proc[p].pc) == Locks(s.proc[p].pc);
    ActsKeeps(s, p, s'.proc[p], s');
  }

  lemma WaitKidsKeeps(s: Sys, p: Slot)
    requires Base(s) && CanWaitKids(s, p)
    ensures Base(DoWaitKids(s, p))
  {
    hide Base;
    Own(s, p);
    assert WAIT in Locks(s.proc[p].pc);
    var s' := DoWaitKids(s, p);
    assert Locks(s'.proc[p].pc) == Locks(s.proc[p].pc);
    ActsKeeps(s, p, s'.proc[p], s');
  }

  lemma WaitSleepKeeps(s: Sys, p: Slot)
    requires Base(s) && CanWaitSleep(s, p)
    ensures Base(DoWaitSleep(s, p))
  {
    hide Base;
    Own(s, p);
    assert WAIT in Locks(s.proc[p].pc);
    var s' := DoWaitSleep(s, p);
    assert Locks(s'.proc[p].pc) == Locks(s.proc[p].pc);
    ActsKeeps(s, p, s'.proc[p], s');
  }

  lemma WaitEndKeeps(s: Sys, p: Slot)
    requires Base(s) && CanWaitEnd(s, p)
    ensures Base(DoWaitEnd(s, p))
  {
    hide Base;
    Own(s, p);
    assert WAIT in Locks(s.proc[p].pc);
    ActsKeeps(s, p, DoWaitEnd(s, p).proc[p], DoWaitEnd(s, p));
  }

  lemma AcquireSleepKeeps(s: Sys, p: Slot, n: nat)
    requires Base(s) && CanAcquireSleep(s, p, n)
    ensures Base(DoAcquireSleep(s, p, n))
  {
    hide Base;
    Own(s, p);
    ActsKeeps(s, p, DoAcquireSleep(s, p, n).proc[p], DoAcquireSleep(s, p, n));
  }

  lemma TestSleepKeeps(s: Sys, p: Slot)
    requires Base(s) && CanTestSleep(s, p)
    ensures Base(DoTestSleep(s, p))
  {
    hide Base;
    Own(s, p);
    var s' := DoTestSleep(s, p);
    assert Locks(s'.proc[p].pc) == Locks(s.proc[p].pc);
    ActsKeeps(s, p, s'.proc[p], s');
  }

  lemma SetSleepKeeps(s: Sys, p: Slot)
    requires Base(s) && CanSetSleep(s, p)
    ensures Base(DoSetSleep(s, p))
  {
    hide Base;
    Own(s, p);
    var s' := DoSetSleep(s, p);
    assert Locks(s'.proc[p].pc) == Locks(s.proc[p].pc);
    ActsKeeps(s, p, s'.proc[p], s');
  }

  lemma ReleaseSleepKeeps(s: Sys, p: Slot, n: nat)
    requires Base(s) && CanReleaseSleep(s, p, n)
    ensures Base(DoReleaseSleep(s, p, n))
  {
    hide Base;
    Own(s, p);
    ActsKeeps(s, p, DoReleaseSleep(s, p, n).proc[p], DoReleaseSleep(s, p, n));
  }

  lemma ClearSleepKeeps(s: Sys, p: Slot)
    requires Base(s) && CanClearSleep(s, p)
    ensures Base(DoClearSleep(s, p))
  {
    hide Base;
    Own(s, p);
    var s' := DoClearSleep(s, p);
    assert Locks(s'.proc[p].pc) == Locks(s.proc[p].pc);
    ActsKeeps(s, p, s'.proc[p], s');
  }

  lemma DoneSleepKeeps(s: Sys, p: Slot)
    requires Base(s) && CanDoneSleep(s, p)
    ensures Base(DoDoneSleep(s, p))
  {
    hide Base;
    Own(s, p);
    ActsKeeps(s, p, DoDoneSleep(s, p).proc[p], DoDoneSleep(s, p));
  }

  // ---- threads that change another process on the way ----

  lemma WokenRests(s: Sys, q: Slot, r: Proc)
    requires Base(s) && q < |s.proc| && s.proc[q].lock == None && s.proc[q].state == SLEEPING
    requires r == Woken(s.proc[q]) || r == Woken(s.proc[q].(killed := true))
    ensures Rests(s, q, r, WithProc(s, q, r))
  {
    hide Base;
    Recs(s, q);
  }

  lemma WakeOneKeeps(s: Sys, p: Slot)
    requires Base(s) && CanWakeOne(s, p)
    ensures Base(DoWakeOne(s, p))
  {
    hide Base;
    var q, s' := s.proc[p].pc.q, DoWakeOne(s, p);
    var s1 := if q != p && s.proc[q].state == SLEEPING && s.proc[q].chan == s.proc[p].pc.chan
      then WithProc(s, q, Woken(s.proc[q])) else s;
    if s1 != s {
      WokenRests(s, q, Woken(s.proc[q]));
      RestsKeeps(s, q, Woken(s.proc[q]), s1);
    }
    Recs(s, p);
    ThenMoves(s1, p, s.proc[p].pc.(q := q + 1));
  }

  lemma KillKeeps(s: Sys, p: Slot, q: Slot)
    requires Base(s) && CanKill(s, p, q)
    ensures Base(DoKill(s, p, q))
  {
    hide Base;
    var r, s' := DoKill(s, p, q).proc[q], DoKill(s, p, q);
    Recs(s, q);
    if s.proc[q].state == SLEEPING {
      WokenRests(s, q, r);
      RestsKeeps(s, q, r, s');
    } else {
      MarksKeeps(s, q, r, s');
    }
  }

  lemma ForkAllocKeeps(s: Sys, p: Slot, q: Slot)
    requires Base(s) && CanForkAlloc(s, p, q)
    ensures Base(DoForkAlloc(s, p, q))
  {
    hide Base;
    var s' := DoForkAlloc(s, p, q);
    var r := s'.proc[q];
    var s1 := WithProc(s, q, r);
    Recs(s, q);
    RestsKeeps(s, q, r, s1);
    Own(s1, p);
    ActsKeeps(s1, p, s'.proc[p], s');
  }

  lemma ForkParentKeeps(s: Sys, p: Slot)
    requires Base(s) && CanForkParent(s, p) && s.proc[s.proc[p].pc.q].state == USED
    ensures Base(DoForkParent(s, p))
  {
    hide Base;
    var q, s' := s.proc[p].pc.q, DoForkParent(s, p);
    var r := s'.proc[q];
    var s1 := WithProc(s, q, r);
    Recs(s, q);
    MarksKeeps(s, q, r, s1);
    Own(s1, p);
    ActsKeeps(s1, p, s'.proc[p], s');
  }

  lemma ForkGoKeeps(s: Sys, p: Slot)
    requires Base(s) && CanForkGo(s, p) && s.proc[s.proc[p].pc.q].state == USED
    ensures Base(DoForkGo(s, p))
  {
    hide Base;
    var q, s' := s.proc[p].pc.q, DoForkGo(s, p);
    var r := s'.proc[q];
    var s1 := WithProc(s, q, r);
    Recs(s, q);
    RestsKeeps(s, q, r, s1);
    Own(s1, p);
    ActsKeeps(s1, p, s'.proc[p], s');
  }

  lemma ReparentOneKeeps(s: Sys, p: Slot)
    requires Base(s) && CanReparentOne(s, p)
    ensures Base(DoReparentOne(s, p))
  {
    hide Base;
    Recs(s, p);
    var k := s.proc[p].pc.next;
    if s.proc[k].parent == Some(p) {
      var s1 := WithProc(s, k, s.proc[k].(parent := Some(s.init)));
      Recs(s, k);
      MarksKeeps(s, k, s1.proc[k], s1);
      ThenMoves(s1, p, Waking(OfProc(s.init), 0, ToReparent(k + 1)));
    } else {
      ThenMoves(s, p, Reparent(k + 1));
    }
  }

  /** The thread goes on with the same locks. */
  lemma ThenMoves(s: Sys, p: Slot, pc: Pc)
    requires Base(s) && At(s, p) && OnCore(pc) && Locks(pc) == Locks(s.proc[p].pc)
    requires OwnLock(pc) == OwnLock(s.proc[p].pc) && RecordOk(p, s.proc[p].(pc := pc))
    ensures Base(WithPc(s, p, pc))
  {
    hide Base;
    hide RecordOk;
    Own(s, p);
    ActsKeeps(s, p, s.proc[p].(pc := pc), WithPc(s, p, pc));
  }

  // ---- interrupt handlers ----

  /** Core c, on which no process runs, goes on and the lock table follows what its handler holds. */
  ghost predicate CoreActs(s: Sys, c: Core, pc: SchedPc, s': Sys) {
    && c < |s.cpu| && s'.proc == s.proc && s'.cpu == s.cpu[c := s.cpu[c].(pc := pc)]
    && (s.cpu[c].pc.Idle? || s.cpu[c].pc.Handling? || s.cpu[c].pc.Alarm?)
          && (pc.Idle? || ((pc.Handling? || pc.Alarm?) && pc.l.Spin?))
    && (forall l {:trigger l in CoreLocks(pc)} :: l in CoreLocks(pc) ==>
          l in s'.lock && s'.lock[l] == Handler(c) && (l !in s.lock || s.lock[l] == Handler(c)))
    && (forall l {:trigger l in s'.lock} :: l in s'.lock && l !in CoreLocks(pc) ==>
          l in s.lock && s.lock[l] != Handler(c) && s'.lock[l] == s.lock[l])
    && (forall l {:trigger l in s.lock} :: l in s.lock && s.lock[l] != Handler(c) ==>
          l in s'.lock && s'.lock[l] == s.lock[l])
  }

  lemma CoreActsLocks(s: Sys, c: Core, pc: SchedPc, s': Sys)
    requires InvLocks(s) && CoreActs(s, c, pc, s')
    ensures InvLocks(s')
  {
    hide Locks;
    hide CoreLocks;
    forall d, l | 0 <= d < |s'.cpu| && l in CoreLocks(s'.cpu[d].pc)
      ensures l in s'.lock && s'.lock[l] == Handler(d)
    {
      assert d != c ==> l in CoreLocks(s.cpu[d].pc);
    }
  }

  lemma CoreActsKeeps(s: Sys, c: Core, pc: SchedPc, s': Sys)
    requires Base(s) && CoreActs(s, c, pc, s')
    ensures Base(s')
  {
    hide RecordOk;
    hide InvLocks;
    CoreActsLocks(s, c, pc, s');
    assert s.cpu[c].proc == None;
    forall q | 0 <= q < |s'.proc|
      ensures PlockOk(s', q)
    {
      assert PlockOk(s, q);
    }
  }

  lemma OwnCore(s: Sys, c: Core)
    requires Base(s) && c < |s.cpu|
    ensures s.cpu[c].pc.Handling? || s.cpu[c].pc.Alarm? ==> s.cpu[c].pc.l.Spin?
    ensures forall l {:trigger l in s.lock} :: l in s.lock && s.lock[l] == Handler(c) ==> l in CoreLocks(s.cpu[c].pc)
    ensures forall l {:trigger l in CoreLocks(s.cpu[c].pc)} {:trigger l in s.lock} :: l in CoreLocks(s.cpu[c].pc) ==>
      l in s.lock && s.lock[l] == Handler(c)
  {
  }

  lemma IntrTakeKeeps(s: Sys, c: Core, l: Lock)
    requires Base(s) && CanIntrTake(s, c, l)
    ensures Base(DoIntrTake(s, c, l))
  {
    hide Base;
    OwnCore(s, c);
    assert CoreLocks(Handling(l)) == {l} && CoreLocks(s.cpu[c].pc) == {};
    CoreActsKeeps(s, c, Handling(l), DoIntrTake(s, c, l));
  }

  lemma IntrWakeupKeeps(s: Sys, c: Core, chan: Chan)
    requires Base(s) && CanIntrWakeup(s, c, chan)
    ensures Base(DoIntrWakeup(s, c, chan))
  {
    hide Base;
    OwnCore(s, c);
    var pc := Alarm(s.cpu[c].pc.l, chan, 0);
    assert CoreLocks(pc) == CoreLocks(s.cpu[c].pc);
    CoreActsKeeps(s, c, pc, DoIntrWakeup(s, c, chan));
  }

  lemma IntrEndKeeps(s: Sys, c: Core)
    requires Base(s) && CanIntrEnd(s, c)
    ensures Base(DoIntrEnd(s, c))
  {
    hide Base;
    OwnCore(s, c);
    var pc := Handling(s.cpu[c].pc.l);
    assert CoreLocks(pc) == CoreLocks(s.cpu[c].pc);
    CoreActsKeeps(s, c, pc, DoIntrEnd(s, c));
  }

  lemma IntrDropKeeps(s: Sys, c: Core)
    requires Base(s) && CanIntrDrop(s, c)
    ensures Base(DoIntrDrop(s, c))
  {
    hide Base;
    OwnCore(s, c);
    assert CoreLocks(Idle) == {} && CoreLocks(s.cpu[c].pc) == {s.cpu[c].pc.l};
    CoreActsKeeps(s, c, Idle, DoIntrDrop(s, c));
  }

  lemma IntrOneKeeps(s: Sys, c: Core)
    requires Base(s) && CanIntrOne(s, c)
    ensures Base(DoIntrOne(s, c))
  {
    hide Base;
    var q, s' := s.cpu[c].pc.at, DoIntrOne(s, c);
    var s1 := if s.proc[q].state == SLEEPING && s.proc[q].chan == s.cpu[c].pc.chan
      then WithProc(s, q, Woken(s.proc[q])) else s;
    if s1 != s {
      WokenRests(s, q, Woken(s.proc[q]));
      RestsKeeps(s, q, Woken(s.proc[q]), s1);
    }
    OwnCore(s1, c);
    var pc := s.cpu[c].pc.(at := q + 1);
    assert CoreLocks(pc) == CoreLocks(s.cpu[c].pc);
    CoreActsKeeps(s1, c, pc, s');
  }

  /** A zombie whose lock is free has left its core for good. */
  lemma ZombieIsOff(s: Sys, k: Slot)
    requires Base(s) && k < |s.proc| && s.proc[k].state == ZOMBIE && s.proc[k].lock == None
    ensures s.proc[k].pc == Parked(Never) && s.proc[k].owns == {}
    ensures forall c {:trigger s.cpu[c]} :: 0 <= c < |s.cpu| ==> s.cpu[c].proc != Some(k) && s.cpu[c].pc != Away(k)
  {
    assert RecordOk(k, s.proc[k]) && PlockOk(s, k);
  }

  lemma WaitLookKeeps(s: Sys, p: Slot)
    requires Base(s) && CanWaitLook(s, p)
    ensures Base(DoWaitLook(s, p))
  {
    hide Base;
    Recs(s, p);
    var k := s.proc[p].pc.next;
    if s.proc[k].parent != Some(p) {
      ThenMoves(s, p, s.proc[p].pc.(next := k + 1));
    } else if s.proc[k].state != ZOMBIE || k == p {
      ThenMoves(s, p, WaitScan(k + 1, true));
    } else {
      var s1 := WithProc(s, k, Freed(s.proc[k]));
      ZombieIsOff(s, k);
      RestsKeeps(s, k, Freed(s.proc[k]), s1);
      ThenMoves(s1, p, WaitDone);
      SameBase(WithPc(s1, p, WaitDone), DoWaitLook(s, p));
    }
  }

  lemma SameBase(s: Sys, s': Sys)
    requires Base(s) && s'.proc == s.proc && s'.cpu == s.cpu && s'.lock == s.lock
    ensures Base(s')
  {
    hide RecordOk;
    forall p | 0 <= p < |s'.proc|
      ensures PlockOk(s', p)
    {
      assert PlockOk(s, p);
    }
  }
}
