/** Every step keeps the invariant of the process protocol. */
module ProcSteps {
  import opened Collections
  import opened ProcSys
  import opened ProcInv
  import opened ProcRest

  /** One record changes, in a way that means nothing to others. */
  ghost predicate Quiet(s: Sys, p: Slot, s': Sys) {
    && p < |s.proc| && |s'.proc| == |s.proc| && s'.proc == s.proc[p := s'.proc[p]]
    && Calm(s.proc[p], s'.proc[p], |s.proc|)
    && (Exiting(s'.proc[p].pc) ==> Exiting(s.proc[p].pc) || p != s.init)
    && (s'.proc[p].pc == s.proc[p].pc || !s.proc[p].pc.Waking?)
    && LocksKept(s, p, s') && CalmCores(s, s')
    && s'.init == s.init && s'.nextpid >= s.nextpid && s'.reaped == s.reaped && s'.locked == s.locked
  }

  lemma QuietKeeps(s: Sys, p: Slot, s': Sys)
    requires Rest(s) && Quiet(s, p, s')
    ensures Rest(s')
  {
    hide InvWake;
    hide InvMakers;
    hide InvPids;
    hide InvSleepLocks;
    hide InvSleepers;
    hide InvZombies;
    forall q | 0 <= q < |s.proc|
      ensures Calm(s.proc[q], s'.proc[q], |s.proc|)
    {
    }
    assert Steady(s, s');
    hide InvParents;
    hide Calm;
    CalmKeeps(s, p, s');
  }

  // ---- quiet steps ----

  lemma ChooseQuiet(s: Sys, c: Core, q: Slot)
    requires Inv(s) && CanChoose(s, c, q)
    ensures Rest(DoChoose(s, c, q))
  {
    hide Rest;
    hide Base;
    Recs(s, q);
    QuietKeeps(s, q, DoChoose(s, c, q));
  }

  lemma SwitchQuiet(s: Sys, c: Core)
    requires Inv(s) && CanSwitch(s, c)
    ensures Rest(DoSwitch(s, c))
  {
    hide Rest;
    hide Base;
    Recs(s, s.cpu[c].pc.q);
    QuietKeeps(s, s.cpu[c].pc.q, DoSwitch(s, c));
  }

  lemma LeaveQuiet(s: Sys, c: Core)
    requires Inv(s) && CanLeave(s, c)
    ensures Rest(DoLeave(s, c))
  {
    hide Rest;
    hide Base;
    Recs(s, s.cpu[c].pc.q);
    QuietKeeps(s, s.cpu[c].pc.q, DoLeave(s, c));
  }

  lemma UnlockQuiet(s: Sys, c: Core)
    requires Inv(s) && CanUnlock(s, c)
    ensures Rest(DoUnlock(s, c))
  {
    hide Rest;
    hide Base;
    Recs(s, s.cpu[c].pc.q);
    QuietKeeps(s, s.cpu[c].pc.q, DoUnlock(s, c));
  }

  lemma ReturnQuiet(s: Sys, p: Slot)
    requires Inv(s) && CanReturn(s, p)
    ensures Rest(DoReturn(s, p))
  {
    hide Rest;
    hide Base;
    Own(s, p);
    QuietKeeps(s, p, DoReturn(s, p));
  }

  lemma TakeBackQuiet(s: Sys, p: Slot)
    requires Inv(s) && CanTakeBack(s, p)
    ensures Rest(DoTakeBack(s, p))
  {
    hide Rest;
    hide Base;
    Own(s, p);
    QuietKeeps(s, p, DoTakeBack(s, p));
  }

  lemma YieldQuiet(s: Sys, p: Slot)
    requires Inv(s) && CanYield(s, p)
    ensures Rest(DoYield(s, p))
  {
    hide Rest;
    hide Base;
    Own(s, p);
    QuietKeeps(s, p, DoYield(s, p));
  }

  lemma SleepQuiet(s: Sys, p: Slot, chan: Chan, lk: Lock)
    requires Inv(s) && CanSleep(s, p, chan, lk)
    ensures Rest(DoSleep(s, p, chan, lk))
  {
    hide Rest;
    hide Base;
    Own(s, p);
    QuietKeeps(s, p, DoSleep(s, p, chan, lk));
  }

  lemma SleepMarkQuiet(s: Sys, p: Slot)
    requires Inv(s) && CanSleepMark(s, p)
    ensures Rest(DoSleepMark(s, p))
  {
    hide Rest;
    hide Base;
    Own(s, p);
    QuietKeeps(s, p, DoSleepMark(s, p));
  }

  lemma AcquireQuiet(s: Sys, p: Slot, l: Lock)
    requires Inv(s) && CanAcquire(s, p, l)
    ensures Rest(DoAcquire(s, p, l))
  {
    hide Rest;
    hide Base;
    Own(s, p);
    QuietKeeps(s, p, DoAcquire(s, p, l));
  }

  lemma ReleaseQuiet(s: Sys, p: Slot, l: Lock)
    requires Inv(s) && CanRelease(s, p, l)
    ensures Rest(DoRelease(s, p, l))
  {
    hide Rest;
    hide Base;
    Own(s, p);
    QuietKeeps(s, p, DoRelease(s, p, l));
  }

  lemma WakeupQuiet(s: Sys, p: Slot, chan: Chan)
    requires Inv(s) && CanWakeup(s, p, chan)
    ensures Rest(DoWakeup(s, p, chan))
  {
    hide Rest;
    hide Base;
    Own(s, p);
    QuietKeeps(s, p, DoWakeup(s, p, chan));
  }

  lemma ExitQuiet(s: Sys, p: Slot)
    requires Inv(s) && CanExit(s, p)
    ensures Rest(DoExit(s, p))
  {
    hide Rest;
    hide Base;
    Own(s, p);
    QuietKeeps(s, p, DoExit(s, p));
  }

  lemma ExitReleaseQuiet(s: Sys, p: Slot)
    requires Inv(s) && CanExitRelease(s, p)
    ensures Rest(DoExitRelease(s, p))
  {
    hide Rest;
    hide Base;
    Own(s, p);
    QuietKeeps(s, p, DoExitRelease(s, p));
  }

  lemma WaitQuiet(s: Sys, p: Slot)
    requires Inv(s) && CanWait(s, p)
    ensures Rest(DoWait(s, p))
  {
    hide Rest;
    hide Base;
    Own(s, p);
    QuietKeeps(s, p, DoWait(s, p));
  }

  lemma WaitFaultQuiet(s: Sys, p: Slot)
    requires Inv(s) && CanWaitFault(s, p)
    ensures Rest(DoWaitFault(s, p))
  {
    hide Rest;
    hide Base;
    Own(s, p);
    QuietKeeps(s, p, DoWaitFault(s, p));
  }

  lemma WaitSleepQuiet(s: Sys, p: Slot)
    requires Inv(s) && CanWaitSleep(s, p)
    ensures Rest(DoWaitSleep(s, p))
  {
    hide Rest;
    hide Base;
    Own(s, p);
    QuietKeeps(s, p, DoWaitSleep(s, p));
  }

  lemma WaitKidsQuiet(s: Sys, p: Slot)
    requires Inv(s) && CanWaitKids(s, p)
    ensures Rest(DoWaitKids(s, p))
  {
    hide Rest;
    hide Base;
    Own(s, p);
    QuietKeeps(s, p, DoWaitKids(s, p));
  }

  lemma WaitEndQuiet(s: Sys, p: Slot)
    requires Inv(s) && CanWaitEnd(s, p)
    ensures Rest(DoWaitEnd(s, p))
  {
    hide Rest;
    hide Base;
    Own(s, p);
    QuietKeeps(s, p, DoWaitEnd(s, p));
  }

  lemma KillQuiet(s: Sys, p: Slot, q: Slot)
    requires Inv(s) && CanKill(s, p, q)
    ensures Rest(DoKill(s, p, q))
  {
    hide Rest;
    hide Base;
    Recs(s, q);
    QuietKeeps(s, q, DoKill(s, p, q));
  }

  lemma ForkFailQuiet(s: Sys, p: Slot)
    requires Inv(s) && CanForkFail(s, p)
    ensures Rest(DoForkFail(s, p))
  {
    hide Rest;
    hide Base;
    var s' := DoForkFail(s, p);
    assert s'.proc == s.proc[p := s'.proc[p]];
    QuietKeeps(s, p, s');
  }

  lemma AcquireSleepQuiet(s: Sys, p: Slot, n: nat)
    requires Inv(s) && CanAcquireSleep(s, p, n)
    ensures Rest(DoAcquireSleep(s, p, n))
  {
    hide Rest;
    hide Base;
    Own(s, p);
    QuietKeeps(s, p, DoAcquireSleep(s, p, n));
  }

  lemma ReleaseSleepQuiet(s: Sys, p: Slot, n: nat)
    requires Inv(s) && CanReleaseSleep(s, p, n)
    ensures Rest(DoReleaseSleep(s, p, n))
  {
    hide Rest;
    hide Base;
    Own(s, p);
    QuietKeeps(s, p, DoReleaseSleep(s, p, n));
  }

  lemma DoneSleepQuiet(s: Sys, p: Slot)
    requires Inv(s) && CanDoneSleep(s, p)
    ensures Rest(DoDoneSleep(s, p))
  {
    hide Rest;
    hide Base;
    Own(s, p);
    QuietKeeps(s, p, DoDoneSleep(s, p));
  }

  lemma InitIn(s: Sys)
    requires Rest(s)
    ensures s.init < |s.proc|
  {
  }

  /** No process changes. */
  lemma NothingQuiet(s: Sys, s': Sys)
    requires Rest(s) && s'.proc == s.proc && s.init < |s.proc| && LocksKept(s, s.init, s') && CalmCores(s, s')
    requires s'.init == s.init && s'.nextpid == s.nextpid && s'.reaped == s.reaped && s'.locked == s.locked
    ensures Rest(s')
  {
    hide Rest;
    hide LocksKept;
    hide CalmCores;
    assert s'.proc == s.proc[s.init := s'.proc[s.init]];
    QuietKeeps(s, s.init, s');
  }

  lemma ClearQuiet(s: Sys, c: Core)
    requires Inv(s) && CanClear(s, c)
    ensures Rest(DoClear(s, c))
  {
    hide Rest;
    hide Base;
    InitIn(s);
    NothingQuiet(s, DoClear(s, c));
  }

  lemma IntrTakeQuiet(s: Sys, c: Core, l: Lock)
    requires Inv(s) && CanIntrTake(s, c, l)
    ensures Rest(DoIntrTake(s, c, l))
  {
    hide Rest;
    hide Base;
    InitIn(s);
    OwnCore(s, c);
    NothingQuiet(s, DoIntrTake(s, c, l));
  }

  lemma IntrWakeupQuiet(s: Sys, c: Core, chan: Chan)
    requires Inv(s) && CanIntrWakeup(s, c, chan)
    ensures Rest(DoIntrWakeup(s, c, chan))
  {
    hide Rest;
    hide Base;
    InitIn(s);
    OwnCore(s, c);
    NothingQuiet(s, DoIntrWakeup(s, c, chan));
  }

  lemma IntrEndQuiet(s: Sys, c: Core)
    requires Inv(s) && CanIntrEnd(s, c)
    ensures Rest(DoIntrEnd(s, c))
  {
    hide Rest;
    hide Base;
    InitIn(s);
    OwnCore(s, c);
    NothingQuiet(s, DoIntrEnd(s, c));
  }

  lemma IntrDropQuiet(s: Sys, c: Core)
    requires Inv(s) && CanIntrDrop(s, c)
    ensures Rest(DoIntrDrop(s, c))
  {
    hide Rest;
    hide Base;
    InitIn(s);
    OwnCore(s, c);
    NothingQuiet(s, DoIntrDrop(s, c));
  }

  // ---- the other steps ----

  lemma SameCalm(r: Proc, n: nat)
    ensures CalmWake(r, r) && CalmParents(r, r, n) && CalmMakers(r, r)
    ensures CalmPids(r, r) && CalmOwns(r, r) && CalmSleepers(r, r)
    ensures CalmZombies(r, r, n)
  {
  }

  /** At most the records of p and q change: the parts of the invariant to which those changes mean
      nothing are kept. */
  lemma Frames(s: Sys, p: Slot, q: Slot, s': Sys)
    requires Rest(s) && p < |s.proc| && q < |s.proc| && |s'.proc| == |s.proc| && s'.init == s.init && CalmCores(s, s')
    requires forall x {:trigger s'.proc[x]} :: 0 <= x < |s.proc| && x != p && x != q ==> s'.proc[x] == s.proc[x]
    ensures CalmWake(s.proc[p], s'.proc[p]) && CalmWake(s.proc[q], s'.proc[q]) ==> InvWake(s')
    ensures (CalmParents(s.proc[p], s'.proc[p], |s.proc|) && CalmParents(s.proc[q], s'.proc[q], |s.proc|)
             && !Exiting(s'.proc[s.init].pc)) ==> InvParents(s')
    ensures CalmMakers(s.proc[p], s'.proc[p]) && CalmMakers(s.proc[q], s'.proc[q]) ==> InvMakers(s')
    ensures (CalmPids(s.proc[p], s'.proc[p]) && CalmPids(s.proc[q], s'.proc[q]) && s'.nextpid >= s.nextpid
             && s'.reaped == s.reaped) ==> InvPids(s')
    ensures (CalmOwns(s.proc[p], s'.proc[p]) && CalmOwns(s.proc[q], s'.proc[q]) && s'.locked == s.locked
             && s'.nextpid >= s.nextpid) ==> InvSleepLocks(s')
    ensures (CalmSleepers(s.proc[p], s'.proc[p]) && CalmSleepers(s.proc[q], s'.proc[q]) && s'.locked == s.locked
             && LocksKept(s, p, s')) ==> InvSleepers(s')
    ensures (CalmZombies(s.proc[p], s'.proc[p], |s.proc|) && CalmZombies(s.proc[q], s'.proc[q], |s.proc|)
             && Steady(s, s')) ==> InvZombies(s')
  {
    hide InvWake;
    hide InvMakers;
    hide InvPids;
    hide InvSleepLocks;
    hide InvSleepers;
    hide InvZombies;
    hide ParentOk;
    hide Excused;
    hide Exiting;
    hide LocksKept;
    hide CalmWake;
    hide CalmParents;
    hide CalmMakers;
    hide CalmPids;
    hide CalmOwns;
    hide CalmSleepers;
    hide CalmZombies;
    forall x | 0 <= x < |s.proc| {
      SameCalm(s.proc[x], |s.proc|);
    }
    if CalmWake(s.proc[p], s'.proc[p]) && CalmWake(s.proc[q], s'.proc[q]) {
      WakeFrame(s, s');
    }
    if CalmParents(s.proc[p], s'.proc[p], |s.proc|) && CalmParents(s.proc[q], s'.proc[q], |s.proc|)
      && !Exiting(s'.proc[s.init].pc) {
      ParentsFrame(s, s');
    }
    if CalmMakers(s.proc[p], s'.proc[p]) && CalmMakers(s.proc[q], s'.proc[q]) {
      MakersFrame(s, s');
    }
    if CalmPids(s.proc[p], s'.proc[p]) && CalmPids(s.proc[q], s'.proc[q]) && s'.nextpid >= s.nextpid
      && s'.reaped == s.reaped {
      PidsFrame(s, s');
    }
    if CalmOwns(s.proc[p], s'.proc[p]) && CalmOwns(s.proc[q], s'.proc[q]) && s'.locked == s.locked
      && s'.nextpid >= s.nextpid {
      OwnsFrame(s, s');
    }
    if CalmSleepers(s.proc[p], s'.proc[p]) && CalmSleepers(s.proc[q], s'.proc[q]) && s'.locked == s.locked
      && LocksKept(s, p, s') {
      SleepersFrame(s, p, s');
    }
    if CalmZombies(s.proc[p], s'.proc[p], |s.proc|) && CalmZombies(s.proc[q], s'.proc[q], |s.proc|) && Steady(s, s') {
      ZombiesFrame(s, s');
    }
  }

  lemma OneHolder(s: Sys, w: Slot, p: Slot, l: Lock)
    requires Base(s) && w < |s.proc| && p < |s.proc| && l in Locks(s.proc[w].pc)
    ensures l in Locks(s.proc[p].pc) ==> w == p
    ensures l in s.lock && s.lock[l] == Thread(w)
    ensures forall c {:trigger s.cpu[c]} :: 0 <= c < |s.cpu| ==> l !in CoreLocks(s.cpu[c].pc)
  {
  }

  /** Giving up lk leaves no wakeup behind: whoever is in wakeup with lk held would have to share it. */
  lemma SleepReleaseWake(s: Sys, p: Slot)
    requires Inv(s) && CanSleepRelease(s, p)
    ensures InvWake(DoSleepRelease(s, p))
  {
    hide InvParents;
    hide InvMakers;
    hide InvPids;
    hide InvZombies;
    hide Base;
    hide InvSleepLocks;
    hide InvSleepers;
    var s' := DoSleepRelease(s, p);
    var lk := s.proc[p].pc.lk;
    forall w, q | 0 <= w < |s'.proc| && 0 <= q < |s'.proc| && w != q
      ensures Passed(s'.proc[w].pc, q, s'.proc[q].waits)
    {
      assert Passed(s.proc[w].pc, q, s.proc[q].waits);
      OneHolder(s, p, w, lk);
    }
    forall c, q | 0 <= c < |s'.cpu| && 0 <= q < |s'.proc|
      ensures CorePassed(s'.cpu[c].pc, q, s'.proc[q].waits)
    {
      assert CorePassed(s.cpu[c].pc, q, s.proc[q].waits);
      OneHolder(s, p, p, lk);
    }
  }

  /** acquiresleep goes to sleep only for a lock that is set. */
  lemma SleepReleaseSleepers(s: Sys, p: Slot)
    requires Inv(s) && CanSleepRelease(s, p)
    ensures InvSleepers(DoSleepRelease(s, p))
  {
    hide Base;
    hide InvWake;
    hide InvParents;
    hide InvZombies;
    hide InvPids;
    hide InvMakers;
    hide InvSleepLocks;
    var s' := DoSleepRelease(s, p);
    Own(s, p);
    forall x | 0 <= x < |s'.proc|
      ensures SleeperOk(s', x)
    {
      assert SleeperOk(s, x);
      forall n | Awaits(s'.proc[x], n)
        ensures n in s'.locked || Releasing(s', n, x)
      {
        assert x != p ==> Awaits(s.proc[x], n);
      }
    }
  }

  /** A parent goes to sleep in wait only after it has seen that no child is a zombie. */
  lemma SleepReleaseZombies(s: Sys, p: Slot)
    requires Inv(s) && CanSleepRelease(s, p)
    ensures InvZombies(DoSleepRelease(s, p))
  {
    hide InvMakers;
    hide InvPids;
    hide Base;
    hide InvSleepLocks;
    hide InvSleepers;
    hide InvWake;
    hide InvParents;
    var s' := DoSleepRelease(s, p);
    var lk := s.proc[p].pc.lk;
    Own(s, p);
    forall x | 0 <= x < |s'.proc|
      ensures ZombieOk(s', x) && ExitOk(s', x)
    {
      assert ZombieOk(s, x) && ExitOk(s, x);
      OneHolder(s, p, x, lk);
    }
  }

  lemma SleepReleaseRest(s: Sys, p: Slot)
    requires Inv(s) && CanSleepRelease(s, p)
    ensures Rest(DoSleepRelease(s, p))
  {
    hide Base;
    hide InvSleepLocks;
    hide InvWake;
    hide InvZombies;
    hide InvSleepers;
    SleepReleaseWake(s, p);
    SleepReleaseZombies(s, p);
    SleepReleaseSleepers(s, p);
    Frames(s, p, p, DoSleepRelease(s, p));
  }

  // -- wakeup

  /** wakeup finds every process that waits on its channel asleep on it, and wakes it. */
  lemma WakeFinds(s: Sys, p: Slot)
    requires Base(s) && CanWakeOne(s, p)
    ensures var q := s.proc[p].pc.q;
      q != p && s.proc[q].waits.Some? && s.proc[q].waits.v.chan == s.proc[p].pc.chan ==>
        s.proc[q].state == SLEEPING && s.proc[q].chan == s.proc[p].pc.chan
          && DoWakeOne(s, p).proc[q] == Woken(s.proc[q])
    ensures s.proc[p].waits == None
  {
    hide Base;
    Recs(s, p);
    Recs(s, s.proc[p].pc.q);
  }

  lemma WakeOneWake(s: Sys, p: Slot)
    requires Inv(s) && CanWakeOne(s, p)
    ensures InvWake(DoWakeOne(s, p))
  {
    hide InvParents;
    hide InvMakers;
    hide InvPids;
    hide InvZombies;
    hide Base;
    hide InvSleepLocks;
    hide InvSleepers;
    WakeFinds(s, p);
    var s' := DoWakeOne(s, p);
    forall w, q | 0 <= w < |s'.proc| && 0 <= q < |s'.proc| && w != q
      ensures Passed(s'.proc[w].pc, q, s'.proc[q].waits)
    {
      assert Passed(s.proc[w].pc, q, s.proc[q].waits);
    }
    forall c, q | 0 <= c < |s'.cpu| && 0 <= q < |s'.proc|
      ensures CorePassed(s'.cpu[c].pc, q, s'.proc[q].waits)
    {
      assert CorePassed(s.cpu[c].pc, q, s.proc[q].waits);
    }
  }

  /** releasesleep comes by everyone who sleeps for the lock. */
  lemma WakeOneSleepers(s: Sys, p: Slot)
    requires Inv(s) && CanWakeOne(s, p)
    ensures InvSleepers(DoWakeOne(s, p))
  {
    hide Base;
    hide InvWake;
    hide InvParents;
    hide InvZombies;
    hide InvPids;
    hide InvMakers;
    hide InvSleepLocks;
    WakeFinds(s, p);
    var s' := DoWakeOne(s, p);
    forall x | 0 <= x < |s'.proc|
      ensures SleeperOk(s', x)
    {
      assert SleeperOk(s, x);
      forall n | Awaits(s'.proc[x], n)
        ensures n in s'.locked || Releasing(s', n, x)
      {
        assert Awaits(s.proc[x], n);
      }
    }
  }

  lemma WakeOneSteady(s: Sys, p: Slot)
    requires Inv(s) && CanWakeOne(s, p)
    ensures Steady(s, DoWakeOne(s, p))
  {
    hide InvWake;
    hide InvParents;
    hide InvMakers;
    hide InvPids;
    hide InvZombies;
    hide Base;
    hide InvSleepLocks;
    hide InvSleepers;
    WakeFinds(s, p);
  }

  /** The other parts do not see the difference. */
  lemma WakeOneCalm(s: Sys, p: Slot)
    requires Base(s) && CanWakeOne(s, p)
    ensures var q, s', n := s.proc[p].pc.q, DoWakeOne(s, p), |s.proc|;
      && CalmParents(s.proc[p], s'.proc[p], n) && CalmMakers(s.proc[p], s'.proc[p]) && CalmPids(s.proc[p], s'.proc[p])
      && CalmOwns(s.proc[p], s'.proc[p]) && CalmZombies(s.proc[p], s'.proc[p], n)
      && CalmParents(s.proc[q], s'.proc[q], n) && CalmMakers(s.proc[q], s'.proc[q]) && CalmPids(s.proc[q], s'.proc[q])
      && CalmOwns(s.proc[q], s'.proc[q]) && CalmZombies(s.proc[q], s'.proc[q], n)
      && forall x {:trigger Exiting(s'.proc[x].pc)} :: 0 <= x < n && Exiting(s'.proc[x].pc) ==> Exiting(s.proc[x].pc)
  {
    hide Base;
    Recs(s, p);
  }

  lemma WakeOneRest(s: Sys, p: Slot)
    requires Inv(s) && CanWakeOne(s, p)
    ensures Rest(DoWakeOne(s, p))
  {
    hide Base;
    hide InvWake;
    hide InvZombies;
    hide InvMakers;
    hide InvPids;
    hide InvSleepLocks;
    hide ParentOk;
    hide Steady;
    hide CalmParents;
    hide CalmMakers;
    hide CalmPids;
    hide CalmOwns;
    hide CalmSleepers;
    hide CalmZombies;
    hide Exiting;
    hide InvSleepers;
    WakeOneWake(s, p);
    WakeOneSleepers(s, p);
    WakeOneSteady(s, p);
    WakeOneCalm(s, p);
    Frames(s, p, s.proc[p].pc.q, DoWakeOne(s, p));
  }

  /** When wakeup returns, nobody waits on the channel with a lock that its caller holds. */
  lemma NobodyLeft(s: Sys, p: Slot, q: Slot, l: Lock)
    requires Inv(s) && CanWakeEnd(s, p) && q < |s.proc| && l in RetLocks(s.proc[p].pc.ret)
    ensures s.proc[q].waits != Some(Awaited(s.proc[p].pc.chan, l))
  {
    hide InvParents;
    hide InvMakers;
    hide InvPids;
    hide InvZombies;
    hide Base;
    hide InvSleepLocks;
    hide InvSleepers;
    Recs(s, p);
    assert q != p ==> Passed(s.proc[p].pc, q, s.proc[q].waits);
  }

  lemma WakeEndZombies(s: Sys, p: Slot)
    requires Inv(s) && CanWakeEnd(s, p)
    ensures InvZombies(DoWakeEnd(s, p))
  {
    hide InvParents;
    hide InvMakers;
    hide InvPids;
    hide Base;
    hide InvSleepLocks;
    hide InvSleepers;
    hide InvWake;
    var s' := DoWakeEnd(s, p);
    Recs(s, p);
    forall x | 0 <= x < |s'.proc|
      ensures ZombieOk(s', x) && ExitOk(s', x)
    {
      assert ZombieOk(s, x) && ExitOk(s, x) && ExitOk(s, p);
      if s.proc[x].parent.Some? && s.proc[x].parent.v < |s.proc|
        && (s.proc[p].pc.ret.ToReparent? || s.proc[p].pc.ret.ToExit?) {
        NobodyLeft(s, p, s.proc[x].parent.v, WAIT);
      }
    }
  }

  lemma WakeEndSleepers(s: Sys, p: Slot)
    requires Inv(s) && CanWakeEnd(s, p)
    ensures InvSleepers(DoWakeEnd(s, p))
  {
    hide Base;
    hide InvWake;
    hide InvParents;
    hide InvZombies;
    hide InvPids;
    hide InvMakers;
    hide InvSleepLocks;
    Recs(s, p);
    var s' := DoWakeEnd(s, p);
    forall x | 0 <= x < |s'.proc|
      ensures SleeperOk(s', x)
    {
      assert SleeperOk(s, x);
      forall n | Awaits(s'.proc[x], n)
        ensures n in s'.locked || Releasing(s', n, x)
      {
        assert Awaits(s.proc[x], n);
      }
    }
  }

  lemma WakeEndRest(s: Sys, p: Slot)
    requires Inv(s) && CanWakeEnd(s, p)
    ensures Rest(DoWakeEnd(s, p))
  {
    hide Base;
    hide InvSleepLocks;
    hide InvWake;
    hide InvZombies;
    hide InvSleepers;
    hide ParentOk;
    WakeEndZombies(s, p);
    WakeEndSleepers(s, p);
    Recs(s, p);
    Frames(s, p, p, DoWakeEnd(s, p));
  }

  // -- fork

  lemma ForkAllocPids(s: Sys, p: Slot, q: Slot)
    requires Inv(s) && CanForkAlloc(s, p, q)
    ensures InvPids(DoForkAlloc(s, p, q)) && InvMakers(DoForkAlloc(s, p, q))
  {
    hide Base;
    hide InvSleepLocks;
    hide InvSleepers;
    hide InvWake;
    hide InvZombies;
    hide InvParents;
    Recs(s, p);
    var s' := DoForkAlloc(s, p, q);
    forall x | 0 <= x < |s'.proc|
      ensures MakerOk(s', x)
    {
      assert MakerOk(s, x);
    }
  }

  /** The new pid is on no sleep lock. */
  lemma ForkAllocOwns(s: Sys, p: Slot, q: Slot)
    requires Inv(s) && CanForkAlloc(s, p, q)
    ensures InvSleepLocks(DoForkAlloc(s, p, q))
  {
    hide Base;
    hide InvWake;
    hide InvZombies;
    hide InvParents;
    hide InvMakers;
    hide InvSleepers;
    var s' := DoForkAlloc(s, p, q);
    forall x, n | 0 <= x < |s'.proc|
      ensures n in s'.proc[x].owns ==> s'.proc[x].state != UNUSED && HoldingSleep(s', x, n)
      ensures s'.proc[x].state != UNUSED && HoldingSleep(s', x, n) ==> n in s'.proc[x].owns
    {
      assert n in s.proc[x].owns ==> s.proc[x].state != UNUSED;
      assert x != q ==> HoldingSleep(s', x, n) == HoldingSleep(s, x, n);
    }
  }

  lemma ForkAllocRest(s: Sys, p: Slot, q: Slot)
    requires Inv(s) && CanForkAlloc(s, p, q)
    ensures Rest(DoForkAlloc(s, p, q))
  {
    hide Base;
    hide InvSleepers;
    hide InvWake;
    hide InvZombies;
    hide InvPids;
    hide InvMakers;
    hide ParentOk;
    Recs(s, p);
    Recs(s, q);
    ForkAllocPids(s, p, q);
    ForkAllocOwns(s, p, q);
    hide InvSleepLocks;
    Frames(s, p, q, DoForkAlloc(s, p, q));
  }

  lemma ForkParentParents(s: Sys, p: Slot)
    requires Inv(s) && CanForkParent(s, p)
    ensures InvParents(DoForkParent(s, p))
  {
    hide Base;
    hide InvSleepLocks;
    hide InvSleepers;
    hide InvWake;
    hide InvPids;
    hide InvZombies;
    var s' := DoForkParent(s, p);
    assert MakerOk(s, p);
    Recs(s, p);
    forall x | 0 <= x < |s'.proc|
      ensures ParentOk(s', x)
    {
      assert ParentOk(s, x);
    }
  }

  lemma ForkParentZombies(s: Sys, p: Slot)
    requires Inv(s) && CanForkParent(s, p)
    ensures InvZombies(DoForkParent(s, p))
  {
    hide Base;
    hide InvSleepLocks;
    hide InvSleepers;
    hide InvWake;
    hide InvPids;
    hide ParentOk;
    var q, s' := s.proc[p].pc.q, DoForkParent(s, p);
    assert MakerOk(s, p);
    Recs(s, p);
    Recs(s, q);
    forall x | 0 <= x < |s'.proc|
      ensures ZombieOk(s', x) && ExitOk(s', x)
    {
      assert ZombieOk(s, x) && ExitOk(s, x);
    }
  }

  lemma ForkParentRest(s: Sys, p: Slot)
    requires Inv(s) && CanForkParent(s, p)
    ensures Rest(DoForkParent(s, p))
  {
    hide Base;
    hide InvSleepLocks;
    hide InvSleepers;
    hide InvWake;
    hide InvZombies;
    hide InvPids;
    hide InvMakers;
    hide ParentOk;
    Recs(s, p);
    ForkParentParents(s, p);
    ForkParentZombies(s, p);
    Frames(s, p, s.proc[p].pc.q, DoForkParent(s, p));
  }

  lemma ForkGoMakers(s: Sys, p: Slot)
    requires Inv(s) && CanForkGo(s, p)
    ensures InvMakers(DoForkGo(s, p))
  {
    hide Base;
    hide InvSleepLocks;
    hide InvSleepers;
    var q, s' := s.proc[p].pc.q, DoForkGo(s, p);
    forall x | 0 <= x < |s'.proc|
      ensures MakerOk(s', x)
    {
      assert MakerOk(s, x) && MakerOk(s, p);
    }
  }

  lemma ForkGoRest(s: Sys, p: Slot)
    requires Inv(s) && CanForkGo(s, p)
    ensures Rest(DoForkGo(s, p))
  {
    hide Base;
    hide InvSleepLocks;
    hide InvSleepers;
    hide InvWake;
    hide InvZombies;
    hide InvPids;
    hide ParentOk;
    Recs(s, p);
    assert MakerOk(s, p);
    ForkGoMakers(s, p);
    Recs(s, s.proc[p].pc.q);
    hide InvMakers;
    Frames(s, p, s.proc[p].pc.q, DoForkGo(s, p));
  }

  // -- exit

  lemma NothingGiven(pc: Pc, n: nat)
    requires !Exiting(pc)
    ensures Given(pc, n) == 0
  {
  }

  lemma ReparentOneParents(s: Sys, p: Slot)
    requires Inv(s) && CanReparentOne(s, p)
    ensures InvParents(DoReparentOne(s, p))
  {
    hide Base;
    hide InvSleepLocks;
    hide InvSleepers;
    hide InvWake;
    hide InvPids;
    hide InvMakers;
    hide InvZombies;
    var k, n, s' := s.proc[p].pc.next, |s.proc|, DoReparentOne(s, p);
    assert Given(s.proc[p].pc, n) == k && Given(s'.proc[p].pc, n) == k + 1 && Exiting(s.proc[p].pc);
    NothingGiven(s.proc[s.init].pc, n);
    hide Given;
    hide Exiting;
    assert p != s.init;
    forall x | 0 <= x < n
      ensures ParentOk(s', x)
    {
      assert ParentOk(s, x);
      assert s'.proc[x].parent == if x == k && s.proc[k].parent == Some(p) then Some(s.init) else s.proc[x].parent;
    }
  }

  /** A zombie that is given to init comes with a wakeup for init. */
  lemma ReparentOneZombies(s: Sys, p: Slot)
    requires Inv(s) && CanReparentOne(s, p)
    ensures InvZombies(DoReparentOne(s, p))
  {
    hide Base;
    hide InvSleepLocks;
    hide InvSleepers;
    hide InvWake;
    hide InvPids;
    hide InvMakers;
    hide ParentOk;
    var s' := DoReparentOne(s, p);
    Own(s, p);
    OneHolder(s, p, s.init, WAIT);
    forall x | 0 <= x < |s'.proc|
      ensures ZombieOk(s', x) && ExitOk(s', x)
    {
      assert ZombieOk(s, x) && ExitOk(s, x);
      OneHolder(s, p, x, WAIT);
    }
  }

  /** To the other parts reparent's steps mean nothing. */
  lemma ReparentCalm(r: Proc, pc: Pc, parent: Opt<Slot>)
    requires pc == r.pc || (r.pc.Reparent? && (pc.Reparent? || (pc.Waking? && pc.q == 0)))
    ensures var r' := r.(pc := pc, parent := parent);
      CalmWake(r, r') && CalmMakers(r, r') && CalmPids(r, r') && CalmOwns(r, r') && CalmSleepers(r, r')
  {
  }

  lemma ReparentOneRest(s: Sys, p: Slot)
    requires Inv(s) && CanReparentOne(s, p)
    ensures Rest(DoReparentOne(s, p))
  {
    hide CalmWake;
    hide CalmParents;
    hide CalmMakers;
    hide CalmPids;
    hide CalmOwns;
    hide CalmSleepers;
    hide CalmZombies;
    hide Exiting;
    hide Base;
    hide InvSleepLocks;
    hide InvSleepers;
    hide InvWake;
    hide InvZombies;
    hide InvPids;
    hide InvMakers;
    hide ParentOk;
    ReparentOneParents(s, p);
    ReparentOneZombies(s, p);
    var k, s' := s.proc[p].pc.next, DoReparentOne(s, p);
    ReparentCalm(s.proc[p], s'.proc[p].pc, s'.proc[p].parent);
    ReparentCalm(s.proc[k], s'.proc[k].pc, s'.proc[k].parent);
    Frames(s, p, k, s');
  }

  lemma ReparentEndRest(s: Sys, p: Slot)
    requires Inv(s) && CanReparentEnd(s, p)
    ensures Rest(DoReparentEnd(s, p))
  {
    hide Base;
    hide InvSleepLocks;
    hide InvSleepers;
    hide InvWake;
    hide InvPids;
    hide InvMakers;
    hide ParentOk;
    var s' := DoReparentEnd(s, p);
    Own(s, p);
    forall x | 0 <= x < |s'.proc|
      ensures ZombieOk(s', x) && ExitOk(s', x)
    {
      assert ZombieOk(s, x) && ExitOk(s, x);
    }
    Frames(s, p, p, s');
  }

  lemma ExitZombieFamily(s: Sys, p: Slot)
    requires Inv(s) && CanExitZombie(s, p)
    ensures InvParents(DoExitZombie(s, p)) && InvZombies(DoExitZombie(s, p))
  {
    hide Base;
    hide InvSleepLocks;
    hide InvSleepers;
    hide InvWake;
    hide InvPids;
    hide InvMakers;
    var s' := DoExitZombie(s, p);
    Own(s, p);
    forall x | 0 <= x < |s'.proc|
      ensures ParentOk(s', x) && ZombieOk(s', x) && ExitOk(s', x)
    {
      assert ParentOk(s, x) && ZombieOk(s, x) && ExitOk(s, x);
      if x == p && s.proc[p].parent.Some? {
        OneHolder(s, p, s.proc[p].parent.v, WAIT);
      }
    }
  }

  lemma ExitZombieRest(s: Sys, p: Slot)
    requires Inv(s) && CanExitZombie(s, p)
    ensures Rest(DoExitZombie(s, p))
  {
    hide Base;
    hide InvSleepLocks;
    hide InvSleepers;
    hide InvWake;
    hide InvZombies;
    hide InvPids;
    hide InvMakers;
    hide ParentOk;
    Recs(s, p);
    ExitZombieFamily(s, p);
    Frames(s, p, p, DoExitZombie(s, p));
  }

  // -- wait

  lemma WaitLookZombies(s: Sys, p: Slot)
    requires Inv(s) && CanWaitLook(s, p)
    ensures InvZombies(DoWaitLook(s, p))
  {
    hide Base;
    hide InvSleepLocks;
    hide InvSleepers;
    hide InvWake;
    hide InvPids;
    hide InvMakers;
    hide InvParents;
    var k, n, s' := s.proc[p].pc.next, |s.proc|, DoWaitLook(s, p);
    Own(s, p);
    assert WAIT in s.lock && s.lock[WAIT] == Thread(p);
    assert forall q {:trigger Excused(s, q)} :: !Excused(s, q);
    assert Looked(s.proc[p].pc, n) == k && Looked(s'.proc[p].pc, n) <= k + 1;
    assert k != p && s'.proc[k] != s.proc[k] ==>
      s'.proc[k].state == UNUSED && s'.proc[k].waits == None && Looked(s'.proc[k].pc, n) == 0;
    hide Looked;
    hide Excused;
    forall x | 0 <= x < n
      ensures ZombieOk(s', x) && ExitOk(s', x)
    {
      assert ZombieOk(s, x) && ExitOk(s, x);
    }
  }

  lemma WaitLookPids(s: Sys, p: Slot)
    requires Inv(s) && CanWaitLook(s, p)
    ensures InvPids(DoWaitLook(s, p))
  {
    hide Base;
    hide InvSleepers;
    hide InvWake;
    hide InvZombies;
    hide InvMakers;
    hide InvParents;
    hide InvSleepLocks;
    Recs(s, p);
    var k, s' := s.proc[p].pc.next, DoWaitLook(s, p);
    if s.proc[k].parent == Some(p) && s.proc[k].state == ZOMBIE && k != p {
      forall x | 0 <= x < |s'.proc| && s'.proc[x].state != UNUSED
        ensures x != k && s'.proc[x].pid == s.proc[x].pid && s.proc[x].state != UNUSED && s.proc[x].pid != s.proc[k].pid
      {
      }
    } else {
      assert s'.reaped == s.reaped;
    }
  }

  /** wait goes on to the next slot, or is done. */
  lemma ScanCalm(r: Proc, pc: Pc, n: nat)
    requires r.pc.WaitScan? && (pc.WaitScan? || pc.WaitDone?)
    ensures var r' := r.(pc := pc);
      CalmWake(r, r') && CalmParents(r, r', n) && CalmMakers(r, r') && CalmOwns(r, r') && CalmSleepers(r, r')
        && !Exiting(pc)
  {
  }

  lemma FreedCalm(r: Proc, n: nat)
    requires r.state == ZOMBIE && r.pc == Parked(Never) && r.owns == {}
    ensures var r' := Freed(r);
      CalmWake(r, r') && CalmParents(r, r', n) && CalmMakers(r, r') && CalmOwns(r, r') && CalmSleepers(r, r')
        && !Exiting(r'.pc)
  {
  }

  lemma WaitLookCalm(s: Sys, p: Slot)
    requires Base(s) && CanWaitLook(s, p)
    ensures var k, s', n := s.proc[p].pc.next, DoWaitLook(s, p), |s.proc|;
      && CalmWake(s.proc[p], s'.proc[p]) && CalmParents(s.proc[p], s'.proc[p], n) && CalmMakers(s.proc[p], s'.proc[p])
      && CalmWake(s.proc[k], s'.proc[k]) && CalmParents(s.proc[k], s'.proc[k], n) && CalmMakers(s.proc[k], s'.proc[k])
      && CalmOwns(s.proc[p], s'.proc[p]) && CalmOwns(s.proc[k], s'.proc[k]) && CalmSleepers(s.proc[p], s'.proc[p])
           && CalmSleepers(s.proc[k], s'.proc[k])
      && forall x {:trigger Exiting(s'.proc[x].pc)} :: 0 <= x < n && Exiting(s'.proc[x].pc) ==> Exiting(s.proc[x].pc)
  {
    hide Base;
    hide CalmWake;
    hide CalmParents;
    hide CalmMakers;
    hide CalmOwns;
    hide CalmSleepers;
    hide Exiting;
    var k, s' := s.proc[p].pc.next, DoWaitLook(s, p);
    ScanCalm(s.proc[p], s'.proc[p].pc, |s.proc|);
    SameCalm(s.proc[k], |s.proc|);
    if s.proc[k].state == ZOMBIE && s.proc[k].lock == None {
      ZombieIsOff(s, k);
      FreedCalm(s.proc[k], |s.proc|);
    }
  }

  lemma WaitLookRest(s: Sys, p: Slot)
    requires Inv(s) && CanWaitLook(s, p)
    ensures Rest(DoWaitLook(s, p))
  {
    hide Base;
    hide InvSleepers;
    hide InvWake;
    hide InvZombies;
    hide InvPids;
    hide InvMakers;
    hide InvSleepLocks;
    hide ParentOk;
    hide CalmWake;
    hide CalmParents;
    hide CalmMakers;
    hide CalmOwns;
    hide CalmSleepers;
    hide Exiting;
    WaitLookZombies(s, p);
    WaitLookPids(s, p);
    WaitLookCalm(s, p);
    Frames(s, p, s.proc[p].pc.next, DoWaitLook(s, p));
  }

  // -- sleep locks

  lemma TestSleepSleepers(s: Sys, p: Slot)
    requires Inv(s) && CanTestSleep(s, p)
    ensures InvSleepers(DoTestSleep(s, p))
  {
    hide Base;
    hide InvWake;
    hide InvParents;
    hide InvZombies;
    hide InvPids;
    hide InvMakers;
    hide InvSleepLocks;
    Own(s, p);
    var s' := DoTestSleep(s, p);
    forall x | 0 <= x < |s'.proc|
      ensures SleeperOk(s', x)
    {
      assert SleeperOk(s, x);
      forall n | Awaits(s'.proc[x], n)
        ensures n in s'.locked || Releasing(s', n, x)
      {
        assert Awaits(s.proc[x], n);
      }
    }
  }

  lemma TestSleepRest(s: Sys, p: Slot)
    requires Inv(s) && CanTestSleep(s, p)
    ensures Rest(DoTestSleep(s, p))
  {
    hide Base;
    hide InvWake;
    hide InvZombies;
    hide InvPids;
    hide InvMakers;
    hide InvSleepLocks;
    hide InvSleepers;
    hide ParentOk;
    Recs(s, p);
    TestSleepSleepers(s, p);
    Frames(s, p, p, DoTestSleep(s, p));
  }

  /** Setting the lock makes nobody's test stale: whoever has tested it holds the spinlock in it. */
  lemma SetSleepSleepers(s: Sys, p: Slot)
    requires Inv(s) && CanSetSleep(s, p)
    ensures InvSleepers(DoSetSleep(s, p))
  {
    hide Base;
    hide InvWake;
    hide InvParents;
    hide InvZombies;
    hide InvPids;
    hide InvMakers;
    hide InvSleepLocks;
    Own(s, p);
    var s' := DoSetSleep(s, p);
    forall x | 0 <= x < |s'.proc|
      ensures SleeperOk(s', x)
    {
      assert SleeperOk(s, x);
      OneHolder(s, p, x, Inner(s.proc[p].pc.n));
      forall n | Awaits(s'.proc[x], n)
        ensures n in s'.locked || Releasing(s', n, x)
      {
        assert Awaits(s.proc[x], n);
      }
    }
  }

  /** The lock that is set was free, and had no owner. */
  lemma SetSleepOwns(s: Sys, p: Slot)
    requires Inv(s) && CanSetSleep(s, p)
    ensures InvSleepLocks(DoSetSleep(s, p))
  {
    hide Base;
    hide InvWake;
    hide InvZombies;
    hide InvParents;
    hide InvMakers;
    Recs(s, p);
    assert SleeperOk(s, p);
    var m, s' := s.proc[p].pc.n, DoSetSleep(s, p);
    forall x, n | 0 <= x < |s'.proc|
      ensures n in s'.proc[x].owns ==> s'.proc[x].state != UNUSED && HoldingSleep(s', x, n)
      ensures s'.proc[x].state != UNUSED && HoldingSleep(s', x, n) ==> n in s'.proc[x].owns
    {
      assert n in s.proc[x].owns ==> s.proc[x].state != UNUSED && HoldingSleep(s, x, n);
      assert n != m ==> HoldingSleep(s', x, n) == HoldingSleep(s, x, n);
    }
  }

  lemma SetSleepRest(s: Sys, p: Slot)
    requires Inv(s) && CanSetSleep(s, p)
    ensures Rest(DoSetSleep(s, p))
  {
    hide Base;
    hide InvWake;
    hide InvZombies;
    hide InvPids;
    hide InvMakers;
    hide InvSleepLocks;
    hide InvSleepers;
    hide ParentOk;
    Recs(s, p);
    SetSleepSleepers(s, p);
    SetSleepOwns(s, p);
    Frames(s, p, p, DoSetSleep(s, p));
  }

  /** Clearing the lock leaves everyone who sleeps for it to the wakeup that follows, and nobody is on
      the way to sleep: that takes the spinlock in it. */
  lemma ClearSleepSleepers(s: Sys, p: Slot)
    requires Inv(s) && CanClearSleep(s, p)
    ensures InvSleepers(DoClearSleep(s, p))
  {
    hide Base;
    hide InvWake;
    hide InvParents;
    hide InvZombies;
    hide InvPids;
    hide InvMakers;
    hide InvSleepLocks;
    Own(s, p);
    var s' := DoClearSleep(s, p);
    OneHolder(s, p, p, Inner(s.proc[p].pc.n));
    forall x | 0 <= x < |s'.proc|
      ensures SleeperOk(s', x)
    {
      assert SleeperOk(s, x);
      Recs(s, x);
      OneHolder(s, p, x, Inner(s.proc[p].pc.n));
      forall n | Awaits(s'.proc[x], n)
        ensures n in s'.locked || Releasing(s', n, x)
      {
        assert Awaits(s.proc[x], n);
      }
    }
  }

  lemma ClearSleepOwns(s: Sys, p: Slot)
    requires Inv(s) && CanClearSleep(s, p)
    ensures InvSleepLocks(DoClearSleep(s, p))
  {
    hide Base;
    hide InvWake;
    hide InvZombies;
    hide InvParents;
    hide InvMakers;
    hide InvSleepers;
    Recs(s, p);
    var m, s' := s.proc[p].pc.n, DoClearSleep(s, p);
    forall x, n | 0 <= x < |s'.proc|
      ensures n in s'.proc[x].owns ==> s'.proc[x].state != UNUSED && HoldingSleep(s', x, n)
      ensures s'.proc[x].state != UNUSED && HoldingSleep(s', x, n) ==> n in s'.proc[x].owns
    {
      assert n in s.proc[x].owns ==> s.proc[x].state != UNUSED && HoldingSleep(s, x, n);
      assert m in s.proc[p].owns;
      assert n != m ==> HoldingSleep(s', x, n) == HoldingSleep(s, x, n);
    }
  }

  lemma ClearSleepRest(s: Sys, p: Slot)
    requires Inv(s) && CanClearSleep(s, p)
    ensures Rest(DoClearSleep(s, p))
  {
    hide Base;
    hide InvWake;
    hide InvZombies;
    hide InvPids;
    hide InvMakers;
    hide InvSleepLocks;
    hide InvSleepers;
    hide ParentOk;
    Recs(s, p);
    ClearSleepSleepers(s, p);
    ClearSleepOwns(s, p);
    Frames(s, p, p, DoClearSleep(s, p));
  }

  // -- interrupt handlers

  /** The wakeup of a handler finds every process that waits on its channel asleep on it, and wakes it. */
  lemma IntrFinds(s: Sys, c: Core)
    requires Base(s) && CanIntrOne(s, c)
    ensures var q := s.cpu[c].pc.at;
      s.proc[q].waits.Some? && s.proc[q].waits.v.chan == s.cpu[c].pc.chan ==>
        s.proc[q].state == SLEEPING && s.proc[q].chan == s.cpu[c].pc.chan && DoIntrOne(s, c).proc[q] == Woken(s.proc[q])
  {
    hide Base;
    Recs(s, s.cpu[c].pc.at);
  }

  lemma IntrOneWake(s: Sys, c: Core)
    requires Inv(s) && CanIntrOne(s, c)
    ensures InvWake(DoIntrOne(s, c))
  {
    hide InvParents;
    hide InvMakers;
    hide InvPids;
    hide InvZombies;
    hide Base;
    hide InvSleepLocks;
    hide InvSleepers;
    IntrFinds(s, c);
    var s' := DoIntrOne(s, c);
    forall w, q | 0 <= w < |s'.proc| && 0 <= q < |s'.proc| && w != q
      ensures Passed(s'.proc[w].pc, q, s'.proc[q].waits)
    {
      assert Passed(s.proc[w].pc, q, s.proc[q].waits);
    }
    forall d, q | 0 <= d < |s'.cpu| && 0 <= q < |s'.proc|
      ensures CorePassed(s'.cpu[d].pc, q, s'.proc[q].waits)
    {
      assert CorePassed(s.cpu[d].pc, q, s.proc[q].waits);
    }
  }

  /** To the rest it is as if someone had woken q. */
  lemma IntrOneRest(s: Sys, c: Core)
    requires Inv(s) && CanIntrOne(s, c)
    ensures Rest(DoIntrOne(s, c))
  {
    hide Base;
    hide Rest;
    var q, s' := s.cpu[c].pc.at, DoIntrOne(s, c);
    var s1 := s'.(cpu := s.cpu);
    Recs(s, q);
    assert s1.proc == s.proc[q := s1.proc[q]];
    QuietKeeps(s, q, s1);
    IntrOneWake(s, c);
    CpuBeside(s1, s');
  }

  lemma CpuBeside(s: Sys, s': Sys)
    requires Rest(s) && InvWake(s') && s' == s.(cpu := s'.cpu)
    ensures Rest(s')
  {
    hide InvWake;
    forall x | 0 <= x < |s'.proc|
      ensures ParentOk(s', x) && MakerOk(s', x) && ZombieOk(s', x) && ExitOk(s', x) && SleeperOk(s', x)
    {
      assert ParentOk(s, x) && MakerOk(s, x) && ZombieOk(s, x) && ExitOk(s, x) && SleeperOk(s, x);
    }
    forall x, n | 0 <= x < |s'.proc|
      ensures HoldingSleep(s', x, n) == HoldingSleep(s, x, n)
    {
    }
  }

  /** When the wakeup of a handler ends, nobody waits on the channel with its lock. */
  lemma NobodyLeftByHandler(s: Sys, c: Core, q: Slot)
    requires Inv(s) && CanIntrEnd(s, c) && q < |s.proc|
    ensures s.proc[q].waits != Some(Awaited(s.cpu[c].pc.chan, s.cpu[c].pc.l))
  {
    hide InvParents;
    hide InvMakers;
    hide InvPids;
    hide InvZombies;
    hide Base;
    hide InvSleepLocks;
    hide InvSleepers;
    assert CorePassed(s.cpu[c].pc, q, s.proc[q].waits);
  }
}
