/** The process protocol of kernel/proc.c, kernel/sleeplock.c and kernel/spinlock.c as a transition
    system over all cores.

    Each process has a kernel thread at some `Pc`; each core runs its scheduler or has switched to a
    process (`Away`).  A critical section that touches only the fields its lock guards is one step,
    taken when that lock is free.  A lock that is held across other work stays held across steps:
    wait_lock, the spinlocks of kernel code and those inside sleep locks, and above all `p->lock`, which
    the scheduler takes and the process gives back on the other side of swtch, and the reverse.  An
    interrupt handler on a core that is in its scheduler is a thread of its own; on a core that runs a
    process it is part of that process's kernel code. */
module ProcSys {
  import opened Collections

  type Slot = nat
  type Core = nat

  /** wait_lock; a spinlock of other kernel code; the spinlock lk->lk inside sleep lock n. */
  datatype Lock = WaitLock | Spin(a: nat) | Inner(n: nat)

  datatype PState = UNUSED | USED | SLEEPING | RUNNABLE | RUNNING | ZOMBIE

  /** Addresses used as sleep channels: of a process, in wait; of a sleep lock; of anything else, in other code. */
  datatype Chan = OfProc(p: Slot) | OfSleepLock(n: nat) | OfCode(a: nat) | Nowhere

  const WAIT: Lock := WaitLock

  /** What sleep returns to: the loop of kernel code, the scan of wait, or the test in acquiresleep. */
  datatype After = ToCode | ToScan | ToTest

  /** Who holds a spinlock: a process, or the interrupt handler of a core that runs none. */
  datatype Holder = Thread(p: Slot) | Handler(c: Core)

  /** Where a thread that called sched goes on. */
  datatype Resume = Forkret | FromYield | FromSleep(lk: Lock, after: After) | Never

  /** Where wakeup returns to. */
  datatype Ret = ToCaller(held: set<Lock>) | ToReparent(next: Slot) | ToExit | ToRelease(n: nat, held: set<Lock>)

  datatype Pc =
    | Gone                                             // no thread
    | Code(held: set<Lock>)                            // user code, or kernel code with these spinlocks
    | Parked(k: Resume)                                // switched out
    | Leaving(k: Resume)                               // in sched, about to swtch to the scheduler
    | Landed(k: Resume)                                // just switched in
    | SleepIn(chan: Chan, lk: Lock, after: After)      // sleep: has p->lock
    | SleepSet(chan: Chan, lk: Lock, after: After)     // .. and has given up lk
    | Relock(lk: Lock, after: After)                   // awake again, to take lk
    | Waking(chan: Chan, q: Slot, ret: Ret)            // wakeup, at proc[q]
    | ForkPar(q: Slot) | ForkEnd(q: Slot)              // fork: child allocated; its parent set
    | Reparent(next: Slot)                             // exit
    | ExitLk | ExitZ                                   // .. to take p->lock; ZOMBIE, to release wait_lock
    | WaitScan(next: Slot, kids: bool)                 // wait, at proc[next]
    | WaitGo | WaitDone                                // .. to sleep; to release wait_lock
    | TestLock(n: nat, held: set<Lock>)                // acquiresleep: has lk->lk, to test lk->locked
    | SetLock(n: nat, held: set<Lock>)                 // .. has found it 0, to set it
    | ClearLock(n: nat, held: set<Lock>)               // releasesleep: has lk->lk, to clear lk->locked
    | DoneLock(n: nat, held: set<Lock>)                // either: to release lk->lk

  datatype Awaited = Awaited(chan: Chan, lk: Lock)

  /** struct proc.  `pc` and `core` stand for the saved context; `waits` and `maker` record what sleep was
      called for and who is setting the slot up; `owns` are the sleep locks it has acquired and not released. */
  datatype Proc = Proc(
    state: PState, chan: Chan, parent: Opt<Slot>, killed: bool, pid: nat, kstack: bool,
    lock: Opt<Core>, pc: Pc, core: Core, waits: Opt<Awaited>, maker: Opt<Slot>, owns: set<nat>)

  /** The scheduler of a core, or an interrupt handler that has come in on it and holds l. */
  datatype SchedPc = Idle | Chosen(q: Slot) | Away(q: Slot) | Back(q: Slot) | Cleared(q: Slot)
                   | Handling(l: Lock) | Alarm(l: Lock, chan: Chan, at: Slot)
  datatype Cpu = Cpu(proc: Opt<Slot>, pc: SchedPc)

  /** `lock` are the spinlocks held; `locked` the sleep locks with lk->locked set, and their lk->pid. */
  datatype Sys = Sys(
    proc: seq<Proc>, cpu: seq<Cpu>, lock: map<Lock, Holder>, locked: map<nat, nat>,
    nextpid: nat, init: Slot, reaped: seq<nat>)

  // ---- what a thread holds ----

  predicate OnCore(pc: Pc) {
    !pc.Gone? && !pc.Parked?
  }

  /** The thread holds its own p->lock here. */
  predicate OwnLock(pc: Pc) {
    pc.Leaving? || pc.Landed? || pc.SleepIn? || pc.SleepSet? || pc.ExitZ?
  }

  function RetLocks(ret: Ret): set<Lock> {
    match ret
    case ToCaller(held) => held
    case ToRelease(n, held) => held + {Inner(n)}
    case _ => {WAIT}
  }

  /** The other spinlocks it holds here. */
  function Locks(pc: Pc): set<Lock> {
    match pc
    case Code(held) => held
    case SleepIn(_, lk, _) => {lk}
    case Waking(_, _, ret) => RetLocks(ret)
    case Reparent(_) => {WAIT}
    case ExitLk => {WAIT}
    case ExitZ => {WAIT}
    case WaitScan(_, _) => {WAIT}
    case WaitGo => {WAIT}
    case WaitDone => {WAIT}
    case TestLock(n, held) => held + {Inner(n)}
    case SetLock(n, held) => held + {Inner(n)}
    case ClearLock(n, held) => held + {Inner(n)}
    case DoneLock(n, held) => held + {Inner(n)}
    case _ => {}
  }

  function CoreLocks(pc: SchedPc): set<Lock> {
    if pc.Handling? || pc.Alarm? then {pc.l} else {}
  }

  // ---- steps ----

  datatype Step =
    // the scheduler of core c
    | Choose(c: Core, q: Slot) | Switch(c: Core) | Leave(c: Core) | Clear(c: Core) | Unlock(c: Core)
    // process p
    | Return(p: Slot) | TakeBack(p: Slot) | Yield(p: Slot)
    | Sleep(p: Slot, chan: Chan, lk: Lock) | SleepRelease(p: Slot) | SleepMark(p: Slot)
    | Acquire(p: Slot, l: Lock) | Release(p: Slot, l: Lock)
    | Wakeup(p: Slot, chan: Chan) | WakeOne(p: Slot) | WakeEnd(p: Slot)
    | Kill(p: Slot, q: Slot)
    | ForkAlloc(p: Slot, q: Slot) | ForkFail(p: Slot) | ForkParent(p: Slot) | ForkGo(p: Slot)
    | Exit(p: Slot) | ReparentOne(p: Slot) | ReparentEnd(p: Slot) | ExitZombie(p: Slot) | ExitRelease(p: Slot)
    | Wait(p: Slot) | WaitLook(p: Slot) | WaitFault(p: Slot) | WaitKids(p: Slot) | WaitSleep(p: Slot) | WaitEnd(p: Slot)
    | AcquireSleep(p: Slot, n: nat) | TestSleep(p: Slot) | SetSleep(p: Slot)
    | ReleaseSleep(p: Slot, n: nat) | ClearSleep(p: Slot) | DoneSleep(p: Slot)
    // an interrupt on core c, in its scheduler
    | IntrTake(c: Core, l: Lock) | IntrWakeup(c: Core, chan: Chan)
    | IntrOne(c: Core) | IntrEnd(c: Core) | IntrDrop(c: Core)

  predicate At(s: Sys, p: Slot) {
    p < |s.proc| && OnCore(s.proc[p].pc)
  }

  function WithPc(s: Sys, p: Slot, pc: Pc): Sys
    requires p < |s.proc|
  {
    s.(proc := s.proc[p := s.proc[p].(pc := pc)])
  }

  function WithCpu(s: Sys, c: Core, u: Cpu): Sys
    requires c < |s.cpu|
  {
    s.(cpu := s.cpu[c := u])
  }

  function WithProc(s: Sys, p: Slot, r: Proc): Sys
    requires p < |s.proc|
  {
    s.(proc := s.proc[p := r])
  }

  function Locked(s: Sys, l: Lock, p: Slot): Sys {
    s.(lock := s.lock[l := Thread(p)])
  }

  function Unlocked(s: Sys, l: Lock): Sys {
    s.(lock := s.lock - {l})
  }

  // -- scheduler: kernel/proc.c:230-267, sched and swtch

  predicate CanChoose(s: Sys, c: Core, q: Slot) {
    c < |s.cpu| && s.cpu[c].pc.Idle? && q < |s.proc| && s.proc[q].lock == None && s.proc[q].state == RUNNABLE
  }

  function DoChoose(s: Sys, c: Core, q: Slot): Sys
    requires CanChoose(s, c, q)
  {
    WithCpu(WithProc(s, q, s.proc[q].(state := RUNNING, lock := Some(c))), c, Cpu(Some(q), Chosen(q)))
  }

  predicate CanSwitch(s: Sys, c: Core) {
    c < |s.cpu| && s.cpu[c].pc.Chosen? && s.cpu[c].pc.q < |s.proc| && s.proc[s.cpu[c].pc.q].pc.Parked?
  }

  function DoSwitch(s: Sys, c: Core): Sys
    requires CanSwitch(s, c)
  {
    var q := s.cpu[c].pc.q;
    WithCpu(WithProc(s, q, s.proc[q].(pc := Landed(s.proc[q].pc.k), core := c)), c, s.cpu[c].(pc := Away(q)))
  }

  predicate CanLeave(s: Sys, c: Core) {
    c < |s.cpu| && s.cpu[c].pc.Away? && s.cpu[c].pc.q < |s.proc| && s.proc[s.cpu[c].pc.q].pc.Leaving?
  }

  function DoLeave(s: Sys, c: Core): Sys
    requires CanLeave(s, c)
  {
    var q := s.cpu[c].pc.q;
    WithCpu(WithPc(s, q, Parked(s.proc[q].pc.k)), c, s.cpu[c].(pc := Back(q)))
  }

  predicate CanClear(s: Sys, c: Core) {
    c < |s.cpu| && s.cpu[c].pc.Back?
  }

  function DoClear(s: Sys, c: Core): Sys
    requires CanClear(s, c)
  {
    WithCpu(s, c, Cpu(None, Cleared(s.cpu[c].pc.q)))
  }

  predicate CanUnlock(s: Sys, c: Core) {
    c < |s.cpu| && s.cpu[c].pc.Cleared? && s.cpu[c].pc.q < |s.proc|
  }

  function DoUnlock(s: Sys, c: Core): Sys
    requires CanUnlock(s, c)
  {
    var q := s.cpu[c].pc.q;
    WithCpu(WithProc(s, q, s.proc[q].(lock := None)), c, Cpu(s.cpu[c].proc, Idle))
  }

  // -- forkret, yield, sleep

  predicate CanReturn(s: Sys, p: Slot) {
    At(s, p) && s.proc[p].pc.Landed?
  }

  /** After swtch: forkret and yield release p->lock; sleep also clears chan and then wants lk back.
      A zombie's thread would panic here. */
  function DoReturn(s: Sys, p: Slot): Sys
    requires CanReturn(s, p)
  {
    var r := s.proc[p].(lock := None);
    match s.proc[p].pc.k
    case FromSleep(lk, after) => WithProc(s, p, r.(chan := Nowhere, pc := Relock(lk, after)))
    case _ => WithProc(s, p, r.(pc := Code({})))
  }

  predicate CanTakeBack(s: Sys, p: Slot) {
    At(s, p) && s.proc[p].pc.Relock? && s.proc[p].pc.lk !in s.lock
  }

  function DoTakeBack(s: Sys, p: Slot): Sys
    requires CanTakeBack(s, p)
  {
    var lk := s.proc[p].pc.lk;
    Locked(WithPc(s, p,
                  match s.proc[p].pc.after
                  case ToScan => WaitScan(0, false)
                  case ToTest => if lk.Inner? then TestLock(lk.n, {}) else Code({lk})
                  case ToCode => Code({lk})), lk, p)
  }

  predicate CanYield(s: Sys, p: Slot) {
    At(s, p) && s.proc[p].pc == Code({}) && s.proc[p].lock == None && s.proc[p].state == RUNNING
  }

  function DoYield(s: Sys, p: Slot): Sys
    requires CanYield(s, p)
  {
    WithProc(s, p, s.proc[p].(state := RUNNABLE, lock := Some(s.proc[p].core), pc := Leaving(FromYield)))
  }

  predicate CanSleep(s: Sys, p: Slot, chan: Chan, lk: Lock) {
    At(s, p) && s.proc[p].pc == Code({lk}) && s.proc[p].lock == None && chan.OfCode?
  }

  function DoSleep(s: Sys, p: Slot, chan: Chan, lk: Lock): Sys
    requires CanSleep(s, p, chan, lk)
  {
    WithProc(s, p, s.proc[p].(lock := Some(s.proc[p].core), pc := SleepIn(chan, lk, ToCode)))
  }

  predicate CanSleepRelease(s: Sys, p: Slot) {
    At(s, p) && s.proc[p].pc.SleepIn?
  }

  function DoSleepRelease(s: Sys, p: Slot): Sys
    requires CanSleepRelease(s, p)
  {
    var pc := s.proc[p].pc;
    Unlocked(WithProc(s, p,
      s.proc[p].(pc := SleepSet(pc.chan, pc.lk, pc.after), waits := Some(Awaited(pc.chan, pc.lk)))), pc.lk)
  }

  predicate CanSleepMark(s: Sys, p: Slot) {
    At(s, p) && s.proc[p].pc.SleepSet?
  }

  function DoSleepMark(s: Sys, p: Slot): Sys
    requires CanSleepMark(s, p)
  {
    var pc := s.proc[p].pc;
    WithProc(s, p, s.proc[p].(chan := pc.chan, state := SLEEPING, pc := Leaving(FromSleep(pc.lk, pc.after))))
  }

  // -- spinlocks of other kernel code

  predicate CanAcquire(s: Sys, p: Slot, l: Lock) {
    At(s, p) && s.proc[p].pc.Code? && l.Spin? && l !in s.lock
  }

  function DoAcquire(s: Sys, p: Slot, l: Lock): Sys
    requires CanAcquire(s, p, l)
  {
    Locked(WithPc(s, p, Code(s.proc[p].pc.held + {l})), l, p)
  }

  predicate CanRelease(s: Sys, p: Slot, l: Lock) {
    At(s, p) && s.proc[p].pc.Code? && l in s.proc[p].pc.held
  }

  function DoRelease(s: Sys, p: Slot, l: Lock): Sys
    requires CanRelease(s, p, l)
  {
    Unlocked(WithPc(s, p, Code(s.proc[p].pc.held - {l})), l)
  }

  // -- wakeup and kill

  predicate CanWakeup(s: Sys, p: Slot, chan: Chan) {
    At(s, p) && s.proc[p].pc.Code? && chan.OfCode?
  }

  function DoWakeup(s: Sys, p: Slot, chan: Chan): Sys
    requires CanWakeup(s, p, chan)
  {
    WithPc(s, p, Waking(chan, 0, ToCaller(s.proc[p].pc.held)))
  }

  function Woken(r: Proc): Proc {
    r.(state := RUNNABLE, waits := None)
  }

  predicate CanWakeOne(s: Sys, p: Slot) {
    At(s, p) && s.proc[p].pc.Waking? && s.proc[p].pc.q < |s.proc|
      && (s.proc[p].pc.q == p || s.proc[s.proc[p].pc.q].lock == None)
  }

  function DoWakeOne(s: Sys, p: Slot): Sys
    requires CanWakeOne(s, p)
  {
    var q := s.proc[p].pc.q;
    var hit := q != p && s.proc[q].state == SLEEPING && s.proc[q].chan == s.proc[p].pc.chan;
    WithPc(if hit then WithProc(s, q, Woken(s.proc[q])) else s, p, s.proc[p].pc.(q := q + 1))
  }

  predicate CanWakeEnd(s: Sys, p: Slot) {
    At(s, p) && s.proc[p].pc.Waking? && s.proc[p].pc.q == |s.proc|
  }

  function DoWakeEnd(s: Sys, p: Slot): Sys
    requires CanWakeEnd(s, p)
  {
    WithPc(s, p,
           match s.proc[p].pc.ret
           case ToCaller(held) => Code(held)
           case ToReparent(k) => Reparent(k)
           case ToExit => ExitLk
           case ToRelease(n, held) => DoneLock(n, held))
  }

  /** kill finds slot q by its pid; kill(0) finds an unused slot. */
  predicate CanKill(s: Sys, p: Slot, q: Slot) {
    At(s, p) && s.proc[p].pc.Code? && q < |s.proc| && s.proc[q].lock == None
  }

  function DoKill(s: Sys, p: Slot, q: Slot): Sys
    requires CanKill(s, p, q)
  {
    var r := s.proc[q].(killed := true);
    WithProc(s, q, if r.state == SLEEPING then Woken(r) else r)
  }

  // -- fork: kernel/proc.c:95-168 and 482-541

  predicate CanForkAlloc(s: Sys, p: Slot, q: Slot) {
    At(s, p) && s.proc[p].pc == Code({}) && q < |s.proc| && q != p && s.proc[q].lock == None
      && s.proc[q].state == UNUSED
  }

  function DoForkAlloc(s: Sys, p: Slot, q: Slot): Sys
    requires CanForkAlloc(s, p, q)
  {
    var r := s.proc[q].(state := USED, pid := s.nextpid, kstack := true, pc := Parked(Forkret), maker := Some(p));
    WithPc(WithProc(s, q, r), p, ForkPar(q)).(nextpid := s.nextpid + 1)
  }

  /** Out of memory: the slot is freed again, the pid is spent. */
  predicate CanForkFail(s: Sys, p: Slot) {
    At(s, p) && s.proc[p].pc == Code({})
  }

  function DoForkFail(s: Sys, p: Slot): Sys
    requires CanForkFail(s, p)
  {
    s.(nextpid := s.nextpid + 1)
  }

  predicate CanForkParent(s: Sys, p: Slot) {
    At(s, p) && s.proc[p].pc.ForkPar? && s.proc[p].pc.q < |s.proc| && s.proc[p].pc.q != p && WAIT !in s.lock
  }

  function DoForkParent(s: Sys, p: Slot): Sys
    requires CanForkParent(s, p)
  {
    var q := s.proc[p].pc.q;
    WithPc(WithProc(s, q, s.proc[q].(parent := Some(p))), p, ForkEnd(q))
  }

  predicate CanForkGo(s: Sys, p: Slot) {
    At(s, p) && s.proc[p].pc.ForkEnd? && s.proc[p].pc.q < |s.proc| && s.proc[p].pc.q != p
      && s.proc[s.proc[p].pc.q].lock == None
  }

  function DoForkGo(s: Sys, p: Slot): Sys
    requires CanForkGo(s, p)
  {
    var q := s.proc[p].pc.q;
    WithPc(WithProc(s, q, s.proc[q].(state := RUNNABLE, maker := None)), p, Code({}))
  }

  // -- exit: kernel/proc.c:422-480

  predicate CanExit(s: Sys, p: Slot) {
    At(s, p) && s.proc[p].pc == Code({}) && p != s.init && s.proc[p].owns == {} && WAIT !in s.lock
  }

  function DoExit(s: Sys, p: Slot): Sys
    requires CanExit(s, p)
  {
    Locked(WithPc(s, p, Reparent(0)), WAIT, p)
  }

  predicate CanReparentOne(s: Sys, p: Slot) {
    At(s, p) && s.proc[p].pc.Reparent? && s.proc[p].pc.next < |s.proc|
  }

  function DoReparentOne(s: Sys, p: Slot): Sys
    requires CanReparentOne(s, p)
  {
    var k := s.proc[p].pc.next;
    if s.proc[k].parent == Some(p)
    then WithPc(WithProc(s, k, s.proc[k].(parent := Some(s.init))), p, Waking(OfProc(s.init), 0, ToReparent(k + 1)))
    else WithPc(s, p, Reparent(k + 1))
  }

  predicate CanReparentEnd(s: Sys, p: Slot) {
    At(s, p) && s.proc[p].pc.Reparent? && s.proc[p].pc.next == |s.proc|
  }

  function DoReparentEnd(s: Sys, p: Slot): Sys
    requires CanReparentEnd(s, p)
  {
    WithPc(s, p, Waking(if s.proc[p].parent.Some? then OfProc(s.proc[p].parent.v) else Nowhere, 0, ToExit))
  }

  predicate CanExitZombie(s: Sys, p: Slot) {
    At(s, p) && s.proc[p].pc.ExitLk? && s.proc[p].lock == None
  }

  function DoExitZombie(s: Sys, p: Slot): Sys
    requires CanExitZombie(s, p)
  {
    WithProc(s, p, s.proc[p].(state := ZOMBIE, lock := Some(s.proc[p].core), pc := ExitZ))
  }

  predicate CanExitRelease(s: Sys, p: Slot) {
    At(s, p) && s.proc[p].pc.ExitZ?
  }

  function DoExitRelease(s: Sys, p: Slot): Sys
    requires CanExitRelease(s, p)
  {
    Unlocked(WithPc(s, p, Leaving(Never)), WAIT)
  }

  // -- wait: kernel/proc.c:543-593

  predicate CanWait(s: Sys, p: Slot) {
    At(s, p) && s.proc[p].pc == Code({}) && WAIT !in s.lock
  }

  function DoWait(s: Sys, p: Slot): Sys
    requires CanWait(s, p)
  {
    Locked(WithPc(s, p, WaitScan(0, false)), WAIT, p)
  }

  predicate CanWaitLook(s: Sys, p: Slot) {
    && At(s, p) && s.proc[p].pc.WaitScan? && s.proc[p].pc.next < |s.proc|
    && (s.proc[s.proc[p].pc.next].parent == Some(p) ==> s.proc[s.proc[p].pc.next].lock == None)
  }

  function Freed(r: Proc): Proc {
    r.(state := UNUSED, chan := Nowhere, parent := None, killed := false, pid := 0, kstack := false, pc := Gone,
      waits := None)
  }

  function DoWaitLook(s: Sys, p: Slot): Sys
    requires CanWaitLook(s, p)
  {
    var k := s.proc[p].pc.next;
    var r := s.proc[k];
    if r.parent != Some(p) then WithPc(s, p, s.proc[p].pc.(next := k + 1))
    else if r.state != ZOMBIE || k == p then WithPc(s, p, WaitScan(k + 1, true))
    else WithPc(WithProc(s, k, Freed(r)), p, WaitDone).(reaped := s.reaped + [r.pid])
  }

  /** copyout of the exit status failed: nothing is reaped. */
  predicate CanWaitFault(s: Sys, p: Slot) {
    CanWaitLook(s, p) && s.proc[s.proc[p].pc.next].parent == Some(p) && s.proc[s.proc[p].pc.next].state == ZOMBIE
  }

  function DoWaitFault(s: Sys, p: Slot): Sys
    requires CanWaitFault(s, p)
  {
    WithPc(s, p, WaitDone)
  }

  predicate CanWaitKids(s: Sys, p: Slot) {
    At(s, p) && s.proc[p].pc.WaitScan? && s.proc[p].pc.next == |s.proc| && s.proc[p].lock == None
  }

  function DoWaitKids(s: Sys, p: Slot): Sys
    requires CanWaitKids(s, p)
  {
    WithPc(s, p, if !s.proc[p].pc.kids || s.proc[p].killed then WaitDone else WaitGo)
  }

  predicate CanWaitSleep(s: Sys, p: Slot) {
    At(s, p) && s.proc[p].pc.WaitGo? && s.proc[p].lock == None
  }

  function DoWaitSleep(s: Sys, p: Slot): Sys
    requires CanWaitSleep(s, p)
  {
    WithProc(s, p, s.proc[p].(lock := Some(s.proc[p].core), pc := SleepIn(OfProc(p), WAIT, ToScan)))
  }

  predicate CanWaitEnd(s: Sys, p: Slot) {
    At(s, p) && s.proc[p].pc.WaitDone?
  }

  function DoWaitEnd(s: Sys, p: Slot): Sys
    requires CanWaitEnd(s, p)
  {
    Unlocked(WithPc(s, p, Code({})), WAIT)
  }

  // -- sleep locks: kernel/sleeplock.c

  predicate CanAcquireSleep(s: Sys, p: Slot, n: nat) {
    At(s, p) && s.proc[p].pc.Code? && Inner(n) !in s.lock
  }

  function DoAcquireSleep(s: Sys, p: Slot, n: nat): Sys
    requires CanAcquireSleep(s, p, n)
  {
    Locked(WithPc(s, p, TestLock(n, s.proc[p].pc.held)), Inner(n), p)
  }

  /** A caller with other spinlocks must know that the lock is free, as iput does. */
  predicate CanTestSleep(s: Sys, p: Slot) {
    && At(s, p) && s.proc[p].pc.TestLock? && s.proc[p].lock == None
    && (s.proc[p].pc.n in s.locked ==> s.proc[p].pc.held == {})
  }

  function DoTestSleep(s: Sys, p: Slot): Sys
    requires CanTestSleep(s, p)
  {
    var n := s.proc[p].pc.n;
    if n in s.locked
    then WithProc(s, p, s.proc[p].(lock := Some(s.proc[p].core), pc := SleepIn(OfSleepLock(n), Inner(n), ToTest)))
    else WithPc(s, p, SetLock(n, s.proc[p].pc.held))
  }

  predicate CanSetSleep(s: Sys, p: Slot) {
    At(s, p) && s.proc[p].pc.SetLock?
  }

  function DoSetSleep(s: Sys, p: Slot): Sys
    requires CanSetSleep(s, p)
  {
    var n := s.proc[p].pc.n;
    WithProc(s, p, s.proc[p].(owns := s.proc[p].owns + {n}, pc := DoneLock(n, s.proc[p].pc.held)))
      .(locked := s.locked[n := s.proc[p].pid])
  }

  predicate CanReleaseSleep(s: Sys, p: Slot, n: nat) {
    At(s, p) && s.proc[p].pc.Code? && n in s.proc[p].owns && Inner(n) !in s.lock
  }

  function DoReleaseSleep(s: Sys, p: Slot, n: nat): Sys
    requires CanReleaseSleep(s, p, n)
  {
    Locked(WithPc(s, p, ClearLock(n, s.proc[p].pc.held)), Inner(n), p)
  }

  predicate CanClearSleep(s: Sys, p: Slot) {
    At(s, p) && s.proc[p].pc.ClearLock?
  }

  function DoClearSleep(s: Sys, p: Slot): Sys
    requires CanClearSleep(s, p)
  {
    var n := s.proc[p].pc.n;
    WithProc(s, p, s.proc[p].(owns := s.proc[p].owns - {n},
      pc := Waking(OfSleepLock(n), 0, ToRelease(n, s.proc[p].pc.held)))).(locked := s.locked - {n})
  }

  predicate CanDoneSleep(s: Sys, p: Slot) {
    At(s, p) && s.proc[p].pc.DoneLock?
  }

  function DoDoneSleep(s: Sys, p: Slot): Sys
    requires CanDoneSleep(s, p)
  {
    Unlocked(WithPc(s, p, Code(s.proc[p].pc.held)), Inner(s.proc[p].pc.n))
  }

  /** holdingsleep, as process p computes it with lk->lk held. */
  predicate HoldingSleep(s: Sys, p: Slot, n: nat)
    requires p < |s.proc|
  {
    n in s.locked && s.locked[n] == s.proc[p].pid
  }

  // -- interrupts on a core in its scheduler: uartintr, virtio_disk_intr and the timer each take a
  //    spinlock, and call wakeup with it held

  predicate CanIntrTake(s: Sys, c: Core, l: Lock) {
    c < |s.cpu| && s.cpu[c].pc.Idle? && l.Spin? && l !in s.lock
  }

  function DoIntrTake(s: Sys, c: Core, l: Lock): Sys
    requires CanIntrTake(s, c, l)
  {
    WithCpu(s, c, s.cpu[c].(pc := Handling(l))).(lock := s.lock[l := Handler(c)])
  }

  predicate CanIntrWakeup(s: Sys, c: Core, chan: Chan) {
    c < |s.cpu| && s.cpu[c].pc.Handling? && chan.OfCode?
  }

  function DoIntrWakeup(s: Sys, c: Core, chan: Chan): Sys
    requires CanIntrWakeup(s, c, chan)
  {
    WithCpu(s, c, s.cpu[c].(pc := Alarm(s.cpu[c].pc.l, chan, 0)))
  }

  predicate CanIntrOne(s: Sys, c: Core) {
    c < |s.cpu| && s.cpu[c].pc.Alarm? && s.cpu[c].pc.at < |s.proc| && s.proc[s.cpu[c].pc.at].lock == None
  }

  function DoIntrOne(s: Sys, c: Core): Sys
    requires CanIntrOne(s, c)
  {
    var q := s.cpu[c].pc.at;
    var hit := s.proc[q].state == SLEEPING && s.proc[q].chan == s.cpu[c].pc.chan;
    WithCpu(if hit then WithProc(s, q, Woken(s.proc[q])) else s, c, s.cpu[c].(pc := s.cpu[c].pc.(at := q + 1)))
  }

  predicate CanIntrEnd(s: Sys, c: Core) {
    c < |s.cpu| && s.cpu[c].pc.Alarm? && s.cpu[c].pc.at == |s.proc|
  }

  function DoIntrEnd(s: Sys, c: Core): Sys
    requires CanIntrEnd(s, c)
  {
    WithCpu(s, c, s.cpu[c].(pc := Handling(s.cpu[c].pc.l)))
  }

  predicate CanIntrDrop(s: Sys, c: Core) {
    c < |s.cpu| && s.cpu[c].pc.Handling?
  }

  function DoIntrDrop(s: Sys, c: Core): Sys
    requires CanIntrDrop(s, c)
  {
    Unlocked(WithCpu(s, c, s.cpu[c].(pc := Idle)), s.cpu[c].pc.l)
  }

  // ---- all together ----

  /** The state after a step, if the step can be taken. */
  function Next(s: Sys, st: Step): Opt<Sys> {
    match st
    case Choose(c, q) => if CanChoose(s, c, q) then Some(DoChoose(s, c, q)) else None
    case Switch(c) => if CanSwitch(s, c) then Some(DoSwitch(s, c)) else None
    case Leave(c) => if CanLeave(s, c) then Some(DoLeave(s, c)) else None
    case Clear(c) => if CanClear(s, c) then Some(DoClear(s, c)) else None
    case Unlock(c) => if CanUnlock(s, c) then Some(DoUnlock(s, c)) else None
    case Return(p) => if CanReturn(s, p) then Some(DoReturn(s, p)) else None
    case TakeBack(p) => if CanTakeBack(s, p) then Some(DoTakeBack(s, p)) else None
    case Yield(p) => if CanYield(s, p) then Some(DoYield(s, p)) else None
    case Sleep(p, chan, lk) => if CanSleep(s, p, chan, lk) then Some(DoSleep(s, p, chan, lk)) else None
    case SleepRelease(p) => if CanSleepRelease(s, p) then Some(DoSleepRelease(s, p)) else None
    case SleepMark(p) => if CanSleepMark(s, p) then Some(DoSleepMark(s, p)) else None
    case Acquire(p, l) => if CanAcquire(s, p, l) then Some(DoAcquire(s, p, l)) else None
    case Release(p, l) => if CanRelease(s, p, l) then Some(DoRelease(s, p, l)) else None
    case Wakeup(p, chan) => if CanWakeup(s, p, chan) then Some(DoWakeup(s, p, chan)) else None
    case WakeOne(p) => if CanWakeOne(s, p) then Some(DoWakeOne(s, p)) else None
    case WakeEnd(p) => if CanWakeEnd(s, p) then Some(DoWakeEnd(s, p)) else None
    case Kill(p, q) => if CanKill(s, p, q) then Some(DoKill(s, p, q)) else None
    case ForkAlloc(p, q) => if CanForkAlloc(s, p, q) then Some(DoForkAlloc(s, p, q)) else None
    case ForkFail(p) => if CanForkFail(s, p) then Some(DoForkFail(s, p)) else None
    case ForkParent(p) => if CanForkParent(s, p) then Some(DoForkParent(s, p)) else None
    case ForkGo(p) => if CanForkGo(s, p) then Some(DoForkGo(s, p)) else None
    case Exit(p) => if CanExit(s, p) then Some(DoExit(s, p)) else None
    case ReparentOne(p) => if CanReparentOne(s, p) then Some(DoReparentOne(s, p)) else None
    case ReparentEnd(p) => if CanReparentEnd(s, p) then Some(DoReparentEnd(s, p)) else None
    case ExitZombie(p) => if CanExitZombie(s, p) then Some(DoExitZombie(s, p)) else None
    case ExitRelease(p) => if CanExitRelease(s, p) then Some(DoExitRelease(s, p)) else None
    case Wait(p) => if CanWait(s, p) then Some(DoWait(s, p)) else None
    case WaitLook(p) => if CanWaitLook(s, p) then Some(DoWaitLook(s, p)) else None
    case WaitFault(p) => if CanWaitFault(s, p) then Some(DoWaitFault(s, p)) else None
    case WaitKids(p) => if CanWaitKids(s, p) then Some(DoWaitKids(s, p)) else None
    case WaitSleep(p) => if CanWaitSleep(s, p) then Some(DoWaitSleep(s, p)) else None
    case WaitEnd(p) => if CanWaitEnd(s, p) then Some(DoWaitEnd(s, p)) else None
    case AcquireSleep(p, n) => if CanAcquireSleep(s, p, n) then Some(DoAcquireSleep(s, p, n)) else None
    case TestSleep(p) => if CanTestSleep(s, p) then Some(DoTestSleep(s, p)) else None
    case SetSleep(p) => if CanSetSleep(s, p) then Some(DoSetSleep(s, p)) else None
    case ReleaseSleep(p, n) => if CanReleaseSleep(s, p, n) then Some(DoReleaseSleep(s, p, n)) else None
    case ClearSleep(p) => if CanClearSleep(s, p) then Some(DoClearSleep(s, p)) else None
    case DoneSleep(p) => if CanDoneSleep(s, p) then Some(DoDoneSleep(s, p)) else None
    case IntrTake(c, l) => if CanIntrTake(s, c, l) then Some(DoIntrTake(s, c, l)) else None
    case IntrWakeup(c, chan) => if CanIntrWakeup(s, c, chan) then Some(DoIntrWakeup(s, c, chan)) else None
    case IntrOne(c) => if CanIntrOne(s, c) then Some(DoIntrOne(s, c)) else None
    case IntrEnd(c) => if CanIntrEnd(s, c) then Some(DoIntrEnd(s, c)) else None
    case IntrDrop(c) => if CanIntrDrop(s, c) then Some(DoIntrDrop(s, c)) else None
  }
}
