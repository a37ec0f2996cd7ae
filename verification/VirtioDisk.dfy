/** kernel/virtio_disk.c: the driver's methods over the shared queue, and whole runs of driver and
    device. */
module VirtioDisk {
  import opened Collections
  import opened VirtioState
  import opened VirtioSteps

  // ---- runs ----

  datatype Step =
    | Submit(b: Buf, req: Req, i0: nat, i1: nat, i2: nat)   // the driver
    | Take | Complete(k: nat)                              // the device
    | Ack                                                  // one turn of the interrupt handler
    | Finish(k: nat)                                       // the process that waited
    | Fill(b: Buf, x: Block)                               // a process changes a buffer it has no request for

  datatype Sys = Sys(v: Vq, w: View)

  ghost predicate Enabled(s: Sys, st: Step) {
    match st
    case Submit(b, req, i0, i1, i2) => Unused3(s.v, i0, i1, i2) && NotInFlight(s.w, b)
    case Take => CanTake(s.v) && s.w.queued != []
    case Complete(k) => k < |s.w.taken| && Readable(s.v, s.w.taken[k])
    case Ack => CanAck(s.v) && s.w.done != []
    case Finish(k) => k < |s.w.acked| && s.w.acked[k] in s.w.chain
      && ChainFits(s.v, s.w.acked[k], s.w.chain[s.w.acked[k]])
    case Fill(b, x) => NotInFlight(s.w, b)
  }

  predicate ChainFits(v: Vq, h: nat, c: Chain) {
    Sized(v) && h < NUM && c.i1 < NUM && c.i2 < NUM
  }

  ghost function Next(s: Sys, st: Step): Sys
    requires Enabled(s, st)
  {
    match st
    case Submit(b, req, i0, i1, i2) => Sys(Submitted(s.v, b, req, i0, i1, i2), SubmittedView(s.w, b, req, i0, i1, i2))
    case Take => Sys(Took(s.v), TookView(s.w))
    case Complete(k) => Sys(Completed(s.v, s.w.taken[k]), CompletedView(s.v, s.w, k))
    case Ack => Sys(AckedOne(s.v), AckedView(s.w))
    case Finish(k) =>
      var h := s.w.acked[k];
      Sys(Finished(s.v, h, s.w.chain[h].i1, s.w.chain[h].i2), FinishedView(s.w, k))
    case Fill(b, x) => s.(v := s.v.(data := s.v.data[b := x]))
  }

  lemma FillKeeps(v: Vq, w: View, b: Buf, x: Block)
    requires Inv(v, w) && NotInFlight(w, b)
    ensures Inv(v.(data := v.data[b := x]), w)
  {
    hide ChainsOk;
    hide PlacesOk;
    hide RingsOk;
    SameChainsData(v, w, b, x);
  }

  lemma SameChainsData(v: Vq, w: View, b: Buf, x: Block)
    requires Sized(v) && ChainsOk(v, w) && RingsOk(v, w)
    ensures ChainsOk(v.(data := v.data[b := x]), w) && RingsOk(v.(data := v.data[b := x]), w)
  {
    SameChains(v, w, v.(data := v.data[b := x]), w);
  }

  lemma StepKeepsInv(s: Sys, st: Step)
    requires Inv(s.v, s.w) && Enabled(s, st)
    ensures Inv(Next(s, st).v, Next(s, st).w)
  {
    hide ChainsOk;
    hide PlacesOk;
    hide RingsOk;
    hide PhasesOk;
    hide ReadsOk;
    match st
    case Submit(b, req, i0, i1, i2) => SubmitKeeps(s.v, s.w, b, req, i0, i1, i2);
    case Take => TakeKeeps(s.v, s.w);
    case Complete(k) => CompleteKeeps(s.v, s.w, k);
    case Ack => AckKeeps(s.v, s.w);
    case Finish(k) => FinishKeeps(s.v, s.w, k);
    case Fill(b, x) => FillKeeps(s.v, s.w, b, x);
  }

  /** After virtio_disk_init. */
  ghost predicate Init(s: Sys) {
    && Sized(s.v) && (forall i {:trigger s.v.desc[i]} :: 0 <= i < NUM ==> s.v.desc[i] == CLEAR)
         && s.v.free == [true, true, true, true, true, true, true, true]
    && s.v.availIdx == 0 && s.v.usedIdx == 0 && s.v.seen == 0 && s.v.devSeen == 0 && s.v.pending == {}
    && s.w == View(map[], map[], [], [], [], [], map[])
  }

  /** Such a queue, over any disk and buffers. */
  function Fresh(disk: map<nat, Block>, data: map<Buf, Block>): (s: Sys)
    ensures Init(s)
  {
    Sys(Vq(seq(8, _ => CLEAR), [true, true, true, true, true, true, true, true], seq(8, _ => Info(None, 0)),
           seq(8, _ => Req(false, 0)),
           seq(8, _ => 0), 0, seq(8, _ => 0), 0, 0, 0, disk, data, {}),
        View(map[], map[], [], [], [], [], map[]))
  }

  ghost predicate Runs(s: Sys, run: seq<Step>, s': Sys)
    decreases |run|
  {
    if run == [] then s' == s else Enabled(s, run[0]) && Runs(Next(s, run[0]), run[1..], s')
  }

  lemma {:induction false} AllFree(free: seq<bool>)
    requires forall i :: 0 <= i < |free| ==> free[i]
    ensures CountFree(free) == |free|
  {
    if free != [] {
      AllFree(free[..|free| - 1]);
    }
  }

  lemma InitInv(s: Sys)
    requires Init(s)
    ensures Inv(s.v, s.w)
  {
    AllFree(s.v.free);
  }

  lemma {:induction false} RunKeepsInv(s: Sys, run: seq<Step>, s': Sys)
    requires Inv(s.v, s.w) && Runs(s, run, s')
    ensures Inv(s'.v, s'.w)
    decreases |run|
  {
    hide Inv;
    if run != [] {
      StepKeepsInv(s, run[0]);
      RunKeepsInv(Next(s, run[0]), run[1..], s');
    }
  }

  /** Over every run of driver and device: at most two requests are in flight, and what the device and
      the interrupt handler find next in their rings is what was put there first. */
  lemma QueueIsFaithful(s0: Sys, run: seq<Step>, s: Sys)
    requires Init(s0) && Runs(s0, run, s)
    ensures Inv(s.v, s.w) && InFlightCount(s.w) <= 2
    ensures CanTake(s.v) <==> s.w.queued != []
    ensures CanTake(s.v) ==> TakenHead(s.v) == s.w.queued[0]
    ensures s.v.seen != s.v.usedIdx <==> s.w.done != []
    ensures s.v.seen != s.v.usedIdx ==>
      var h := s.w.done[0];
      s.v.used[s.v.seen % 8] == h && h in s.w.chain && s.v.info[h].status == 0 && s.v.info[h].b == Some(s.w.chain[h].b)
  {
    InitInv(s0);
    RunKeepsInv(s0, run, s);
    hide ChainsOk;
    hide PlacesOk;
    hide RingsOk;
    hide PhasesOk;
    hide ReadsOk;
    AtMostTwo(s.v, s.w);
    TakeKeeps(s.v, s.w);
    AckFinds(s.v, s.w);
  }

  /** Over every run: when a process that asked for a read comes to free its chain, its buffer holds the
      block that the disk held when the device served the request. */
  lemma ReadReturnsBlock(s0: Sys, run: seq<Step>, s: Sys, h: nat)
    requires Init(s0) && Runs(s0, run, s) && h in s.w.acked && h in s.w.got
    ensures h in s.w.chain && s.w.chain[h].b in s.v.data && s.v.data[s.w.chain[h].b] == s.w.got[h]
  {
    hide ChainsOk;
    hide RingsOk;
    hide PhasesOk;
    hide Init;
    hide Runs;
    InitInv(s0);
    RunKeepsInv(s0, run, s);
    InPlace(s.w.acked, s.w.at, Acked, h);
  }

  // ---- writes ----

  /** The write of block x to the sector, by request h, has not been served yet. */
  ghost predicate Carries(s: Sys, h: nat, sector: nat, x: Block) {
    && h in s.w.chain && h in s.w.at && (s.w.at[h] == Queued || s.w.at[h] == Taken)
    && s.w.chain[h].req == Req(true, sector) && s.w.chain[h].b in s.v.data && s.v.data[s.w.chain[h].b] == x
  }

  ghost predicate Serves(s: Sys, st: Step, h: nat) {
    st.Complete? && st.k < |s.w.taken| && s.w.taken[st.k] == h
  }

  ghost predicate WritesTo(s: Sys, st: Step, sector: nat) {
    exists h :: Serves(s, st, h) && h in s.w.chain && s.w.chain[h].req == Req(true, sector)
  }

  ghost predicate Holds(s: Sys, sector: nat, x: Block) {
    sector in s.v.disk && s.v.disk[sector] == x
  }

  /** The device serves request h, a write: the sector now has the data of its buffer. */
  lemma ServedWrites(s: Sys, st: Step, h: nat, sector: nat, x: Block)
    requires Inv(s.v, s.w) && Enabled(s, st) && Serves(s, st, h) && Carries(s, h, sector, x)
    ensures Holds(Next(s, st), sector, x)
  {
    hide ChainsOk;
    hide PlacesOk;
    hide RingsOk;
    hide PhasesOk;
    hide ReadsOk;
    CompleteMoves(s.v, s.w, st.k);
  }

  lemma OtherServed(s: Sys, st: Step, h: nat, sector: nat, x: Block)
    requires Inv(s.v, s.w) && Enabled(s, st) && st.Complete? && !Serves(s, st, h) && Carries(s, h, sector, x)
    ensures Carries(Next(s, st), h, sector, x)
  {
    hide ChainsOk;
    hide PlacesOk;
    hide RingsOk;
    hide ReadsOk;
    CompleteMoves(s.v, s.w, st.k);
    hide Completed;
    hide Readable;
  }

  /** A step other than a completion leaves a request that is not yet served as it is. */
  lemma OtherStep(s: Sys, st: Step, h: nat, sector: nat, x: Block)
    requires Inv(s.v, s.w) && Enabled(s, st) && !st.Complete? && Carries(s, h, sector, x)
    ensures Carries(Next(s, st), h, sector, x)
  {
    hide ChainsOk;
    hide RingsOk;
    hide PhasesOk;
    hide ReadsOk;
    match st
    case Submit(b, req, i0, i1, i2) => SubmitChains(s.v, s.w, b, req, i0, i1, i2);
    case Ack => InPlace(s.w.done, s.w.at, Done, s.w.done[0]);
    case Finish(k) => InPlace(s.w.acked, s.w.at, Acked, s.w.acked[k]);
    case _ =>
  }

  lemma StepHolds(s: Sys, st: Step, sector: nat, x: Block)
    requires Inv(s.v, s.w) && Enabled(s, st) && Holds(s, sector, x) && !WritesTo(s, st, sector)
    ensures Holds(Next(s, st), sector, x)
  {
    hide ChainsOk;
    hide PlacesOk;
    hide RingsOk;
    hide PhasesOk;
    hide ReadsOk;
    if st.Complete? {
      CompleteMoves(s.v, s.w, st.k);
      var h := s.w.taken[st.k];
      assert Serves(s, st, h);
    }
  }

  ghost predicate NoWriteTo(s: Sys, run: seq<Step>, sector: nat)
    decreases |run|
  {
    run != [] && Enabled(s, run[0]) ==> !WritesTo(s, run[0], sector) && NoWriteTo(Next(s, run[0]), run[1..], sector)
  }

  lemma {:induction false} RunHolds(s: Sys, run: seq<Step>, s': Sys, sector: nat, x: Block)
    requires Inv(s.v, s.w) && Runs(s, run, s') && Holds(s, sector, x) && NoWriteTo(s, run, sector)
    ensures Holds(s', sector, x)
    decreases |run|
  {
    hide Inv;
    hide Holds;
    hide WritesTo;
    hide Enabled;
    if run != [] {
      StepKeepsInv(s, run[0]);
      StepHolds(s, run[0], sector, x);
      RunHolds(Next(s, run[0]), run[1..], s', sector, x);
    }
  }

  /** Steps `pre` from s to t, the step that serves h, and steps `post` to s'. */
  datatype Split = Split(pre: seq<Step>, t: Sys, st: Step, post: seq<Step>)

  ghost predicate SplitsAt(s: Sys, run: seq<Step>, s': Sys, p: Split, h: nat) {
    && run == p.pre + [p.st] + p.post && Runs(s, p.pre, p.t) && Enabled(p.t, p.st)
    && Runs(Next(p.t, p.st), p.post, s') && Serves(p.t, p.st, h)
  }

  lemma {:induction false} CarriedIsServed(s: Sys, run: seq<Step>, s': Sys, h: nat, sector: nat, x: Block)
    returns (p: Split)
    requires Inv(s.v, s.w) && Runs(s, run, s') && Carries(s, h, sector, x) && !Carries(s', h, sector, x)
    ensures SplitsAt(s, run, s', p, h) && Carries(p.t, h, sector, x) && Inv(p.t.v, p.t.w)
    decreases |run|
  {
    hide Inv;
    hide Carries;
    hide Enabled;
    hide Serves;
    hide Next;
    var st, rest := run[0], run[1..];
    var s1 := Next(s, st);
    StepKeepsInv(s, st);
    if Serves(s, st, h) {
      p := Split([], s, st, rest);
      assert run == [] + [st] + rest;
    } else {
      NotServed(s, st, h, sector, x);
      var q := CarriedIsServed(s1, rest, s', h, sector, x);
      p := q.(pre := [st] + q.pre);
      assert run == [st] + (q.pre + [q.st] + q.post);
      assert p.pre[1..] == q.pre;
    }
  }

  lemma NotServed(s: Sys, st: Step, h: nat, sector: nat, x: Block)
    requires Inv(s.v, s.w) && Enabled(s, st) && !Serves(s, st, h) && Carries(s, h, sector, x)
    ensures Carries(Next(s, st), h, sector, x)
  {
    hide Inv;
    hide Carries;
    hide Serves;
    hide Next;
    hide Enabled;
    if st.Complete? {
      OtherServed(s, st, h, sector, x);
    } else {
      OtherStep(s, st, h, sector, x);
    }
  }

  lemma SubmitCarries(s: Sys, b: Buf, sector: nat, i0: nat, i1: nat, i2: nat)
    requires Enabled(s, Submit(b, Req(true, sector), i0, i1, i2)) && b in s.v.data
    ensures Carries(Next(s, Submit(b, Req(true, sector), i0, i1, i2)), i0, sector, s.v.data[b])
  {
  }

  lemma AckedNotCarried(s: Sys, h: nat, sector: nat, x: Block)
    requires Inv(s.v, s.w) && h in s.w.acked
    ensures !Carries(s, h, sector, x)
  {
    hide ChainsOk;
    hide RingsOk;
    hide PhasesOk;
    hide ReadsOk;
    InPlace(s.w.acked, s.w.at, Acked, h);
  }

  /** Over every run: a write whose completion the handler has seen was served at some step, by which its
      sector has the data the buffer held when the write was submitted; and the sector keeps that data
      for as long as the device serves no other write to it. */
  lemma WriteReachesDisk(s0: Sys, run0: seq<Step>, s: Sys, b: Buf, sector: nat, i0: nat, i1: nat, i2: nat,
                         run: seq<Step>, s': Sys) returns (p: Split)
    requires Init(s0) && Runs(s0, run0, s) && Enabled(s, Submit(b, Req(true, sector), i0, i1, i2)) && b in s.v.data
    requires Runs(Next(s, Submit(b, Req(true, sector), i0, i1, i2)), run, s') && i0 in s'.w.acked
    ensures SplitsAt(Next(s, Submit(b, Req(true, sector), i0, i1, i2)), run, s', p, i0)
    ensures Holds(Next(p.t, p.st), sector, s.v.data[b])
    ensures NoWriteTo(Next(p.t, p.st), p.post, sector) ==> Holds(s', sector, s.v.data[b])
  {
    hide *;
    InitInv(s0);
    RunKeepsInv(s0, run0, s);
    var st, x := Submit(b, Req(true, sector), i0, i1, i2), s.v.data[b];
    StepKeepsInv(s, st);
    RunKeepsInv(Next(s, st), run, s');
    SubmitCarries(s, b, sector, i0, i1, i2);
    AckedNotCarried(s', i0, sector, x);
    p := CarriedIsServed(Next(s, st), run, s', i0, sector, x);
    ServedAndKept(Next(s, st), run, s', p, i0, sector, x);
  }

  lemma ServedAndKept(s: Sys, run: seq<Step>, s': Sys, p: Split, h: nat, sector: nat, x: Block)
    requires Inv(p.t.v, p.t.w) && SplitsAt(s, run, s', p, h) && Carries(p.t, h, sector, x)
    ensures Holds(Next(p.t, p.st), sector, x)
    ensures NoWriteTo(Next(p.t, p.st), p.post, sector) ==> Holds(s', sector, x)
  {
    hide Inv;
    hide Holds;
    hide Carries;
    hide Enabled;
    hide Serves;
    hide Next;
    hide NoWriteTo;
    ServedWrites(p.t, p.st, h, sector, x);
    StepKeepsInv(p.t, p.st);
    if NoWriteTo(Next(p.t, p.st), p.post, sector) {
      RunHolds(Next(p.t, p.st), p.post, s', sector, x);
    }
  }

  // ---- the driver ----

  class Driver {
    var v: Vq

    /** alloc_desc: the first free descriptor, now taken; or none is free. */
    method AllocDesc() returns (r: int)
      requires Sized(v)
      modifies this
      ensures -1 <= r < NUM
      ensures r < 0 ==> v == old(v) && forall j :: 0 <= j < NUM ==> !v.free[j]
      ensures r >= 0 ==> old(v).free[r] && v == old(v).(free := old(v).free[r := false])
      ensures r >= 0 ==> forall j :: 0 <= j < r ==> !v.free[j]
    {
      var i := 0;
      while i < NUM
        invariant 0 <= i <= NUM && v == old(v)
        invariant forall j :: 0 <= j < i ==> !v.free[j]
      {
        if v.free[i] {
          v := v.(free := v.free[i := false]);
          return i;
        }
        i := i + 1;
      }
      r := -1;
    }

    /** free_desc, which panics unless the descriptor is in range and taken. */
    method FreeDesc(i: nat)
      requires Sized(v) && i < NUM && !v.free[i]
      modifies this
      ensures v == old(v).(desc := old(v).desc[i := CLEAR], free := old(v).free[i := true])
      ensures CountFree(v.free) == CountFree(old(v).free) + 1 && (FreeClear(old(v)) ==> FreeClear(v))
    {
      CountUpdate(v.free, i, true);
      v := v.(desc := v.desc[i := CLEAR], free := v.free[i := true]);
    }

    /** alloc3_desc: three different free descriptors, or none is kept. */
    method Alloc3Desc() returns (ok: bool, idx: seq<nat>)
      requires Sized(v) && FreeClear(v)
      modifies this
      ensures ok <==> CountFree(old(v).free) >= 3
      ensures ok ==> |idx| == 3 && Unused3(old(v), idx[0], idx[1], idx[2])
      ensures ok ==> v == old(v).(free := Marked(old(v).free, idx[0], idx[1], idx[2], false))
      ensures !ok ==> v == old(v)
    {
      idx, ok := [], true;
      ghost var v0 := v;
      while |idx| < 3 && ok
        invariant |idx| <= 3 && Sized(v) && v == v0.(free := v.free) && Reserved(v0.free, idx, v.free)
        invariant CountFree(v.free) == CountFree(v0.free) - |idx|
        invariant !ok ==> |idx| < 3 && CountFree(v.free) == 0
        decreases 3 - |idx|, ok
      {
        ghost var free1 := v.free;
        var i := AllocDesc();
        if i < 0 {
          ok := false;
          NoneFree(v.free);
        } else {
          CountUpdate(free1, i, false);
          ReservedMore(v0.free, idx, free1, i);
          idx := idx + [i];
        }
      }
      if ok {
        ReservedThree(v0.free, idx, v.free);
      } else {
        GiveBack(idx, v0);
      }
    }

    /** What alloc3_desc does when it finds too few. */
    method GiveBack(idx: seq<nat>, ghost v0: Vq)
      requires Sized(v) && Sized(v0) && FreeClear(v0) && v == v0.(free := v.free) && Reserved(v0.free, idx, v.free)
      modifies this
      ensures v == v0
    {
      var j := 0;
      while j < |idx|
        invariant 0 <= j <= |idx| && Sized(v) && v == v0.(free := v.free) && Reserved(v0.free, idx[j..], v.free)
      {
        assert idx[j..] == [idx[j]] + idx[j + 1..] && idx[j..][0] == idx[j];
        assert v.desc[idx[j] := CLEAR] == v.desc;
        FreeDesc(idx[j]);
        j := j + 1;
      }
      assert idx[|idx|..] == [] && v.free == v0.free;
    }

    /** free_chain: it frees the three descriptors of a chain and nothing else, without panic. */
    method FreeChain(h: nat, ghost c: Chain)
      requires Sized(v) && ThreeTaken(v, h, c) && Formatted(v, h, c)
      modifies this
      ensures v == FreedUpTo(old(v), h, c, 3)
      ensures v == old(v).(desc := old(v).desc[h := CLEAR][c.i1 := CLEAR][c.i2 := CLEAR],
        free := Marked(old(v).free, h, c.i1, c.i2, true))
    {
      FreedThree(v, h, c);
      ghost var k := 0;
      var i, more := h, true;
      while more
        invariant 0 <= k <= 3 && (more <==> k < 3) && Sized(v) && v == FreedUpTo(old(v), h, c, k)
        invariant i == if k == 0 then h else if k == 1 then c.i1 else c.i2
        decreases 3 - k
      {
        var d := v.desc[i];
        FreeDesc(i);
        more := d.more;
        if more {
          i := d.next;
        }
        k := k + 1;
      }
    }

    /** virtio_disk_rw up to the point where it waits: the request is queued if three descriptors are
        free (otherwise the process sleeps and tries again). */
    method Rw(b: Buf, write: bool, blockno: nat, ghost w: View) returns (ok: bool, ghost w': View)
      requires Inv(v, w) && NotInFlight(w, b)
      modifies this
      ensures ok <==> InFlightCount(w) < 2
      ensures !ok ==> v == old(v) && w' == w
      ensures ok ==> Inv(v, w') && |w'.queued| == |w.queued| + 1
      ensures ok ==>
        var h := w'.queued[|w.queued|];
        && h in w'.chain && h !in w.chain && w'.chain == w.chain[h := w'.chain[h]]
        && w'.chain[h].b == b && w'.chain[h].req == Req(write, blockno * 2) && v.pending == old(v).pending + {b}
    {
      hide EachOk;
      hide Apart;
      hide RestFree;
      hide PlacesOk;
      hide RingsOk;
      hide PhasesOk;
      hide ReadsOk;
      hide FreeClear;
      w' := w;
      ghost var v0 := v;
      var idx;
      ok, idx := Alloc3Desc();
      if ok {
        var i0, i1, i2 := idx[0], idx[1], idx[2];
        var req := Req(write, blockno * 2);
        v := v.(ops := v.ops[i0 := req]);
        v := v.(desc := v.desc[i0 := Desc(OpsOf(i0), 16, false, true, i1)]);
        v := v.(desc := v.desc[i1 := Desc(DataOf(b), 1024, !write, true, i2)]);
        v := v.(desc := v.desc[i2 := Desc(StatusOf(i0), 1, true, false, 0)]);
        v := v.(pending := v.pending + {b}, info := v.info[i0 := Info(Some(b), 0xff)]);
        v := v.(avail := v.avail[v.availIdx % 8 := i0]);
        v := v.(availIdx := (v.availIdx + 1) % 65536);
        w' := SubmittedView(w, b, req, i0, i1, i2);
        SubmitKeeps(v0, w, b, req, i0, i1, i2);
        assert v == Submitted(v0, b, req, i0, i1, i2);
        FreeUnused(v0, w.chain, i0);
        assert i0 in w.chain ==> Uses(i0, w.chain[i0], i0);
      }
    }

    /** The interrupt handler: every completion in the used ring is seen, none finds a bad status or a
        missing buffer, and exactly the buffers of the completed requests stop being pending. */
    method Intr(ghost w: View) returns (ghost w': View)
      requires Inv(v, w)
      modifies this
      ensures Inv(v, w') && w'.done == [] && w'.acked == w.acked + w.done && w'.chain == w.chain
      ensures v.seen == v.usedIdx
      ensures forall h {:trigger w.chain[h]} :: h in w.chain ==> (w.chain[h].b in v.pending <==> h !in w.acked + w.done)
    {
      hide ChainsOk;
      hide PlacesOk;
      hide RingsOk;
      hide PhasesOk;
      hide ReadsOk;
      hide FreeClear;
      w' := w;
      AckFinds(v, w);
      while v.seen != v.usedIdx
        invariant Inv(v, w') && w'.acked + w'.done == w.acked + w.done && w'.chain == w.chain
        invariant v.seen != v.usedIdx <==> w'.done != []
        decreases |w'.done|
      {
        w' := AckOne(w');
        AckFinds(v, w');
      }
      PendingIs(v, w');
    }

    /** One turn of its loop. */
    method AckOne(ghost w: View) returns (ghost w': View)
      requires Inv(v, w) && v.seen != v.usedIdx
      modifies this
      ensures Inv(v, w') && w'.acked + w'.done == w.acked + w.done && w'.chain == w.chain && |w'.done| < |w.done|
    {
      hide ChainsOk;
      hide PlacesOk;
      hide RingsOk;
      hide PhasesOk;
      hide ReadsOk;
      hide FreeClear;
      AckFinds(v, w);
      AckKeeps(v, w);
      w' := AckedView(w);
      assert w'.acked + w'.done == w.acked + w.done;
      var id := v.used[v.seen % 8];
      assert v.info[id].status == 0;
      v := v.(pending := v.pending - {v.info[id].b.v}, seen := (v.seen + 1) % 65536);
    }

    /** The rest of virtio_disk_rw, once b->disk is clear. */
    method Finish(h: nat, ghost k: nat, ghost w: View) returns (ghost w': View)
      requires Inv(v, w) && k < |w.acked| && h == w.acked[k]
      modifies this
      ensures w' == FinishedView(w, k) && Inv(v, w') && h !in w'.chain && InFlightCount(w') == InFlightCount(w) - 1
      ensures v.disk == old(v).disk && v.data == old(v).data && v.pending == old(v).pending
    {
      hide ChainsOk;
      hide PlacesOk;
      hide RingsOk;
      hide PhasesOk;
      hide ReadsOk;
      hide FreeClear;
      FinishKeeps(v, w, k);
      ghost var c, v0 := w.chain[h], v;
      v := v.(info := v.info[h := v.info[h].(b := None)]);
      FreeChain(h, c);
      assert v == Finished(v0, h, c.i1, c.i2);
      w' := FinishedView(w, k);
    }
  }

  /** The descriptors in idx are different, were free in `free`, and are taken in `now`. */
  ghost predicate Reserved(free: seq<bool>, idx: seq<nat>, now: seq<bool>) {
    && |free| == NUM && |now| == NUM && NoDup(idx)
    && (forall k {:trigger idx[k]} :: 0 <= k < |idx| ==> idx[k] < NUM && free[idx[k]])
    && (forall j {:trigger now[j]} {:trigger free[j]} :: 0 <= j < NUM ==> (now[j] <==> free[j] && j !in idx))
  }

  lemma ReservedMore(free: seq<bool>, idx: seq<nat>, now: seq<bool>, i: nat)
    requires Reserved(free, idx, now) && i < NUM && now[i]
    ensures Reserved(free, idx + [i], now[i := false])
  {
  }

  lemma ReservedThree(free: seq<bool>, idx: seq<nat>, now: seq<bool>)
    requires Reserved(free, idx, now) && |idx| == 3
    ensures now == Marked(free, idx[0], idx[1], idx[2], false)
    ensures idx[0] != idx[1] && idx[0] != idx[2] && idx[1] != idx[2]
    ensures free[idx[0]] && free[idx[1]] && free[idx[2]]
  {
    assert idx == [idx[0], idx[1], idx[2]];
  }

  lemma FreedThree(v: Vq, h: nat, c: Chain)
    requires Sized(v) && h < NUM && c.i1 < NUM && c.i2 < NUM
    ensures FreedUpTo(v, h, c, 3) == v.(desc := v.desc[h := CLEAR][c.i1 := CLEAR][c.i2 := CLEAR],
      free := Marked(v.free, h, c.i1, c.i2, true))
  {
    assert FreedUpTo(v, h, c, 1) == v.(desc := v.desc[h := CLEAR], free := v.free[h := true]);
    assert FreedUpTo(v, h, c, 2) == v.(desc := v.desc[h := CLEAR][c.i1 := CLEAR],
      free := v.free[h := true][c.i1 := true]);
  }

  /** The first k descriptors of a chain freed. */
  ghost function FreedUpTo(v: Vq, h: nat, c: Chain, k: nat): Vq
    requires Sized(v) && h < NUM && c.i1 < NUM && c.i2 < NUM && k <= 3
  {
    if k == 0 then v
    else
      var i := if k == 1 then h else if k == 2 then c.i1 else c.i2;
      var u := FreedUpTo(v, h, c, k - 1);
      if Sized(u) then u.(desc := u.desc[i := CLEAR], free := u.free[i := true]) else u
  }

  lemma PendingIs(v: Vq, w: View)
    requires Inv(v, w) && w.done == []
    ensures forall h {:trigger w.chain[h]} :: h in w.chain ==> (w.chain[h].b in v.pending <==> h !in w.acked)
  {
    hide ChainsOk;
    hide RingsOk;
    assert forall h {:trigger w.chain[h]} :: h in w.chain ==> h in w.at && (h in w.acked <==> w.at[h] == Acked);
  }
}
