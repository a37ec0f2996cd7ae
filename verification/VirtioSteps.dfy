/** The steps of driver and device, each of which keeps the queue's invariant. */
module VirtioSteps {
  import opened Collections
  import opened VirtioState

  // ---- the driver submits: kernel/virtio_disk.c:225-291 ----

  predicate Unused3(v: Vq, i0: nat, i1: nat, i2: nat) {
    Sized(v) && i0 < NUM && i1 < NUM && i2 < NUM && i0 != i1 && i0 != i2 && i1 != i2
      && v.free[i0] && v.free[i1] && v.free[i2]
  }

  function Marked(free: seq<bool>, i0: nat, i1: nat, i2: nat, x: bool): seq<bool>
    requires |free| == NUM && i0 < NUM && i1 < NUM && i2 < NUM
  {
    free[i0 := x][i1 := x][i2 := x]
  }

  function Submitted(v: Vq, b: Buf, req: Req, i0: nat, i1: nat, i2: nat): Vq
    requires Unused3(v, i0, i1, i2)
  {
    v.(free := Marked(v.free, i0, i1, i2, false),
       ops := v.ops[i0 := req],
       desc := v.desc[i0 := Desc(OpsOf(i0), 16, false, true, i1)]
                     [i1 := Desc(DataOf(b), 1024, !req.write, true, i2)]
                     [i2 := Desc(StatusOf(i0), 1, true, false, 0)],
       info := v.info[i0 := Info(Some(b), 0xff)],
       pending := v.pending + {b},
       avail := v.avail[v.availIdx % 8 := i0],
       availIdx := (v.availIdx + 1) % 65536)
  }

  function SubmittedView(w: View, b: Buf, req: Req, i0: nat, i1: nat, i2: nat): View {
    w.(queued := w.queued + [i0], at := w.at[i0 := Queued], chain := w.chain[i0 := Chain(b, req, i1, i2)])
  }

  ghost predicate NotInFlight(w: View, b: Buf) {
    forall h {:trigger w.chain[h]} :: h in w.chain ==> w.chain[h].b != b
  }

  // ---- the device takes a request from the avail ring ----

  predicate CanTake(v: Vq) {
    Sized(v) && v.devSeen != v.availIdx
  }

  function TakenHead(v: Vq): nat
    requires CanTake(v)
  {
    v.avail[v.devSeen % 8]
  }

  function Took(v: Vq): Vq
    requires CanTake(v)
  {
    v.(devSeen := (v.devSeen + 1) % 65536)
  }

  function TookView(w: View): View
    requires w.queued != []
  {
    w.(queued := w.queued[..0] + w.queued[1..], taken := w.taken + [w.queued[0]], at := w.at[w.queued[0] := Taken])
  }

  // ---- the device completes one of the requests it has taken, in any order ----

  /** The chain can be followed from h as the device follows it. */
  predicate Readable(v: Vq, h: nat) {
    && Sized(v) && h < NUM && v.desc[h].more && v.desc[h].next < NUM && v.desc[h].addr.OpsOf? && v.desc[h].addr.i < NUM
    && var d1 := v.desc[v.desc[h].next];
       d1.more && d1.next < NUM && d1.addr.DataOf? && v.desc[d1.next].addr.StatusOf? && v.desc[d1.next].addr.i < NUM
  }

  function Moved(v: Vq, req: Req, b: Buf): Vq {
    if req.write
    then (if b in v.data then v.(disk := v.disk[req.sector := v.data[b]]) else v)
    else (if req.sector in v.disk then v.(data := v.data[b := v.disk[req.sector]]) else v)
  }

  /** Follow the descriptors, move the block, write the status, push the head on the used ring. */
  function Completed(v: Vq, h: nat): Vq
    requires Readable(v, h)
  {
    var d1 := v.desc[v.desc[h].next];
    var st := v.desc[d1.next].addr.i;
    Moved(v, v.ops[v.desc[h].addr.i], d1.addr.b).(
      info := v.info[st := v.info[st].(status := 0)],
      used := v.used[v.usedIdx % 8 := h],
      usedIdx := (v.usedIdx + 1) % 65536)
  }

  function Served(v: Vq, w: View, h: nat): map<nat, Block> {
    if h in w.chain && !w.chain[h].req.write && w.chain[h].req.sector in v.disk
    then w.got[h := v.disk[w.chain[h].req.sector]] else w.got - {h}
  }

  function CompletedView(v: Vq, w: View, k: nat): View
    requires k < |w.taken|
  {
    w.(got := Served(v, w, w.taken[k]), taken := w.taken[..k] + w.taken[k + 1..],
       done := w.done + [w.taken[k]], at := w.at[w.taken[k] := Done])
  }

  // ---- the interrupt handler sees one completion: kernel/virtio_disk.c:309-327 ----

  predicate CanAck(v: Vq) {
    Sized(v) && v.seen != v.usedIdx && v.used[v.seen % 8] < NUM && v.info[v.used[v.seen % 8]].b.Some?
  }

  function AckedOne(v: Vq): Vq
    requires CanAck(v)
  {
    v.(pending := v.pending - {v.info[v.used[v.seen % 8]].b.v}, seen := (v.seen + 1) % 65536)
  }

  function AckedView(w: View): View
    requires w.done != []
  {
    w.(done := w.done[..0] + w.done[1..], acked := w.acked + [w.done[0]], at := w.at[w.done[0] := Acked])
  }

  // ---- the process is awake and frees the chain ----

  function Finished(v: Vq, h: nat, i1: nat, i2: nat): Vq
    requires Sized(v) && h < NUM && i1 < NUM && i2 < NUM
  {
    v.(info := v.info[h := v.info[h].(b := None)],
       desc := v.desc[h := CLEAR][i1 := CLEAR][i2 := CLEAR],
       free := Marked(v.free, h, i1, i2, true))
  }

  function FinishedView(w: View, k: nat): View
    requires k < |w.acked| && w.acked[k] in w.chain
  {
    w.(acked := w.acked[..k] + w.acked[k + 1..], at := w.at - {w.acked[k]}, chain := w.chain - {w.acked[k]})
  }

  // ---- Submitted keeps the invariant ----

  lemma Mark3(free: seq<bool>, i0: nat, i1: nat, i2: nat, x: bool)
    requires |free| == NUM && i0 < NUM && i1 < NUM && i2 < NUM && i0 != i1 && i0 != i2 && i1 != i2
    requires free[i0] != x && free[i1] != x && free[i2] != x
    ensures CountFree(Marked(free, i0, i1, i2, x)) == CountFree(free) + if x then 3 else -3
  {
    CountUpdate(free, i0, x);
    CountUpdate(free[i0 := x], i1, x);
    CountUpdate(free[i0 := x][i1 := x], i2, x);
  }

  /** A free descriptor belongs to no chain. */
  lemma FreeUnused(v: Vq, cs: Chains, i: nat)
    requires Sized(v) && EachOk(v, cs) && i < NUM && v.free[i]
    ensures forall h {:trigger cs[h]} {:trigger h in cs} :: h in cs ==> !Uses(h, cs[h], i)
  {
  }

  ghost predicate Clear3(cs: Chains, i0: nat, i1: nat, i2: nat) {
    forall h {:trigger cs[h]} {:trigger h in cs} :: h in cs ==>
      !Uses(h, cs[h], i0) && !Uses(h, cs[h], i1) && !Uses(h, cs[h], i2)
  }

  lemma SubmitEach(v: Vq, cs: Chains, b: Buf, req: Req, i0: nat, i1: nat, i2: nat)
    requires Sized(v) && EachOk(v, cs) && Unused3(v, i0, i1, i2) && Clear3(cs, i0, i1, i2)
    ensures EachOk(Submitted(v, b, req, i0, i1, i2), cs[i0 := Chain(b, req, i1, i2)])
  {
  }

  lemma SubmitApart(cs: Chains, b: Buf, req: Req, i0: nat, i1: nat, i2: nat)
    requires Apart(cs) && Clear3(cs, i0, i1, i2)
    ensures Apart(cs[i0 := Chain(b, req, i1, i2)])
  {
  }

  lemma SubmitRest(free: seq<bool>, cs: Chains, b: Buf, req: Req, i0: nat, i1: nat, i2: nat)
    requires |free| == NUM && RestFree(free, cs) && i0 < NUM && i1 < NUM && i2 < NUM && i0 !in cs
    ensures RestFree(Marked(free, i0, i1, i2, false), cs[i0 := Chain(b, req, i1, i2)])
  {
    var cs' := cs[i0 := Chain(b, req, i1, i2)];
    forall i | 0 <= i < NUM && !Marked(free, i0, i1, i2, false)[i]
      ensures InFlight(cs', i)
    {
      if i == i0 || i == i1 || i == i2 {
        assert Uses(i0, cs'[i0], i);
      } else {
        assert InFlight(cs, i);
        var h :| h in cs && Uses(h, cs[h], i);
        assert h in cs' && Uses(h, cs'[h], i);
      }
    }
  }

  lemma SubmitChains(v: Vq, w: View, b: Buf, req: Req, i0: nat, i1: nat, i2: nat)
    requires Inv(v, w) && Unused3(v, i0, i1, i2)
    ensures ChainsOk(Submitted(v, b, req, i0, i1, i2), SubmittedView(w, b, req, i0, i1, i2))
    ensures Clear3(w.chain, i0, i1, i2)
  {
    hide EachOk;
    hide Apart;
    hide RestFree;
    hide CountFree;
    FreeUnused(v, w.chain, i0);
    FreeUnused(v, w.chain, i1);
    FreeUnused(v, w.chain, i2);
    Mark3(v.free, i0, i1, i2, false);
    SubmitEach(v, w.chain, b, req, i0, i1, i2);
    SubmitApart(w.chain, b, req, i0, i1, i2);
    SubmitRest(v.free, w.chain, b, req, i0, i1, i2);
  }

  lemma SubmitPlaces(w: View, b: Buf, req: Req, i0: nat, i1: nat, i2: nat)
    requires PlacesOk(w) && i0 !in w.chain
    ensures PlacesOk(SubmittedView(w, b, req, i0, i1, i2))
  {
    assert i0 !in w.at;
    ListsAppend(w.queued, w.at, Queued, i0);
    ListsOther(w.taken, w.at, Taken, i0, Queued);
    ListsOther(w.done, w.at, Done, i0, Queued);
    ListsOther(w.acked, w.at, Acked, i0, Queued);
  }

  lemma SubmitPhases(v: Vq, w: View, b: Buf, req: Req, i0: nat, i1: nat, i2: nat)
    requires Sized(v) && PhasesOk(v, w) && Unused3(v, i0, i1, i2) && NotInFlight(w, b) && i0 !in w.chain && i0 !in w.at
    ensures PhasesOk(Submitted(v, b, req, i0, i1, i2), SubmittedView(w, b, req, i0, i1, i2))
  {
  }

  /** A request is accepted whenever three descriptors are free. */
  lemma SubmitKeeps(v: Vq, w: View, b: Buf, req: Req, i0: nat, i1: nat, i2: nat)
    requires Inv(v, w) && Unused3(v, i0, i1, i2) && NotInFlight(w, b)
    ensures Inv(Submitted(v, b, req, i0, i1, i2), SubmittedView(w, b, req, i0, i1, i2))
  {
    hide ChainsOk;
    hide Ring;
    hide PhasesOk;
    hide Lists;
    AtMostTwo(v, w);
    SubmitChains(v, w, b, req, i0, i1, i2);
    assert i0 in w.chain ==> Uses(i0, w.chain[i0], i0);
    RingPush(v.avail, v.devSeen, w.queued, v.availIdx, i0);
    SubmitPlaces(w, b, req, i0, i1, i2);
    SubmitPhases(v, w, b, req, i0, i1, i2);
  }

  // ---- the device's steps keep the invariant ----

  /** Nothing has changed that the chains depend on. */
  lemma SameChains(v: Vq, w: View, v': Vq, w': View)
    requires Sized(v) && Sized(v') && ChainsOk(v, w) && w'.chain == w.chain && InFlightCount(w') == InFlightCount(w)
    requires v'.desc == v.desc && v'.free == v.free && v'.ops == v.ops
    requires forall i {:trigger v'.info[i]} :: 0 <= i < NUM ==> v'.info[i].b == v.info[i].b
    ensures ChainsOk(v', w')
  {
  }

  /** The device takes the oldest request that it has not seen yet. */
  lemma TakeKeeps(v: Vq, w: View)
    requires Inv(v, w)
    ensures CanTake(v) <==> w.queued != []
    ensures CanTake(v) ==> TakenHead(v) == w.queued[0] && Inv(Took(v), TookView(w))
  {
    hide ChainsOk;
    hide Ring;
    hide Lists;
    hide PhasesOk;
    hide ReadsOk;
    AtMostTwo(v, w);
    RingPop(v.avail, v.devSeen, w.queued, v.availIdx);
    if w.queued != [] {
      var h, v', w' := w.queued[0], Took(v), TookView(w);
      assert h in w.queued;
      InPlace(w.queued, w.at, Queued, h);
      assert w.queued[..0] + w.queued[1..] == w.queued[1..];
      SameChains(v, w, v', w');
      ListsRemove(w.queued, w.at, Queued, 0, Taken);
      ListsAppend(w.taken, w.at, Taken, h);
      ElsewhereNot(w, h);
      ListsOther(w.done, w.at, Done, h, Taken);
      ListsOther(w.acked, w.at, Acked, h, Taken);
      MovedOn(v, w, h, v', w');
    }
  }

  /** Taking a request changes no buffer, no status and no pending flag. */
  lemma MovedOn(v: Vq, w: View, h: nat, v': Vq, w': View)
    requires Sized(v) && Sized(v') && PhasesOk(v, w) && ReadsOk(v, w) && h in w.at && h in w.chain
    requires w'.chain == w.chain && w'.got == w.got && v'.info == v.info && v'.data == v.data
    requires w.at[h] == Queued && w'.at == w.at[h := Taken] && v'.pending == v.pending
    ensures PhasesOk(v', w') && ReadsOk(v', w')
  {
  }

  lemma InPlace(q: seq<nat>, at: map<nat, Phase>, ph: Phase, h: nat)
    requires Lists(q, at, ph) && h in q
    ensures h in at && at[h] == ph
  {
  }

  lemma ElsewhereNot(w: View, h: nat)
    requires PlacesOk(w) && h in w.at
    ensures h in w.chain
    ensures w.at[h] != Queued ==> h !in w.queued
    ensures w.at[h] != Taken ==> h !in w.taken
    ensures w.at[h] != Done ==> h !in w.done
    ensures w.at[h] != Acked ==> h !in w.acked
  {
  }

  lemma ChainAt(v: Vq, w: View, h: nat)
    requires Sized(v) && ChainsOk(v, w) && h in w.chain
    ensures ChainOk(v, h, w.chain[h])
  {
  }

  /** Whatever the device has taken it can follow; it moves the block that was asked for between the
      disk and the buffer of that request, and nothing else. */
  lemma CompleteMoves(v: Vq, w: View, k: nat)
    requires Inv(v, w) && k < |w.taken|
    ensures w.taken[k] in w.chain && Readable(v, w.taken[k])
    ensures var h := w.taken[k]; var c, v' := w.chain[h], Completed(v, h);
      && v'.disk == Moved(v, c.req, c.b).disk && v'.data == Moved(v, c.req, c.b).data
      && v'.info == v.info[h := v.info[h].(status := 0)]
  {
    hide ChainsOk;
    hide Lists;
    var h := w.taken[k];
    assert h in w.taken;
    InPlace(w.taken, w.at, Taken, h);
    ChainAt(v, w, h);
  }

  lemma CompletePhases(v: Vq, w: View, k: nat, v': Vq, w': View)
    requires Inv(v, w) && k < |w.taken| && Readable(v, w.taken[k]) && w.taken[k] in w.at && w.at[w.taken[k]] == Taken
    requires v' == Completed(v, w.taken[k]) && w' == CompletedView(v, w, k) && Sized(v')
    ensures PhasesOk(v', w')
  {
    hide ChainsOk;
    hide Ring;
    hide Lists;
    CompleteMoves(v, w, k);
  }

  /** The block of a read goes to its own buffer and stays there: no other request in flight has it. */
  lemma CompleteReads(v: Vq, w: View, k: nat)
    requires Inv(v, w) && k < |w.taken| && Readable(v, w.taken[k]) && w.taken[k] in w.at && w.at[w.taken[k]] == Taken
    ensures ReadsOk(Completed(v, w.taken[k]), CompletedView(v, w, k))
  {
    hide ChainsOk;
    hide Ring;
    hide Lists;
    CompleteMoves(v, w, k);
    hide Readable;
    hide Completed;
  }

  lemma CompleteKeeps(v: Vq, w: View, k: nat)
    requires Inv(v, w) && k < |w.taken|
    ensures Readable(v, w.taken[k]) && Inv(Completed(v, w.taken[k]), CompletedView(v, w, k))
  {
    hide ChainsOk;
    hide Ring;
    hide Lists;
    hide PhasesOk;
    hide ReadsOk;
    CompleteMoves(v, w, k);
    AtMostTwo(v, w);
    var h := w.taken[k];
    var v', w' := Completed(v, h), CompletedView(v, w, k);
    assert h in w.taken;
    InPlace(w.taken, w.at, Taken, h);
    ChainAt(v, w, h);
    CompletePhases(v, w, k, v', w');
    CompleteReads(v, w, k);
    RingPush(v.used, v.seen, w.done, v.usedIdx, h);
    SameChains(v, w, v', w');
    ListsRemove(w.taken, w.at, Taken, k, Done);
    ListsAppend(w.done, w.at, Done, h);
    ElsewhereNot(w, h);
    ListsOther(w.queued, w.at, Queued, h, Done);
    ListsOther(w.acked, w.at, Acked, h, Done);
  }

  // ---- the interrupt handler ----

  /** Every completion the handler finds has status 0 and the buffer of its own request. */
  lemma AckFinds(v: Vq, w: View)
    requires Inv(v, w)
    ensures v.seen != v.usedIdx <==> w.done != []
    ensures v.seen != v.usedIdx ==>
      var id := v.used[v.seen % 8];
      && id == w.done[0] && id in w.chain && id < NUM
      && v.info[id].status == 0 && v.info[id].b == Some(w.chain[id].b) && w.chain[id].b in v.pending
  {
    hide ChainsOk;
    hide Ring;
    hide Lists;
    AtMostTwo(v, w);
    RingPop(v.used, v.seen, w.done, v.usedIdx);
    if w.done != [] {
      var h := w.done[0];
      assert h in w.done;
      InPlace(w.done, w.at, Done, h);
      ChainAt(v, w, h);
    }
  }

  lemma AckKeeps(v: Vq, w: View)
    requires Inv(v, w) && v.seen != v.usedIdx
    ensures CanAck(v) && w.done != [] && Inv(AckedOne(v), AckedView(w))
  {
    hide ChainsOk;
    hide Ring;
    hide Lists;
    hide PhasesOk;
    hide ReadsOk;
    AckFinds(v, w);
    AtMostTwo(v, w);
    RingPop(v.used, v.seen, w.done, v.usedIdx);
    var h, v', w' := w.done[0], AckedOne(v), AckedView(w);
    assert h in w.done;
    InPlace(w.done, w.at, Done, h);
    assert w.done[..0] + w.done[1..] == w.done[1..];
    SameChains(v, w, v', w');
    ListsRemove(w.done, w.at, Done, 0, Acked);
    ListsAppend(w.acked, w.at, Acked, h);
    ElsewhereNot(w, h);
    ListsOther(w.queued, w.at, Queued, h, Acked);
    ListsOther(w.taken, w.at, Taken, h, Acked);
    Acknowledged(v, w, h, v', w');
  }

  lemma Acknowledged(v: Vq, w: View, h: nat, v': Vq, w': View)
    requires Sized(v) && Sized(v') && PhasesOk(v, w) && ReadsOk(v, w) && h in w.at && h in w.chain
    requires forall g {:trigger g in w.at} :: g in w.at <==> g in w.chain
    requires w'.chain == w.chain && w'.got == w.got && v'.info == v.info && v'.data == v.data
    requires w.at[h] == Done && w'.at == w.at[h := Acked] && v'.pending == v.pending - {w.chain[h].b}
    ensures PhasesOk(v', w') && ReadsOk(v', w')
  {
  }

  // ---- the process that waited ----

  lemma FinishEach(v: Vq, cs: Chains, h: nat)
    requires Sized(v) && EachOk(v, cs) && Apart(cs) && h in cs && cs[h].i1 < NUM && cs[h].i2 < NUM && h < NUM
    ensures EachOk(Finished(v, h, cs[h].i1, cs[h].i2), cs - {h})
  {
    var c := cs[h];
    var v' := Finished(v, h, c.i1, c.i2);
    forall g | g in cs && g != h
      ensures ChainOk(v', g, cs[g])
    {
      assert Uses(h, c, h) && Uses(h, c, c.i1) && Uses(h, c, c.i2);
      assert Uses(g, cs[g], g) && Uses(g, cs[g], cs[g].i1) && Uses(g, cs[g], cs[g].i2);
      assert ChainOk(v, g, cs[g]);
      assert !Uses(g, cs[g], h) && !Uses(g, cs[g], c.i1) && !Uses(g, cs[g], c.i2);
    }
  }

  lemma FinishRest(free: seq<bool>, cs: Chains, h: nat)
    requires |free| == NUM && RestFree(free, cs) && h in cs && cs[h].i1 < NUM && cs[h].i2 < NUM && h < NUM
    ensures RestFree(Marked(free, h, cs[h].i1, cs[h].i2, true), cs - {h})
  {
    forall i | 0 <= i < NUM && !Marked(free, h, cs[h].i1, cs[h].i2, true)[i]
      ensures InFlight(cs - {h}, i)
    {
      assert InFlight(cs, i);
      var g :| g in cs && Uses(g, cs[g], i);
      assert g in cs - {h} && Uses(g, (cs - {h})[g], i);
    }
  }

  lemma FinishChains(v: Vq, w: View, k: nat)
    requires Inv(v, w) && k < |w.acked| && w.acked[k] in w.chain
    ensures var h := w.acked[k]; var c := w.chain[h];
      ChainOk(v, h, c) && ChainsOk(Finished(v, h, c.i1, c.i2), FinishedView(w, k))
  {
    hide EachOk;
    hide Apart;
    hide RestFree;
    hide CountFree;
    var h := w.acked[k];
    var c := w.chain[h];
    ChainAt(v, w, h);
    FinishEach(v, w.chain, h);
    FinishRest(v.free, w.chain, h);
    FinishApart(w.chain, h);
    Mark3(v.free, h, c.i1, c.i2, true);
  }

  lemma FinishApart(cs: Chains, h: nat)
    requires Apart(cs)
    ensures Apart(cs - {h})
  {
  }

  lemma FinishKeeps(v: Vq, w: View, k: nat)
    requires Inv(v, w) && k < |w.acked|
    ensures w.acked[k] in w.chain
    ensures var h := w.acked[k]; var c := w.chain[h];
      ChainOk(v, h, c) && c.b !in v.pending && Inv(Finished(v, h, c.i1, c.i2), FinishedView(w, k))
  {
    hide ChainsOk;
    hide Ring;
    hide Lists;
    var h := w.acked[k];
    assert h in w.acked;
    InPlace(w.acked, w.at, Acked, h);
    ElsewhereNot(w, h);
    FinishChains(v, w, k);
    ListsRemove(w.acked, w.at, Acked, k, Done);
    ListsOther(w.queued, w.at, Queued, h, Done);
    ListsOther(w.taken, w.at, Taken, h, Done);
    ListsOther(w.done, w.at, Done, h, Queued);
  }
}
