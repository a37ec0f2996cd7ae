/** The virtqueue of kernel/virtio_disk.c (section 2.6 of VIRTIO 1.1) shared by driver and device.

    `Vq` is the queue memory, the driver's book-keeping, the disk and the buffers.  `View` tells, as a
    ghost, which requests are in flight and how far each has come: queued in the avail ring, taken by
    the device, done and queued in the used ring, or acknowledged and waiting for its process. */
module VirtioState {
  import opened Collections

  const NUM: nat := 8
  const IDX: nat := 65536          // ring indices are uint16

  type Buf = nat
  type Block = seq<int>

  /** Where a descriptor points: a request header, the data of a buffer, a status byte. */
  datatype Addr = Zero | OpsOf(i: nat) | DataOf(b: Buf) | StatusOf(i: nat)
  datatype Desc = Desc(addr: Addr, len: nat, write: bool, more: bool, next: nat)
  datatype Req = Req(write: bool, sector: nat)
  datatype Info = Info(b: Opt<Buf>, status: nat)

  datatype Vq = Vq(
    desc: seq<Desc>, free: seq<bool>, info: seq<Info>, ops: seq<Req>,
    avail: seq<nat>, availIdx: nat,          // written by the driver
    used: seq<nat>, usedIdx: nat,            // written by the device
    seen: nat, devSeen: nat,                 // how far the driver has read used, and the device avail
    disk: map<nat, Block>, data: map<Buf, Block>, pending: set<Buf>)   // pending: b->disk == 1

  /** A request: its buffer, what it asks for, and its second and third descriptors. */
  datatype Chain = Chain(b: Buf, req: Req, i1: nat, i2: nat)
  type Chains = map<nat, Chain>
  datatype Phase = Queued | Taken | Done | Acked

  /** The chains in flight by their first descriptor, where each of them is, each place in order, and what
      the disk held when a read was served. */
  datatype View = View(
    chain: Chains, at: map<nat, Phase>, queued: seq<nat>, taken: seq<nat>, done: seq<nat>, acked: seq<nat>,
    got: map<nat, Block>)

  const CLEAR: Desc := Desc(Zero, 0, false, false, 0)

  function InFlightCount(w: View): nat {
    |w.queued| + |w.taken| + |w.done| + |w.acked|
  }

  // ---- descriptors ----

  predicate Uses(h: nat, c: Chain, i: nat) {
    i == h || i == c.i1 || i == c.i2
  }

  function CountFree(free: seq<bool>): nat {
    if free == [] then 0 else CountFree(free[..|free| - 1]) + if free[|free| - 1] then 1 else 0
  }

  /** The three descriptors of a chain as virtio_disk_rw formats them. */
  predicate Formatted(v: Vq, h: nat, c: Chain)
    requires Sized(v) && h < NUM && c.i1 < NUM && c.i2 < NUM
  {
    && v.desc[h] == Desc(OpsOf(h), 16, false, true, c.i1)
    && v.desc[c.i1] == Desc(DataOf(c.b), 1024, !c.req.write, true, c.i2)
    && v.desc[c.i2] == Desc(StatusOf(h), 1, true, false, 0)
    && v.ops[h] == c.req
  }

  predicate Sized(v: Vq) {
    |v.desc| == NUM && |v.free| == NUM && |v.info| == NUM && |v.ops| == NUM && |v.avail| == NUM && |v.used| == NUM
  }

  predicate ThreeTaken(v: Vq, h: nat, c: Chain)
    requires Sized(v)
  {
    && h < NUM && c.i1 < NUM && c.i2 < NUM && h != c.i1 && h != c.i2 && c.i1 != c.i2
    && !v.free[h] && !v.free[c.i1] && !v.free[c.i2]
  }

  ghost predicate ChainOk(v: Vq, h: nat, c: Chain)
    requires Sized(v)
  {
    ThreeTaken(v, h, c) && Formatted(v, h, c) && v.info[h].b == Some(c.b)
  }

  /** Descriptor i belongs to a chain in flight. */
  ghost predicate InFlight(cs: Chains, i: nat) {
    exists h :: h in cs && Uses(h, cs[h], i)
  }

  /** Each chain in flight is three formatted descriptors that are not free. */
  ghost predicate EachOk(v: Vq, cs: Chains)
    requires Sized(v)
  {
    forall h {:trigger cs[h]} {:trigger h in cs} :: h in cs ==> ChainOk(v, h, cs[h])
  }

  /** No two chains share a descriptor. */
  ghost predicate Apart(cs: Chains) {
    forall h, g, i {:trigger Uses(h, cs[h], i), Uses(g, cs[g], i)} ::
      h in cs && g in cs && Uses(h, cs[h], i) && Uses(g, cs[g], i) ==> h == g
  }

  /** Every descriptor that belongs to no chain is free. */
  ghost predicate RestFree(free: seq<bool>, cs: Chains)
    requires |free| == NUM
  {
    forall i {:trigger InFlight(cs, i)} :: 0 <= i < NUM && !free[i] ==> InFlight(cs, i)
  }

  ghost predicate ChainsOk(v: Vq, w: View)
    requires Sized(v)
  {
    EachOk(v, w.chain) && Apart(w.chain) && RestFree(v.free, w.chain) && CountFree(v.free) + 3 * InFlightCount(w) == NUM
  }

  /** Place q holds, once each, the heads whose phase is ph. */
  ghost predicate Lists(q: seq<nat>, at: map<nat, Phase>, ph: Phase) {
    NoDup(q) && forall h {:trigger h in q} {:trigger h in at} :: h in q <==> h in at && at[h] == ph
  }

  /** Every chain in flight is at exactly one place. */
  ghost predicate PlacesOk(w: View) {
    && (forall h {:trigger h in w.at} {:trigger h in w.chain} :: h in w.at <==> h in w.chain)
    && Lists(w.queued, w.at, Queued) && Lists(w.taken, w.at, Taken) && Lists(w.done, w.at, Done)
         && Lists(w.acked, w.at, Acked)
  }

  /** From index start on, modulo wrap-around, the ring holds q, up to index end. */
  ghost predicate Ring(ring: seq<nat>, start: nat, q: seq<nat>, end: nat) {
    && |ring| == NUM && start < IDX && end == (start + |q|) % 65536
    && forall k {:trigger q[k]} :: 0 <= k < |q| ==> ring[(start + k) % 8] == q[k]
  }

  ghost predicate RingsOk(v: Vq, w: View) {
    Ring(v.avail, v.devSeen, w.queued, v.availIdx) && Ring(v.used, v.seen, w.done, v.usedIdx)
  }

  /** b->disk is set from submission until the completion is seen, status is zero from completion on,
      and a buffer has one request at a time. */
  ghost predicate PhasesOk(v: Vq, w: View)
    requires Sized(v)
  {
    && (forall h {:trigger w.at[h]} :: h in w.at && w.at[h] == Done ==> h < NUM && v.info[h].status == 0)
    && (forall h {:trigger w.at[h]} :: h in w.at && h in w.chain ==> (w.chain[h].b in v.pending <==> w.at[h] != Acked))
    && (forall h, g {:trigger w.chain[h], w.chain[g]} ::
          h in w.chain && g in w.chain && w.chain[h].b == w.chain[g].b ==> h == g)
  }

  /** A read that is done has in its buffer what the disk held when it was served. */
  ghost predicate ReadsOk(v: Vq, w: View) {
    forall h {:trigger w.got[h]} {:trigger h in w.got} ::
      h in w.got && h in w.chain && h in w.at && w.at[h] != Queued && w.at[h] != Taken ==>
      w.chain[h].b in v.data && v.data[w.chain[h].b] == w.got[h]
  }

  /** A free descriptor is all zero. */
  ghost predicate FreeClear(v: Vq)
    requires Sized(v)
  {
    forall i {:trigger v.free[i]} {:trigger v.desc[i]} :: 0 <= i < NUM && v.free[i] ==> v.desc[i] == CLEAR
  }

  ghost predicate Inv(v: Vq, w: View) {
    Sized(v) && FreeClear(v) && ChainsOk(v, w) && PlacesOk(w) && RingsOk(v, w) && PhasesOk(v, w) && ReadsOk(v, w)
  }

  /** At most two requests are in flight. */
  lemma AtMostTwo(v: Vq, w: View)
    requires Inv(v, w)
    ensures InFlightCount(w) <= 2
  {
  }

  // ---- counting free descriptors ----

  lemma {:induction false} NoneFree(free: seq<bool>)
    requires forall i :: 0 <= i < |free| ==> !free[i]
    ensures CountFree(free) == 0
  {
    if free != [] {
      NoneFree(free[..|free| - 1]);
    }
  }

  lemma {:induction false} CountUpdate(free: seq<bool>, i: nat, x: bool)
    requires i < |free|
    ensures CountFree(free[i := x]) == CountFree(free) + (if x then 1 else 0) - (if free[i] then 1 else 0)
  {
    var n := |free| - 1;
    if i == n {
      assert free[i := x][..n] == free[..n];
    } else {
      assert free[i := x][..n] == free[..n][i := x];
      CountUpdate(free[..n], i, x);
    }
  }

  // ---- rings ----

  lemma RingPush(ring: seq<nat>, start: nat, q: seq<nat>, end: nat, x: nat)
    requires Ring(ring, start, q, end) && |q| < 8
    ensures Ring(ring[end % 8 := x], start, q + [x], (end + 1) % 65536)
  {
    assert end % 8 == (start + |q|) % 8;
    forall k | 0 <= k < |q|
      ensures ring[end % 8 := x][(start + k) % 8] == q[k]
    {
      SlotsDiffer(start + k, start + |q|);
    }
  }

  lemma SlotsDiffer(x: nat, y: nat)
    requires x < y < x + 8
    ensures x % 8 != y % 8
  {
  }

  lemma RingPop(ring: seq<nat>, start: nat, q: seq<nat>, end: nat)
    requires Ring(ring, start, q, end) && |q| < 8
    ensures q == [] <==> start == end
    ensures q != [] ==> ring[start % 8] == q[0] && Ring(ring, (start + 1) % 65536, q[1..], end)
  {
    if q != [] {
      assert ring[(start + 0) % 8] == q[0];
      forall k | 0 <= k < |q| - 1
        ensures ring[((start + 1) % 65536 + k) % 8] == q[1..][k]
      {
        assert ((start + 1) % 65536 + k) % 8 == (start + (k + 1)) % 8;
        assert ring[(start + (k + 1)) % 8] == q[k + 1];
      }
    }
  }

  // ---- places ----

  lemma ListsAppend(q: seq<nat>, at: map<nat, Phase>, ph: Phase, h: nat)
    requires Lists(q, at, ph) && (h in at ==> at[h] != ph)
    ensures Lists(q + [h], at[h := ph], ph)
  {
    assert h !in q;
  }

  lemma ListsRemove(q: seq<nat>, at: map<nat, Phase>, ph: Phase, k: nat, other: Phase)
    requires Lists(q, at, ph) && k < |q| && other != ph
    ensures Lists(q[..k] + q[k + 1..], at[q[k] := other], ph) && Lists(q[..k] + q[k + 1..], at - {q[k]}, ph)
  {
    var r := q[..k] + q[k + 1..];
    assert forall i {:trigger r[i]} :: 0 <= i < |r| ==> r[i] == if i < k then q[i] else q[i + 1];
    forall h
      ensures h in r <==> h in q && h != q[k]
    {
      if h in q && h != q[k] {
        var i :| 0 <= i < |q| && q[i] == h;
        assert i < k ==> r[i] == h;
        assert i > k ==> r[i - 1] == h;
      }
    }
  }

  lemma ListsOther(q: seq<nat>, at: map<nat, Phase>, ph: Phase, h: nat, other: Phase)
    requires Lists(q, at, ph) && h !in q && other != ph
    ensures Lists(q, at[h := other], ph) && Lists(q, at - {h}, ph)
  {
  }
}
