/** user/umalloc.c: malloc, free and morecore over one heap. */
module UMalloc {
  import opened Collections
  import opened HeapState
  import opened HeapFree
  import opened HeapTake

  // ---- what free does to the headers ----

  datatype Fields = Fields(size: map<nat, nat>, ptr: map<nat, nat>)

  /** Link bp to what follows it, swallowing it if it touches. */
  function Up(f: Fields, q: nat, bp: nat): Fields
    requires bp in f.size && q in f.size && q in f.ptr
  {
    if bp + f.size[bp] == q then Fields(f.size[bp := f.size[bp] + f.size[q]], f.ptr[bp := f.ptr[q]])
    else Fields(f.size, f.ptr[bp := q])
  }

  /** Link p to bp, or let p swallow it. */
  function Down(f: Fields, p: nat, bp: nat): Fields
    requires p in f.size && bp in f.size && bp in f.ptr
  {
    if p + f.size[p] == bp then Fields(f.size[p := f.size[p] + f.size[bp]], f.ptr[p := f.ptr[bp]])
    else Fields(f.size, f.ptr[p := bp])
  }

  /** Some free block has at least n units. */
  ghost predicate HasRoom(size: map<nat, nat>, fl: seq<nat>, n: nat) {
    exists b {:trigger fl[b]} :: 0 < b < |fl| && fl[b] in size && size[fl[b]] >= n
  }

  lemma LinkUp(f: Fields, fl: seq<nat>, live: seq<Blk>, brk: nat, units: nat, i: nat, bp: nat, p: nat, q: nat)
    returns (g: Fields, fl': seq<nat>)
    requires Shape(f.size, f.ptr, fl, live, brk, units) && Ordered(f.size, fl, brk)
    requires Loose(f.size, fl, live, brk, bp) && Place(fl, i, bp)
    requires p == fl[i] && q == Succ(fl, i)
    ensures q in f.size && q in f.ptr && p in f.size && bp in g.size
    ensures g.size == Up(f, q, bp).size && g.ptr == Up(f, q, bp).ptr[p := bp]
    ensures i + 1 < |fl'| && fl'[i] == p && fl'[i + 1] == bp && fl'[0] == fl[0]
    ensures Shape(g.size, g.ptr, fl', live, brk, units + f.size[bp]) && g.size[bp] >= f.size[bp]
    ensures forall k {:trigger Touch(g.size, fl', k)} :: 0 <= k && Touch(g.size, fl', k) ==> k == i
  {
    hide Ordered;
    hide Circle;
    hide Ordered0;
    hide LiveOk;
    hide Loose;
    NextEntry(f, fl, live, brk, i, bp);
    InsertShape(f.size, f.ptr, fl, live, brk, units, i, bp);
    var fl1, ptr1 := Inserted(fl, i, bp), f.ptr[bp := q][p := bp];
    g, fl' := Fields(f.size, ptr1), fl1;
    assert fl1[i] == p && fl1[i + 1] == bp && (i + 2 < |fl1| ==> fl1[i + 2] == q);
    if bp + f.size[bp] == q {
      g, fl' := SwallowNext(f, fl1, live, brk, units + f.size[bp], i, bp, p, q, ptr1);
    }
  }

  lemma NextEntry(f: Fields, fl: seq<nat>, live: seq<Blk>, brk: nat, i: nat, bp: nat)
    requires Circle(f.ptr, fl) && Ordered(f.size, fl, brk) && Loose(f.size, fl, live, brk, bp) && Place(fl, i, bp)
    ensures Succ(fl, i) in f.size && Succ(fl, i) in f.ptr && bp in f.size && fl[i] in f.size
    ensures bp + f.size[bp] == Succ(fl, i) ==> i + 1 < |fl|
  {
    var k := if i + 1 < |fl| then i + 1 else 0;
    assert f.ptr[fl[k]] == Succ(fl, k);
  }

  lemma SwallowNext(f: Fields, fl1: seq<nat>, live: seq<Blk>, brk: nat, units: nat, i: nat, bp: nat, p: nat, q: nat,
                    ptr1: map<nat, nat>)
    returns (g: Fields, fl': seq<nat>)
    requires i + 2 < |fl1| && fl1[i] == p && fl1[i + 1] == bp && fl1[i + 2] == q && p < bp < q
    requires Shape(f.size, ptr1, fl1, live, brk, units) && bp in f.size
    requires bp + f.size[bp] == q && q in f.size && q in f.ptr
    requires ptr1 == f.ptr[bp := q][p := bp]
    requires forall k {:trigger Touch(f.size, fl1, k)} :: 0 <= k && Touch(f.size, fl1, k) ==> k == i || k == i + 1
    ensures g.size == Up(f, q, bp).size && g.ptr == Up(f, q, bp).ptr[p := bp]
    ensures i + 1 < |fl'| && fl'[i] == p && fl'[i + 1] == bp && fl'[0] == fl1[0]
    ensures Shape(g.size, g.ptr, fl', live, brk, units) && g.size[bp] >= f.size[bp]
    ensures forall k {:trigger Touch(g.size, fl', k)} :: 0 <= k && Touch(g.size, fl', k) ==> k == i
  {
    hide Circle;
    hide Ordered0;
    hide LiveOk;
    assert Touch(f.size, fl1, i + 1);
    MergeShape(f.size, ptr1, fl1, live, brk, units, i + 1);
    g, fl' := Fields(Swollen(f.size, fl1, i + 1), ptr1[bp := ptr1[q]]), Without(fl1, i + 2);
    assert g.ptr == Up(f, q, bp).ptr[p := bp];
    forall k | 0 <= k && Touch(g.size, fl', k)
      ensures k == i
    {
    }
  }

  lemma LinkDown(f: Fields, fl: seq<nat>, live: seq<Blk>, brk: nat, units: nat, i: nat, bp: nat, p: nat, n: nat)
    returns (g: Fields, fl': seq<nat>)
    requires i + 1 < |fl| && p == fl[i] && bp == fl[i + 1] && f.ptr.Keys >= {p}
    requires Shape(f.size, f.ptr, fl, live, brk, units)
    requires (forall k {:trigger Touch(f.size, fl, k)} :: 0 <= k && Touch(f.size, fl, k) ==> k == i)
    requires bp in f.size && f.size[bp] >= n && f.ptr[p] == bp
    ensures bp in f.ptr && p in f.size && g == Down(f, p, bp) && p in fl' && fl'[0] == fl[0]
    ensures Circle(g.ptr, fl') && Ordered(g.size, fl', brk) && LiveOk(g.size, fl', live, brk)
    ensures FreeUnits(g.size, fl') == units && HasRoom(g.size, fl', n)
  {
    SizedEntry(f.size, fl, brk, i);
    assert f.ptr[fl[i + 1]] == Succ(fl, i + 1);
    OrderedAsc(f.size, fl, brk);
    BaseFirst(f.size, fl, brk);
    hide Circle;
    hide Ordered0;
    hide LiveOk;
    assert Touch(f.size, fl, i) <==> p + f.size[p] == bp;
    if Touch(f.size, fl, i) {
      MergeShape(f.size, f.ptr, fl, live, brk, units, i);
      g, fl' := Fields(Swollen(f.size, fl, i), f.ptr[p := f.ptr[bp]]), Without(fl, i + 1);
      forall k | 0 <= k
        ensures !Touch(g.size, fl', k)
      {
      }
      assert fl'[i] == p;
    } else {
      g, fl' := f, fl;
      assert f.ptr == f.ptr[p := bp];
      assert fl'[i] == p && fl'[i + 1] == bp;
    }
    NoTouchOrdered(g.size, fl', brk);
  }

  lemma BaseFirst(size: map<nat, nat>, fl: seq<nat>, brk: nat)
    requires Ordered0(size, fl, brk)
    ensures size[fl[0]] == 0
  {
  }

  // ---- sizes ----

  /** nunits for a request of nbytes, which is a uint. */
  function Units(nbytes: nat): (n: nat)
    ensures 1 <= n && nbytes <= (n - 1) * 16 < nbytes + 16
  {
    (nbytes + 15) / 16 + 1
  }

  /** What sbrk's int parameter makes of the byte count that morecore passes. */
  function SbrkArg(nu: nat): int {
    var m := nu * 16 % 0x1_0000_0000;
    if m < 0x8000_0000 then m else m - 0x1_0000_0000
  }

  function Least(nu: nat): nat {
    if nu < 4096 then 4096 else nu
  }

  /** morecore gets the units it records in the new block exactly for requests below 2147483617 bytes;
      from there on the byte count no longer fits sbrk's int. */
  lemma SbrkHonest(nbytes: nat)
    requires nbytes < 0x1_0000_0000
    ensures SbrkArg(Least(Units(nbytes))) == Least(Units(nbytes)) * 16 <==> nbytes < 2147483617
    ensures SbrkArg(Least(Units(2147483617))) < 0
  {
  }

  // ---- searching ----

  /** Entry t lies strictly between entry k and entry c on the way round from k. */
  predicate Between(k: nat, c: nat, t: nat) {
    if k < c then k < t < c else t > k || t < c
  }

  function NextIdx(fl: seq<nat>, i: nat): nat {
    if i + 1 < |fl| then i + 1 else 0
  }

  function IndexOf(fl: seq<nat>, x: nat): (i: nat)
    requires x in fl
    ensures i < |fl| && fl[i] == x
  {
    if fl[0] == x then 0 else 1 + IndexOf(fl[1..], x)
  }

  /** No entry has room once the search is back at its start. */
  lemma AllScanned(size: map<nat, nat>, fl: seq<nat>, k0: nat, n: nat)
    requires k0 < |fl| && forall t {:trigger fl[t]} :: 0 <= t < |fl| && (Between(k0, k0, t) || t == k0) ==>
      SizeAt(size, fl[t]) < n
    ensures !HasRoom(size, fl, n)
  {
    forall b | 0 < b < |fl|
      ensures SizeAt(size, fl[b]) < n
    {
      assert Between(k0, k0, b) || b == k0;
    }
  }

  /** A block taken out of live is loose. */
  lemma LooseFromLive(size: map<nat, nat>, fl: seq<nat>, live: seq<Blk>, brk: nat, j: nat)
    requires LiveOk(size, fl, live, brk) && j < |live| && fl != []
    ensures LiveOk(size, fl, live[..j] + live[j + 1..], brk)
    ensures Loose(size, fl, live[..j] + live[j + 1..], brk, live[j].a)
    ensures live[j].a in size && size[live[j].a] == live[j].n
  {
    var live' := live[..j] + live[j + 1..];
    assert forall k {:trigger live'[k]} :: 0 <= k < |live'| ==> live'[k] == if k < j then live[k] else live[k + 1];
    forall a, b | 0 <= a < b < |live'|
      ensures Disjoint(live'[a].a, live'[a].n, live'[b].a, live'[b].n)
    {
      assert Disjoint(live[if a < j then a else a + 1].a, live[if a < j then a else a + 1].n,
        live[if b < j then b else b + 1].a, live[if b < j then b else b + 1].n);
    }
    forall k | 0 <= k < |live'|
      ensures Disjoint(live'[k].a, live'[k].n, live[j].a, live[j].n)
    {
      var o := if k < j then k else k + 1;
      assert live'[k] == live[o];
    }
  }

  /** A block that is in use is not in the free list. */
  lemma LooseNotListed(size: map<nat, nat>, fl: seq<nat>, live: seq<Blk>, brk: nat, bp: nat)
    requires Loose(size, fl, live, brk, bp) && Ordered(size, fl, brk)
    ensures bp !in fl && fl[0] < bp && bp in size
  {
  }

  lemma CircleAt(ptr: map<nat, nat>, fl: seq<nat>, i: nat)
    requires Circle(ptr, fl) && i < |fl|
    ensures fl[i] in ptr && ptr[fl[i]] == Succ(fl, i)
  {
  }

  lemma OrderedIsShape(size: map<nat, nat>, ptr: map<nat, nat>, fl: seq<nat>, live: seq<Blk>, brk: nat)
    requires Circle(ptr, fl) && Ordered(size, fl, brk) && LiveOk(size, fl, live, brk)
    ensures Shape(size, ptr, fl, live, brk, FreeUnits(size, fl))
  {
  }

  /** A new block at the break is loose. */
  lemma NewBlock(size: map<nat, nat>, fl: seq<nat>, live: seq<Blk>, brk: nat, n: nat)
    requires Ordered(size, fl, brk) && LiveOk(size, fl, live, brk) && 0 < n && fl[0] < brk
    ensures var size' := size[brk := n];
      Ordered(size', fl, brk + n) && LiveOk(size', fl, live, brk + n) && Loose(size', fl, live, brk + n, brk)
        && FreeUnits(size', fl) == FreeUnits(size, fl)
  {
    var size' := size[brk := n];
    forall i | 0 <= i < |fl|
      ensures fl[i] != brk && SizeAt(size', fl[i]) == SizeAt(size, fl[i])
    {
    }
    FreeUnitsSame(size, size', fl);
  }

  lemma Entry(size: map<nat, nat>, fl: seq<nat>, brk: nat, c: nat, k0: nat)
    requires Ordered(size, fl, brk) && c < |fl| && k0 < |fl|
    ensures fl[c] in size && (c == 0 ==> size[fl[c]] == 0) && (fl[c] == fl[k0] <==> c == k0)
  {
  }

  class Allocator {
    const base: nat
    var size: map<nat, nat>
    var ptr: map<nat, nat>
    var freep: nat
    var started: bool          // freep != NULL
    var brk: nat
    var limit: nat
    ghost var fl: seq<nat>
    ghost var live: seq<Blk>
    ghost var total: nat       // units obtained from sbrk

    ghost predicate Listed()
      reads this
    {
      Circle(ptr, fl) && Ordered(size, fl, brk) && LiveOk(size, fl, live, brk) && fl[0] == base && freep in fl
    }

    ghost predicate Valid()
      reads this
    {
      && base < brk
      && if started then Listed() && FreeUnits(size, fl) + LiveUnits(live) == total else live == [] && total == 0
    }

    constructor (base: nat, brk: nat, limit: nat)
      requires base < brk
      ensures Valid() && live == [] && total == 0
    {
      this.base, this.brk, this.limit := base, brk, limit;
      size, ptr, freep, started := map[], map[], 0, false;
      fl, live, total := [], [], 0;
    }

    /** The search of free: the entry after which bp belongs. */
    method FindPrevious(bp: nat) returns (p: nat, ghost i: nat)
      requires Listed() && base < bp && bp !in fl
      ensures Place(fl, i, bp) && p == fl[i]
    {
      OrderedAsc(size, fl, brk);
      i := FindPlace(fl, bp, |fl|);
      p := freep;
      ghost var k := IndexOf(fl, freep);
      hide Ordered;
      hide LiveOk;
      while true
        invariant 0 <= k < |fl| && p == fl[k]
        decreases if k <= i then i - k else i + |fl| - k
      {
        assert ptr[fl[k]] == Succ(fl, k);
        StopsAtPlace(fl, k, bp, i);
        if bp > p && bp < ptr[p] {
          break;
        }
        if p >= ptr[p] && (bp > p || bp < ptr[p]) {
          break;
        }
        p := ptr[p];
        k := NextIdx(fl, k);
      }
    }

    /** The rest of free: bp, which is neither free nor live, joins the list. */
    method Join(bp: nat)
      requires Listed() && Loose(size, fl, live, brk, bp)
      requires FreeUnits(size, fl) + size[bp] + LiveUnits(live) == total && started && base < brk
      modifies this
      ensures Valid() && started && live == old(live) && total == old(total) && brk == old(brk) && limit == old(limit)
      ensures HasRoom(size, fl, old(size)[bp])
    {
      hide Ordered;
      hide LiveOk;
      hide Circle;
      hide Loose;
      hide Shape;
      hide Up;
      hide Down;
      hide Touch;
      LooseNotListed(size, fl, live, brk, bp);
      ghost var i;
      var p;
      p, i := FindPrevious(bp);
      ghost var n, units := size[bp], FreeUnits(size, fl);
      CircleAt(ptr, fl, i);
      var q := ptr[p];
      OrderedIsShape(size, ptr, fl, live, brk);
      ghost var f := Fields(size, ptr);
      ghost var f1, fl1 := LinkUp(f, fl, live, brk, units, i, bp, p, q);
      ghost var f2, fl2 := LinkDown(f1, fl1, live, brk, units + n, i, bp, p, n);
      Relink(p, q, bp, f1);
      freep := p;
      fl := fl2;
    }

    method Relink(p: nat, q: nat, bp: nat, ghost f1: Fields)
      requires bp in size && q in size && q in ptr && p in size && p != bp
      requires f1.size == Up(Fields(size, ptr), q, bp).size && f1.ptr == Up(Fields(size, ptr), q, bp).ptr[p := bp]
      modifies this`size, this`ptr
      ensures size == Down(f1, p, bp).size && ptr == Down(f1, p, bp).ptr
    {
      if bp + size[bp] == q {
        size, ptr := size[bp := size[bp] + size[q]], ptr[bp := ptr[q]];
      } else {
        ptr := ptr[bp := q];
      }
      if p + size[p] == bp {
        size, ptr := size[p := size[p] + size[bp]], ptr[p := ptr[bp]];
      } else {
        ptr := ptr[p := bp];
      }
    }

    /** free(ap) for a block that malloc handed out. */
    method Free(ap: nat, ghost j: nat)
      requires Valid() && started && j < |live| && live[j].a + 1 == ap
      modifies this
      ensures Valid() && started && total == old(total) && live == old(live)[..j] + old(live)[j + 1..]
    {
      hide Ordered;
      hide LiveOk;
      hide Circle;
      hide Loose;
      LooseFromLive(size, fl, live, brk, j);
      LiveUnitsRemove(live, j);
      live := live[..j] + live[j + 1..];
      Join(ap - 1);
    }

    /** sbrk(n): the break moves up, if there is memory. */
    method Sbrk(n: nat) returns (ok: bool, a: nat)
      modifies this`brk
      ensures ok <==> old(brk) + n <= limit
      ensures a == old(brk) && brk == if ok then old(brk) + n else old(brk)
    {
      a := brk;
      ok := brk + n <= limit;
      if ok {
        brk := brk + n;
      }
    }

    /** morecore: a new free block of at least nu units, if sbrk has the memory.  When the byte count does
        not fit sbrk's int, sbrk is asked for something else and morecore goes on as if it had got what
        it wanted: that is `wild`, and the model stops there. */
    method Morecore(nu: nat) returns (ok: bool, wild: bool)
      requires Valid() && started
      modifies this
      ensures Valid() && started && live == old(live)
      ensures wild <==>
        SbrkArg(Least(nu)) != Least(nu) * 16
        && (SbrkArg(Least(nu)) <= 0 || old(brk) + SbrkArg(Least(nu)) / 16 <= old(limit))
      ensures ok <==> SbrkArg(Least(nu)) == Least(nu) * 16 && old(brk) + Least(nu) <= old(limit)
      ensures total == if ok then old(total) + Least(nu) else old(total)
      ensures ok ==> HasRoom(size, fl, nu)
      ensures !ok ==> fl == old(fl) && size == old(size) && freep == old(freep)
    {
      hide SbrkArg;
      wild, ok := false, false;
      var arg := SbrkArg(Least(nu));
      if arg == Least(nu) * 16 {
        ok := Extend(nu);
      } else {
        wild := arg <= 0 || brk + arg / 16 <= limit;
      }
    }

    /** .. when it gets what it asks for. */
    method Extend(nu: nat) returns (ok: bool)
      requires Valid() && started
      modifies this
      ensures Valid() && started && live == old(live)
      ensures ok <==> old(brk) + Least(nu) <= old(limit)
      ensures total == if ok then old(total) + Least(nu) else old(total)
      ensures ok ==> HasRoom(size, fl, nu)
      ensures !ok ==> fl == old(fl) && size == old(size) && freep == old(freep)
    {
      hide Ordered;
      hide LiveOk;
      hide Circle;
      hide Loose;
      ghost var brk0 := brk;
      var n := Least(nu);
      var a;
      ok, a := Sbrk(n);
      if ok {
        NewBlock(size, fl, live, brk0, n);
        size := size[a := n];
        total := total + n;
        Join(a);
      }
    }

    /** A block of at least n units goes to the caller: all of it, or its last n units. */
    method Take(prevp: nat, p: nat, n: nat, ghost c: nat) returns (ap: nat)
      requires Valid() && started && 0 < n && 0 < c < |fl|
      requires prevp == fl[c - 1] && p == fl[c] && p in size && size[p] >= n
      modifies this
      ensures Valid() && started && total == old(total) && ap > 0 && live == old(live) + [Blk(ap - 1, n)]
    {
      hide Circle;
      hide Ordered;
      hide LiveOk;
      hide FreeUnits;
      hide LiveUnits;
      var b := p;
      if size[p] == n {
        TakeAll(prevp, p, c);
      } else {
        b := TakeTail(p, n, c);
        freep := prevp;
      }
      ap := b + 1;
    }

    /** The whole block leaves the list. */
    method TakeAll(prevp: nat, p: nat, ghost c: nat)
      requires Valid() && started && 0 < c < |fl| && prevp == fl[c - 1] && p == fl[c] && p in size
      modifies this
      ensures Valid() && started && total == old(total) && live == old(live) + [Blk(p, old(size)[p])]
    {
      hide Ordered;
      hide LiveOk;
      hide Circle;
      hide FreeUnits;
      hide LiveUnits;
      TakeWhole(size, ptr, fl, live, brk, c);
      LiveUnitsAppend(live, Blk(p, size[p]));
      ptr := ptr[prevp := ptr[p]];
      fl := Without(fl, c);
      live := live + [Blk(p, size[p])];
      freep := prevp;
      assert prevp == fl[c - 1];
    }

    /** The tail of a larger block becomes a block of its own. */
    method TakeTail(p: nat, n: nat, ghost c: nat) returns (b: nat)
      requires Valid() && started && 0 < n && 0 < c < |fl| && p == fl[c] && p in size && size[p] > n
      modifies this
      ensures Valid() && started && total == old(total) && live == old(live) + [Blk(b, n)] && fl == old(fl)
    {
      hide Ordered;
      hide LiveOk;
      hide Circle;
      hide FreeUnits;
      hide LiveUnits;
      TakeTailOrder(size, fl, live, brk, c, n);
      TakeTailUnits(size, fl, live, brk, c, n);
      size := size[p := size[p] - n];
      b := p + size[p];
      size := size[b := n];
      LiveUnitsAppend(live, Blk(b, n));
      live := live + [Blk(b, n)];
    }

    /** malloc of any uint: a new live block with room for nbytes after its header, or NULL when sbrk
        refuses.  morecore is called at most once.  From 2147483617 bytes on no call of morecore helps:
        sbrk refuses, or morecore goes wild. */
    method Malloc(nbytes: nat) returns (ap: nat, wild: bool, ghost calls: nat)
      requires Valid() && nbytes < 0x1_0000_0000
      modifies this
      ensures Valid() && calls <= 1
      ensures if ap == 0 then live == old(live) && total == old(total) && calls == 1
        else live == old(live) + [Blk(ap - 1, Units(nbytes))]
      ensures ap != 0 ==> total == old(total) + if calls == 0 then 0 else Least(Units(nbytes))
      ensures old(started) ==> (calls == 0 <==> HasRoom(old(size), old(fl), Units(nbytes)))
      ensures ap == 0 && nbytes < 2147483617 ==> old(brk) + Least(Units(nbytes)) > old(limit)
      ensures wild ==> ap == 0 && nbytes >= 2147483617
      ensures calls == 1 && nbytes >= 2147483617 ==> ap == 0
    {
      hide Ordered;
      hide LiveOk;
      hide Circle;
      hide FreeUnits;
      hide LiveUnits;
      SbrkHonest(nbytes);
      var n := Units(nbytes);
      calls, wild := 0, false;
      Start();
      var prevp := freep;
      ghost var k0 := IndexOf(fl, freep);
      ghost var k := k0;
      CircleAt(ptr, fl, k);
      var p := ptr[prevp];
      while true
        invariant Valid() && started && live == old(live) && calls <= 1
        invariant calls == 0 ==> total == old(total) && brk == old(brk) && limit == old(limit)
        invariant calls == 0 && old(started) ==> size == old(size) && fl == old(fl)
        invariant calls == 1 && old(started) ==> !HasRoom(old(size), old(fl), n)
        invariant 0 <= k0 < |fl| && fl[k0] == freep && 0 <= k < |fl| && prevp == fl[k] && p == fl[NextIdx(fl, k)]
        invariant forall t {:trigger fl[t]} :: 0 <= t < |fl| && Between(k0, NextIdx(fl, k), t) ==>
          SizeAt(size, fl[t]) < n
        invariant calls == 1 ==> HasRoom(size, fl, n) && nbytes < 2147483617 && total == old(total) + Least(n)
        invariant !wild
        decreases 1 - calls, if NextIdx(fl, k) <= k0 then k0 - NextIdx(fl, k) else k0 + |fl| - NextIdx(fl, k)
      {
        ghost var c := NextIdx(fl, k);
        Entry(size, fl, brk, c, k0);
        if size[p] >= n {
          assert HasRoom(size, fl, n);
          ap := Take(prevp, p, n, c);
          return;
        }
        if p == freep {
          AllScanned(size, fl, k0, n);
          calls := calls + 1;
          var ok;
          ok, wild := Morecore(n);
          if !ok {
            return 0, wild, calls;
          }
          p := freep;
          k0 := IndexOf(fl, freep);
          c := k0;
        }
        prevp := p;
        k := c;
        CircleAt(ptr, fl, k);
        p := ptr[p];
      }
    }

    /** The first call makes base a list of its own. */
    method Start()
      requires Valid()
      modifies this
      ensures Valid() && started && live == old(live) && total == old(total) && brk == old(brk) && limit == old(limit)
      ensures old(started) ==> size == old(size) && fl == old(fl)
    {
      if !started {
        size, ptr := size[base := 0], ptr[base := base];
        freep, started, fl := base, true, [base];
        FreeUnitsOne(size, base);
        assert Succ(fl, 0) == base;
      }
    }
  }
}
