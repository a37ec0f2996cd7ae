/** What a user space shows: for each page its frame, permissions and bytes.  The operations of
    kernel/vm.c are specified by how they change this view, by the frames they may use, and by what
    they leave alone in memory that is neither free nor the space's own. */
module VmView {
  import opened VmState
  import opened VmPhys

  datatype View = Hole | Shown(frame: Frame, attr: Attr, b: seq<Byte>)

  function See(m: Mem, t: Tree, v: nat): View
    requires v < PAGES
  {
    match Leaf(m, t, v)
    case Link(f, a) => if IsData(m, f) then Shown(f, a, m[f].b) else Hole
    case _ => Hole
  }

  ghost predicate SameViews(ph: Phys, s: Space, ph': Phys, s': Space) {
    forall v {:trigger See(ph'.mem, s'.t, v)} :: 0 <= v < PAGES ==> See(ph'.mem, s'.t, v) == See(ph.mem, s.t, v)
  }

  ghost predicate SameRoot(s: Space, s': Space) {
    ROOT in s.t.at && ROOT in s'.t.at && s'.t.at[ROOT] == s.t.at[ROOT]
  }

  /** No frame is lost or gained, and memory outside the space and the free list is untouched. */
  ghost predicate Kept(ph: Phys, s: Space, ph': Phys, s': Space) {
    && SameRoot(s, s') && SameFrames(ph, s, ph', s')
    && (forall g: Frame {:trigger g in ph'.mem} {:trigger ph'.mem[g]} ::
          g in ph.mem && !Has(ph, s, g) ==> g in ph'.mem && ph'.mem[g] == ph.mem[g])
  }

  /** Memory that was not free is untouched. */
  ghost predicate RestSame(ph: Phys, ph': Phys) {
    forall g: Frame {:trigger g in ph'.mem} {:trigger ph'.mem[g]} ::
      g in ph.mem && g !in ph.free ==> g in ph'.mem && ph'.mem[g] == ph.mem[g]
  }

  lemma KeptTrans(ph: Phys, s: Space, ph1: Phys, s1: Space, ph2: Phys, s2: Space)
    requires Kept(ph, s, ph1, s1) && Kept(ph1, s1, ph2, s2)
    ensures Kept(ph, s, ph2, s2) && SameRoot(s, s2)
  {
    assert forall g: Frame {:trigger g in ph2.mem} {:trigger ph2.mem[g]} ::
      g in ph.mem && !Has(ph, s, g) ==> g in ph1.mem && ph1.mem[g] == ph.mem[g] && !Has(ph1, s1, g);
    assert forall g: Frame {:trigger Has(ph2, s2, g)} :: Has(ph1, s1, g) <==> Has(ph, s, g);
  }

  lemma GoodParts(ph: Phys, s: Space)
    requires Good(ph, s)
    ensures FreeOk(ph) && ROOT in s.t.at
  {
  }

  lemma KeptRoot(ph: Phys, s: Space, ph': Phys, s': Space)
    requires Kept(ph, s, ph', s')
    ensures SameRoot(s, s')
  {
  }

  /** Every mapped page is shown. */
  lemma MappedIsShown(ph: Phys, s: Space, v: nat)
    requires Good(ph, s) && v < PAGES
    ensures See(ph.mem, s.t, v).Shown? <==> Leaf(ph.mem, s.t, v) != Empty
    ensures See(ph.mem, s.t, v).Shown? ==> See(ph.mem, s.t, v).frame in s.back
  {
    assert Leaf(ph.mem, s.t, v).Link? ==> Leaf(ph.mem, s.t, v).frame in s.back;
  }

  /** Two pages never share a frame. */
  lemma FramesDistinct(ph: Phys, s: Space, v: nat, w: nat)
    requires Good(ph, s) && v < PAGES && w < PAGES && See(ph.mem, s.t, v).Shown? && See(ph.mem, s.t, w).Shown?
    ensures See(ph.mem, s.t, v).frame == See(ph.mem, s.t, w).frame ==> v == w
  {
    assert Leaf(ph.mem, s.t, v).Link? && Leaf(ph.mem, s.t, w).Link?;
  }

  /** Mapping no page at all may still have added tables. */
  lemma NoneKept(ph: Phys, s: Space, ph': Phys, s': Space, v: nat, f: Frame, a: Attr)
    requires Good(ph, s) && Good(ph', s') && v <= PAGES && MappedRun(ph, s, ph', s', v, f, 0, a)
    ensures Kept(ph, s, ph', s') && SameViews(ph, s, ph', s')
  {
    forall g: Frame | g in ph.mem && !Has(ph, s, g)
      ensures g in ph'.mem && ph'.mem[g] == ph.mem[g]
    {
      assert !Has(ph', s', g);
    }
    forall w | 0 <= w < PAGES
      ensures See(ph'.mem, s'.t, w) == See(ph.mem, s.t, w)
    {
      assert Leaf(ph'.mem, s'.t, w) == Leaf(ph.mem, s.t, w);
      if Leaf(ph.mem, s.t, w).Link? {
        var g := Leaf(ph.mem, s.t, w).frame;
        assert g in s.back && g in s'.back && ph'.mem[g] == ph.mem[g];
      }
    }
  }

  // ---- an empty space ----

  ghost function Fresh(f: Frame): Space {
    Space(Tree(map[ROOT := f], map[f := ROOT]), map[])
  }

  /** A zeroed frame is a space that shows nothing, and every frame it has was free. */
  lemma FreshGood(ph: Phys, f: Frame, ph': Phys)
    requires FreeOk(ph) && ph.free != [] && f == ph.free[0]
    requires ph' == Phys(ph.mem[f := EmptyTable()], ph.free[1..])
    ensures Good(ph', Fresh(f))
    ensures forall v {:trigger See(ph'.mem, Fresh(f).t, v)} :: 0 <= v < PAGES ==> See(ph'.mem, Fresh(f).t, v) == Hole
    ensures forall g: Frame {:trigger Has(ph', Fresh(f), g)} :: Has(ph', Fresh(f), g) <==> g in ph.free
  {
    FreeTail(ph);
  }

  // ---- unmapping ----

  /** Pages v .. v+n show nothing any more; the other pages are as before. */
  ghost predicate Cleared(ph: Phys, s: Space, ph': Phys, s': Space, v: nat, n: nat) {
    && Kept(ph, s, ph', s') && s'.t == s.t
    && (forall w {:trigger See(ph'.mem, s'.t, w)} :: 0 <= w < PAGES ==>
          See(ph'.mem, s'.t, w) == if v <= w < v + n then Hole else See(ph.mem, s.t, w))
  }

  lemma ClearedNone(ph: Phys, s: Space, v: nat)
    requires Good(ph, s)
    ensures Cleared(ph, s, ph, s, v, 0)
  {
  }

  lemma ClearedMore(ph: Phys, s: Space, ph1: Phys, s1: Space, ph2: Phys, s2: Space, v: nat, n: nat, w: nat, n': nat)
    requires w == v + n && n' == n + 1
    requires Cleared(ph, s, ph1, s1, v, n) && Cleared(ph1, s1, ph2, s2, w, 1)
    ensures Cleared(ph, s, ph2, s2, v, n')
  {
    KeptTrans(ph, s, ph1, s1, ph2, s2);
    hide Kept;
    hide See;
    forall x | 0 <= x < PAGES
      ensures See(ph2.mem, s2.t, x) == if v <= x < v + n' then Hole else See(ph.mem, s.t, x)
    {
      assert See(ph1.mem, s1.t, x) == if v <= x < v + n then Hole else See(ph.mem, s.t, x);
    }
  }

  /** The entry of page v cleared and its frame pushed on the free list. */
  ghost function ClearPhys(ph: Phys, s: Space, v: nat): Phys
    requires HasSlot(ph.mem, s.t, v) && Leaf(ph.mem, s.t, v).Link?
  {
    Phys(WithEntry(ph.mem, s.t, v, Empty), [Leaf(ph.mem, s.t, v).frame] + ph.free)
  }

  lemma ClearGood(ph: Phys, s: Space, v: nat, f: Frame, ph': Phys, s': Space)
    requires Good(ph, s) && HasSlot(ph.mem, s.t, v) && Leaf(ph.mem, s.t, v).Link? && f == Leaf(ph.mem, s.t, v).frame
    requires ph' == ClearPhys(ph, s, v) && s' == Unmapped(s, f)
    ensures Good(ph', s') && SameFrames(ph, s, ph', s')
  {
    assert f in s.back;
    PushFree(ph, ph'.mem, f);
    UnmapWf(ph.mem, s, v);
    hide Wf;
    assert forall g: Frame {:trigger g in ph'.free} :: g in ph'.free <==> g == f || g in ph.free;
  }

  lemma ClearOne(ph: Phys, s: Space, v: nat, f: Frame, ph': Phys, s': Space)
    requires Good(ph, s) && HasSlot(ph.mem, s.t, v) && Leaf(ph.mem, s.t, v).Link? && f == Leaf(ph.mem, s.t, v).frame
    requires ph' == ClearPhys(ph, s, v) && s' == Unmapped(s, f)
    ensures Good(ph', s') && Cleared(ph, s, ph', s', v, 1)
  {
    ClearGood(ph, s, v, f, ph', s');
    forall w | 0 <= w < PAGES
      ensures See(ph'.mem, s'.t, w) == if v <= w < v + 1 then Hole else See(ph.mem, s.t, w)
    {
      WithEntryLeaf(ph.mem, s.t, v, Empty, w);
      if Leaf(ph.mem, s.t, w).Link? {
        assert Leaf(ph.mem, s.t, w).frame in s.back;
      }
    }
  }

  /** With do_free 0: pages v .. v+n show nothing any more, and their frames, still holding what they
      held, belong to the space no longer. */
  ghost predicate Detached(ph: Phys, s: Space, ph': Phys, s': Space, v: nat, n: nat) {
    && SameRoot(s, s') && s'.t == s.t && ph'.free == ph.free
    && (forall g: Frame {:trigger g in s'.back} :: g in s'.back <==> g in s.back && !(v <= s.back[g] < v + n))
    && (forall g: Frame {:trigger s'.back[g]} :: g in s'.back ==> g in s.back && s'.back[g] == s.back[g])
    && (forall g: Frame {:trigger g in ph'.mem} {:trigger ph'.mem[g]} ::
          g in ph.mem && g !in s.t.node ==> g in ph'.mem && ph'.mem[g] == ph.mem[g])
    && (forall w {:trigger See(ph'.mem, s'.t, w)} :: 0 <= w < PAGES ==>
          See(ph'.mem, s'.t, w) == if v <= w < v + n then Hole else See(ph.mem, s.t, w))
  }

  lemma DetachedMore(ph: Phys, s: Space, ph1: Phys, s1: Space, ph2: Phys, s2: Space, v: nat, n: nat, w: nat, n': nat)
    requires w == v + n && n' == n + 1
    requires Detached(ph, s, ph1, s1, v, n) && Detached(ph1, s1, ph2, s2, w, 1)
    ensures Detached(ph, s, ph2, s2, v, n')
  {
    hide See;
    forall g: Frame
      ensures g in s2.back <==> g in s.back && !(v <= s.back[g] < v + n')
      ensures g in s2.back ==> s2.back[g] == s.back[g]
      ensures g in ph.mem && g !in s.t.node ==> g in ph2.mem && ph2.mem[g] == ph.mem[g]
    {
      assert g in s1.back <==> g in s.back && !(v <= s.back[g] < v + n);
      assert g in s2.back <==> g in s1.back && !(w <= s1.back[g] < w + 1);
      assert g in s1.back ==> s1.back[g] == s.back[g];
    }
    forall x | 0 <= x < PAGES
      ensures See(ph2.mem, s2.t, x) == if v <= x < v + n' then Hole else See(ph.mem, s.t, x)
    {
      assert See(ph1.mem, s1.t, x) == if v <= x < v + n then Hole else See(ph.mem, s.t, x);
    }
  }

  /** Only the entry of page v cleared. */
  lemma DetachOne(ph: Phys, s: Space, v: nat, f: Frame, ph': Phys, s': Space)
    requires Good(ph, s) && HasSlot(ph.mem, s.t, v) && Leaf(ph.mem, s.t, v).Link? && f == Leaf(ph.mem, s.t, v).frame
    requires ph' == SetPhys(ph, s, v, Empty) && s' == Unmapped(s, f)
    ensures Good(ph', s') && Detached(ph, s, ph', s', v, 1)
  {
    assert f in s.back && s.back[f] == v;
    UnmapWf(ph.mem, s, v);
    forall w | 0 <= w < PAGES
      ensures See(ph'.mem, s'.t, w) == if v <= w < v + 1 then Hole else See(ph.mem, s.t, w)
    {
      WithEntryLeaf(ph.mem, s.t, v, Empty, w);
      if Leaf(ph.mem, s.t, w).Link? {
        assert Leaf(ph.mem, s.t, w).frame in s.back;
      }
    }
    forall g: Frame | g in s.back && s.back[g] == v
      ensures g == f
    {
      assert Leaf(ph.mem, s.t, s.back[g]).frame == g;
    }
  }

  /** What uvmunmap does to pages v .. v+n. */
  ghost predicate Removed(ph: Phys, s: Space, ph': Phys, s': Space, v: nat, n: nat, doFree: bool) {
    if doFree then Cleared(ph, s, ph', s', v, n) else Detached(ph, s, ph', s', v, n)
  }

  lemma RemovedNone(ph: Phys, s: Space, v: nat, doFree: bool)
    requires Good(ph, s)
    ensures Removed(ph, s, ph, s, v, 0, doFree)
  {
  }

  lemma RemovedMore(ph: Phys, s: Space, ph1: Phys, s1: Space, ph2: Phys, s2: Space, v: nat, n: nat, w: nat, n': nat,
                    doFree: bool)
    requires w == v + n && n' == n + 1
    requires Removed(ph, s, ph1, s1, v, n, doFree) && Removed(ph1, s1, ph2, s2, w, 1, doFree)
    ensures Removed(ph, s, ph2, s2, v, n', doFree)
  {
    hide Cleared;
    hide Detached;
    if doFree {
      ClearedMore(ph, s, ph1, s1, ph2, s2, v, n, w, n');
    } else {
      DetachedMore(ph, s, ph1, s1, ph2, s2, v, n, w, n');
    }
  }

  /** Outside v .. v+n nothing is to be seen of it. */
  lemma RemovedElsewhere(ph: Phys, s: Space, ph': Phys, s': Space, v: nat, n: nat, doFree: bool, w: nat)
    requires Removed(ph, s, ph', s', v, n, doFree) && w < PAGES && v + n <= w
    ensures See(ph'.mem, s'.t, w) == See(ph.mem, s.t, w) && SameRoot(s, s')
  {
    hide See;
    assert See(ph'.mem, s'.t, w) == See(ph'.mem, s'.t, w);
  }

  // ---- filling pages with fresh frames ----

  /** What a new page is to hold. */
  datatype Content = Content(attr: Attr, b: seq<Byte>)

  /** Pages v, v+1, .. have been given frames that were free and hold `want`; the other pages are as
      before. */
  ghost predicate Filled(ph: Phys, s: Space, ph': Phys, s': Space, v: nat, want: seq<Content>) {
    && Kept(ph, s, ph', s') && SameRoot(s, s') && FreeShrinks(ph, ph')
    && (forall w {:trigger See(ph'.mem, s'.t, w)} :: 0 <= w < PAGES ==>
          if v <= w < v + |want|
          then Holds(See(ph'.mem, s'.t, w), want[w - v]) && See(ph'.mem, s'.t, w).frame in ph.free
          else See(ph'.mem, s'.t, w) == See(ph.mem, s.t, w))
  }

  ghost predicate FreeShrinks(ph: Phys, ph': Phys) {
    forall g: Frame {:trigger g in ph'.free} :: g in ph'.free ==> g in ph.free
  }

  ghost predicate Holds(p: View, c: Content) {
    p.Shown? && p.attr == c.attr && p.b == c.b
  }

  lemma FilledNone(ph: Phys, s: Space, v: nat)
    requires Good(ph, s)
    ensures Filled(ph, s, ph, s, v, [])
  {
  }

  /** Filling is undone by clearing the same pages, if they were holes. */
  lemma FillThenClear(ph: Phys, s: Space, ph1: Phys, s1: Space, ph2: Phys, s2: Space, v: nat, want: seq<Content>)
    requires Filled(ph, s, ph1, s1, v, want) && Cleared(ph1, s1, ph2, s2, v, |want|)
    requires forall w {:trigger See(ph.mem, s.t, w)} :: v <= w < v + |want| && w < PAGES ==> See(ph.mem, s.t, w) == Hole
    ensures Kept(ph, s, ph2, s2) && SameViews(ph, s, ph2, s2)
  {
    KeptTrans(ph, s, ph1, s1, ph2, s2);
    hide Kept;
    hide See;
    forall x | 0 <= x < PAGES
      ensures See(ph2.mem, s2.t, x) == See(ph.mem, s.t, x)
    {
      var p := See(ph1.mem, s1.t, x);
      assert v <= x < v + |want| || p == See(ph.mem, s.t, x);
    }
  }

  lemma FilledMore(ph: Phys, s: Space, ph1: Phys, s1: Space, ph2: Phys, s2: Space, v: nat, want: seq<Content>,
                   w: nat, more: seq<Content>, want': seq<Content>)
    requires w == v + |want| && want' == want + more
    requires Filled(ph, s, ph1, s1, v, want) && Filled(ph1, s1, ph2, s2, w, more)
    ensures Filled(ph, s, ph2, s2, v, want')
  {
    KeptTrans(ph, s, ph1, s1, ph2, s2);
    hide Kept;
    hide See;
    forall x | 0 <= x < PAGES
      ensures if v <= x < v + |want'|
        then Holds(See(ph2.mem, s2.t, x), want'[x - v]) && See(ph2.mem, s2.t, x).frame in ph.free
        else See(ph2.mem, s2.t, x) == See(ph.mem, s.t, x)
    {
      var p := See(ph1.mem, s1.t, x);
      assert v <= x < v + |want| ==> Holds(p, want[x - v]);
      assert !(v <= x < v + |want|) ==> p == See(ph.mem, s.t, x);
    }
  }

  // ---- one page: kalloc, fill, map ----

  ghost predicate TakenFor(ph: Phys, s: Space, b: seq<Byte>, f: Frame, ph1: Phys) {
    && Good(ph, s) && ph.free != [] && f == ph.free[0] && |b| == PGSIZE
    && ph1 == Phys(ph.mem[f := Data(b)], ph.free[1..])
  }

  lemma TakenGood(ph: Phys, s: Space, b: seq<Byte>, f: Frame, ph1: Phys)
    requires TakenFor(ph, s, b, f, ph1)
    ensures Good(ph1, s) && Loose(ph1, s, f, 1) && SameViews(ph, s, ph1, s)
    ensures f in ph.free && f !in ph1.free && FreeShrinks(ph, ph1)
    ensures forall g: Frame {:trigger Has(ph1, s, g)} {:trigger Has(ph, s, g)} :: Has(ph, s, g) <==>
      Has(ph1, s, g) || g == f
  {
    FreeTail(ph);
    assert f in ph.free && f !in ph.free[1..] && !Has(ph1, s, f) && IsData(ph1.mem, f);
    Untouched(ph.mem, ph1.mem, s);
    forall v | 0 <= v < PAGES
      ensures See(ph1.mem, s.t, v) == See(ph.mem, s.t, v)
    {
      assert Leaf(ph1.mem, s.t, v) == Leaf(ph.mem, s.t, v);
    }
  }

  lemma FillViews(ph: Phys, s: Space, b: seq<Byte>, f: Frame, ph1: Phys, ph2: Phys, s2: Space, v: nat, a: Attr, w: nat)
    requires v < PAGES && w < PAGES && TakenFor(ph, s, b, f, ph1)
    requires Good(ph2, s2) && MappedRun(ph1, s, ph2, s2, v, f, 1, a)
    ensures See(ph2.mem, s2.t, w) == if w == v then Shown(f, a, b) else See(ph.mem, s.t, w)
  {
    TakenGood(ph, s, b, f, ph1);
    assert See(ph1.mem, s.t, w) == See(ph.mem, s.t, w);
    assert Leaf(ph2.mem, s2.t, w) == if v <= w < v + 1 then Link(f + (w - v), a) else Leaf(ph1.mem, s.t, w);
    if Leaf(ph2.mem, s2.t, w).Link? {
      var g := Leaf(ph2.mem, s2.t, w).frame;
      assert g in s2.back;
      assert ph2.mem[g] == ph1.mem[g];
    }
  }

  lemma FillKept(ph: Phys, s: Space, b: seq<Byte>, f: Frame, ph1: Phys, ph2: Phys, s2: Space, v: nat, a: Attr)
    requires v < PAGES && TakenFor(ph, s, b, f, ph1)
    requires Good(ph2, s2) && MappedRun(ph1, s, ph2, s2, v, f, 1, a)
    ensures Kept(ph, s, ph2, s2) && SameRoot(s, s2) && FreeShrinks(ph, ph2)
  {
    hide Wf;
    hide Leaf;
    TakenGood(ph, s, b, f, ph1);
    forall g: Frame
      ensures Has(ph2, s2, g) <==> Has(ph, s, g)
      ensures g in ph.mem && !Has(ph, s, g) ==> g in ph2.mem && ph2.mem[g] == ph.mem[g]
      ensures g in ph2.free ==> g in ph.free
    {
      assert Has(ph2, s2, g) <==> Has(ph1, s, g) || f <= g < f + 1;
      assert g in s2.back <==> g in s.back || f <= g < f + 1;
    }
  }

  lemma FillOne(ph: Phys, s: Space, b: seq<Byte>, f: Frame, ph1: Phys, ph2: Phys, s2: Space, v: nat, a: Attr)
    requires v < PAGES && TakenFor(ph, s, b, f, ph1)
    requires Good(ph2, s2) && MappedRun(ph1, s, ph2, s2, v, f, 1, a)
    ensures Filled(ph, s, ph2, s2, v, [Content(a, b)])
  {
    hide See;
    hide Kept;
    hide MappedRun;
    hide TakenFor;
    hide Good;
    FillKept(ph, s, b, f, ph1, ph2, s2, v, a);
    TakenGood(ph, s, b, f, ph1);
    forall w | 0 <= w < PAGES {
      FillViews(ph, s, b, f, ph1, ph2, s2, v, a, w);
    }
  }

  /** Mapping failed: the frame goes back, and only tables may have been added. */
  lemma PutBack(ph: Phys, s: Space, b: seq<Byte>, f: Frame, ph1: Phys, ph2: Phys, s2: Space, ph3: Phys,
                v: nat, a: Attr)
    requires v < PAGES && TakenFor(ph, s, b, f, ph1) && Good(ph2, s2) && MappedRun(ph1, s, ph2, s2, v, f, 0, a)
    requires ph3 == Phys(ph2.mem, [f] + ph2.free)
    ensures f in ph2.mem && f !in ph2.free && Good(ph3, s2) && Filled(ph, s, ph3, s2, v, [])
  {
    hide Wf;
    hide Leaf;
    hide See;
    TakenGood(ph, s, b, f, ph1);
    NoneKept(ph1, s, ph2, s2, v, f, a);
    assert !Has(ph1, s, f) && !Has(ph2, s2, f);
    PushFree(ph2, ph3.mem, f);
    forall g: Frame
      ensures Has(ph3, s2, g) <==> Has(ph, s, g)
      ensures g in ph.mem && !Has(ph, s, g) ==> g in ph3.mem && ph3.mem[g] == ph.mem[g]
      ensures g in ph3.free ==> g in ph.free
    {
      assert Has(ph2, s2, g) <==> Has(ph1, s, g);
      assert g in ph3.free <==> g == f || g in ph2.free;
    }
    forall w | 0 <= w < PAGES
      ensures See(ph3.mem, s2.t, w) == See(ph.mem, s.t, w)
    {
      assert See(ph2.mem, s2.t, w) == See(ph1.mem, s.t, w) == See(ph.mem, s.t, w);
    }
  }

  // ---- page counts and contents ----

  /** Physical frames: PHY_STOP - PHY_BASE is 128MB. */
  const FRAMES: nat := 32768

  /** PG_ROUND_UP(size) / PG_SIZE */
  function PgUp(size: nat): nat {
    (size + 4095) / 4096
  }

  /** How many pages uvmunmap visits when uvmdealloc, whose page count is a 32-bit int, asks it to
      remove n pages from page `start` on: a negative count becomes a 64-bit one again, and the end
      address wraps. */
  function Visited(start: nat, n: nat): nat {
    var low := n % 0x1_0000_0000;
    if low < 0x8000_0000 then low
    else if start + low >= 0x1_0000_0000 then 0
    else 0x10_0000_0000_0000 - (0x1_0000_0000 - low)
  }

  /** uvmdealloc removes the pages it was asked to exactly when their number fits an int. */
  lemma VisitedAll(start: nat, n: nat)
    requires n <= PAGES
    ensures Visited(start, n) == n <==> n < 0x8000_0000
  {
  }

  function ZeroPage(): (b: seq<Byte>)
    ensures |b| == PGSIZE
  {
    seq(4096, _ => 0)
  }

  ghost function Zeroed(a: Attr, n: nat): seq<Content> {
    seq(n, _ => Content(a, ZeroPage()))
  }

  lemma ZeroedMore(a: Attr, n: nat)
    ensures Zeroed(a, n) + [Content(a, ZeroPage())] == Zeroed(a, n + 1)
  {
  }

  /** Pages `from` to `to`, which were not mapped, are zeroed pages on fresh frames; one frame each at least is gone. */
  ghost predicate Grown(ph: Phys, s: Space, ph': Phys, s': Space, from: nat, to: nat, a: Attr)
    requires from <= to
  {
    && Filled(ph, s, ph', s', from, Zeroed(a, to - from)) && |ph'.free| + (to - from) <= |ph.free|
    && forall w {:trigger See(ph.mem, s.t, w)} :: from <= w < to && w < PAGES ==> See(ph.mem, s.t, w) == Hole
  }

  /** The pages below a process's size are mapped and no others. */
  ghost predicate Sized(ph: Phys, s: Space, n: nat) {
    forall w {:trigger See(ph.mem, s.t, w)} :: 0 <= w < PAGES ==> (See(ph.mem, s.t, w).Shown? <==> w < n)
  }

  lemma GrownSized(ph: Phys, s: Space, ph': Phys, s': Space, from: nat, to: nat, a: Attr)
    requires from <= to && Sized(ph, s, from) && Grown(ph, s, ph', s', from, to, a)
    ensures Sized(ph', s', to)
  {
    hide See;
    forall w | 0 <= w < PAGES
      ensures See(ph'.mem, s'.t, w).Shown? <==> w < to
    {
      assert See(ph.mem, s.t, w).Shown? <==> w < from;
      if from <= w < to {
        assert Holds(See(ph'.mem, s'.t, w), Zeroed(a, to - from)[w - from]);
      }
    }
  }

  lemma SameSized(ph: Phys, s: Space, ph': Phys, s': Space, n: nat)
    requires Sized(ph, s, n) && SameViews(ph, s, ph', s')
    ensures Sized(ph', s', n)
  {
    hide See;
    forall w | 0 <= w < PAGES
      ensures See(ph'.mem, s'.t, w).Shown? <==> w < n
    {
      assert See(ph.mem, s.t, w).Shown? <==> w < n;
    }
  }

  /** The pages filled so far are mapped. */
  lemma FilledShown(ph: Phys, s: Space, ph1: Phys, s1: Space, ph2: Phys, s2: Space, v: nat, k: nat, want: seq<Content>)
    requires |want| == k && v + k <= PAGES && Filled(ph, s, ph1, s1, v, want) && Filled(ph1, s1, ph2, s2, v + k, [])
    ensures forall w {:trigger See(ph2.mem, s2.t, w)} :: v <= w < v + k ==> See(ph2.mem, s2.t, w).Shown?
  {
    hide See;
    hide Kept;
    forall w | v <= w < v + k
      ensures See(ph2.mem, s2.t, w).Shown?
    {
      assert Holds(See(ph1.mem, s1.t, w), want[w - v]);
    }
  }

  /** uvmalloc gave up: every page and every frame is where it was. */
  lemma Reverted(ph: Phys, s: Space, ph1: Phys, s1: Space, ph2: Phys, s2: Space, ph3: Phys, s3: Space,
                 v: nat, want: seq<Content>, w: nat)
    requires w == v + |want| && Filled(ph, s, ph1, s1, v, want) && Filled(ph1, s1, ph2, s2, w, [])
    requires Cleared(ph2, s2, ph3, s3, v, |want|)
    requires forall x {:trigger See(ph.mem, s.t, x)} :: v <= x < v + |want| && x < PAGES ==> See(ph.mem, s.t, x) == Hole
    ensures Kept(ph, s, ph3, s3) && SameViews(ph, s, ph3, s3)
  {
    hide *;
    assert want + [] == want;
    FilledMore(ph, s, ph1, s1, ph2, s2, v, want, w, [], want);
    FillThenClear(ph, s, ph2, s2, ph3, s3, v, want);
  }

  // ---- other spaces ----

  /** Space o has no frame in common with the free list or with s. */
  ghost predicate Apart(ph: Phys, s: Space, o: Space) {
    forall g: Frame {:trigger Has(ph, s, g)} :: Has(ph, s, g) ==> g !in o.t.node && g !in o.back
  }

  lemma OwnFrame(m: Mem, o: Space, f: Frame)
    requires Wf(m, o) && (f in o.t.node || f in o.back)
    ensures f in m
  {
  }

  lemma OwnLeaf(m: Mem, o: Space, v: nat)
    requires Wf(m, o) && v < PAGES
    ensures Leaf(m, o.t, v).Link? ==> Leaf(m, o.t, v).frame in o.back
  {
    assert Leaf(m, o.t, v) == Leaf(m, o.t, v);
  }

  /** Isolation: whatever is done to one space leaves every other space as it was. */
  lemma Bystander(ph: Phys, s: Space, ph': Phys, s': Space, o: Space)
    requires Good(ph, s) && Good(ph', s') && Kept(ph, s, ph', s') && Good(ph, o) && Apart(ph, s, o)
    ensures Good(ph', o) && Apart(ph', s', o) && SameViews(ph, o, ph', o)
  {
    hide Wf;
    hide Leaf;
    forall f | f in o.t.node || f in o.back
      ensures f in ph'.mem && f in ph.mem && ph'.mem[f] == ph.mem[f]
    {
      OwnFrame(ph.mem, o, f);
      assert !Has(ph, s, f);
    }
    Untouched(ph.mem, ph'.mem, o);
    forall v | 0 <= v < PAGES
      ensures See(ph'.mem, o.t, v) == See(ph.mem, o.t, v)
    {
      assert Leaf(ph'.mem, o.t, v) == Leaf(ph.mem, o.t, v);
      OwnLeaf(ph.mem, o, v);
    }
    assert forall g: Frame {:trigger g in ph'.free} :: g in ph'.free ==> Has(ph', s', g);
  }

  lemma OtherStays(ph: Phys, ph1: Phys, s1: Space, ph2: Phys, s2: Space, o: Space)
    requires Good(ph1, s1) && Good(ph2, s2) && Kept(ph1, s1, ph2, s2)
    requires Good(ph1, o) && Apart(ph1, s1, o) && SameViews(ph, o, ph1, o)
    ensures Good(ph2, o) && Apart(ph2, s2, o) && SameViews(ph, o, ph2, o)
  {
    hide Good;
    hide Apart;
    hide Kept;
    hide See;
    Bystander(ph1, s1, ph2, s2, o);
    forall v | 0 <= v < PAGES
      ensures See(ph2.mem, o.t, v) == See(ph.mem, o.t, v)
    {
      assert See(ph1.mem, o.t, v) == See(ph.mem, o.t, v);
    }
  }

  /** The first n pages of `s'` hold what the first n pages of `o` held. */
  ghost predicate Duplicated(ph: Phys, o: Space, ph': Phys, s': Space, n: nat) {
    forall w {:trigger See(ph'.mem, s'.t, w)} {:trigger See(ph.mem, o.t, w)} :: 0 <= w < n && w < PAGES ==>
      && See(ph.mem, o.t, w).Shown?
      && Holds(See(ph'.mem, s'.t, w), Content(See(ph.mem, o.t, w).attr, See(ph.mem, o.t, w).b))
  }

  ghost predicate Wants(ph: Phys, o: Space, want: seq<Content>) {
    forall w {:trigger want[w]} {:trigger See(ph.mem, o.t, w)} :: 0 <= w < |want| && w < PAGES ==>
      Holds(See(ph.mem, o.t, w), want[w])
  }

  lemma FilledDuplicates(ph: Phys, s: Space, o: Space, ph': Phys, s': Space, want: seq<Content>)
    requires Filled(ph, s, ph', s', 0, want) && Wants(ph, o, want)
    ensures Duplicated(ph, o, ph', s', |want|)
  {
    hide See;
    forall w | 0 <= w < |want| && w < PAGES
      ensures See(ph.mem, o.t, w).Shown?
      ensures Holds(See(ph'.mem, s'.t, w), Content(See(ph.mem, o.t, w).attr, See(ph.mem, o.t, w).b))
    {
      assert Holds(See(ph'.mem, s'.t, w), want[w - 0]) && Holds(See(ph.mem, o.t, w), want[w]);
    }
  }
}
