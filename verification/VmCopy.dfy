/** User memory byte by byte: what copyin reads and copyout writes through the page table. */
module VmCopy {
  import opened VmState
  import opened VmPhys
  import opened VmView

  const MAXVA: nat := 0x1_0000_0000_0000

  /** walkaddr finds a page at address x: it is mapped and its entry has AP_USER. */
  predicate Accessible(ph: Phys, s: Space, x: nat) {
    x < MAXVA && See(ph.mem, s.t, x / 4096).Shown? && See(ph.mem, s.t, x / 4096).attr.user
  }

  /** The byte at address x, if a page is mapped there. */
  function At(ph: Phys, s: Space, x: nat): (r: int)
    requires x < MAXVA
  {
    var p := See(ph.mem, s.t, x / 4096);
    if p.Shown? && x % 4096 < |p.b| then p.b[x % 4096] else -1
  }

  /** src stands at va, every other byte and every mapping is as before, and so is all memory
      outside the space. */
  ghost predicate Wrote(ph: Phys, s: Space, ph': Phys, va: nat, src: seq<Byte>) {
    && ph'.free == ph.free
    && SameLeaves(ph.mem, s.t, ph'.mem, s.t)
    && (forall x {:trigger At(ph', s, x)} :: 0 <= x < MAXVA ==>
          At(ph', s, x) == if va <= x < va + |src| then src[x - va] else At(ph, s, x))
    && (forall x {:trigger Accessible(ph', s, x)} :: 0 <= x ==> (Accessible(ph', s, x) <==> Accessible(ph, s, x)))
    && (forall g: Frame {:trigger g in ph'.mem} {:trigger ph'.mem[g]} ::
          g in ph.mem && g !in s.back ==> g in ph'.mem && ph'.mem[g] == ph.mem[g])
  }

  /** dst is what stands at va. */
  ghost predicate Reads(ph: Phys, s: Space, va: nat, dst: seq<Byte>) {
    && (dst != [] ==> va + |dst| <= MAXVA)
    && (forall x {:trigger At(ph, s, x)} :: va <= x < va + |dst| ==> At(ph, s, x) == dst[x - va])
  }

  ghost predicate AccessibleRange(ph: Phys, s: Space, va: nat, n: nat) {
    forall x {:trigger Accessible(ph, s, x)} :: va <= x < va + n ==> Accessible(ph, s, x)
  }

  /** copyin gives back what copyout stored. */
  lemma CopyRoundTrip(ph: Phys, s: Space, ph': Phys, va: nat, src: seq<Byte>, dst: seq<Byte>)
    requires Wrote(ph, s, ph', va, src) && Reads(ph', s, va, dst) && |dst| == |src|
    ensures dst == src
  {
    hide At;
    forall i | 0 <= i < |src|
      ensures dst[i] == src[i]
    {
      assert At(ph', s, va + i) == dst[va + i - va];
    }
  }

  lemma WroteNone(ph: Phys, s: Space, va: nat)
    ensures Wrote(ph, s, ph, va, [])
  {
  }

  lemma WroteMore(ph: Phys, s: Space, ph1: Phys, ph2: Phys, va: nat, a: seq<Byte>, w: nat, b: seq<Byte>, c: seq<Byte>)
    requires Wrote(ph, s, ph1, va, a) && Wrote(ph1, s, ph2, w, b) && w == va + |a| && c == a + b
    ensures Wrote(ph, s, ph2, va, c)
  {
    hide At;
    hide Accessible;
    hide Leaf;
    assert forall v {:trigger Leaf(ph2.mem, s.t, v)} :: 0 <= v < PAGES ==>
      Leaf(ph1.mem, s.t, v) == Leaf(ph.mem, s.t, v);
    forall x | 0 <= x < MAXVA
      ensures At(ph2, s, x) == if va <= x < va + |c| then c[x - va] else At(ph, s, x)
    {
      assert At(ph1, s, x) == if va <= x < va + |a| then a[x - va] else At(ph, s, x);
    }
    assert forall x {:trigger Accessible(ph2, s, x)} :: 0 <= x ==> (Accessible(ph1, s, x) <==> Accessible(ph, s, x));
    assert forall g: Frame {:trigger g in ph2.mem} {:trigger ph2.mem[g]} :: g in ph.mem && g !in s.back ==>
      g in ph1.mem && ph1.mem[g] == ph.mem[g];
  }

  // ---- one page ----

  function Spliced(b: seq<Byte>, off: nat, src: seq<Byte>): (r: seq<Byte>)
    requires off + |src| <= |b|
    ensures |r| == |b|
    ensures forall i {:trigger r[i]} :: 0 <= i < |b| ==> r[i] == if off <= i < off + |src| then src[i - off] else b[i]
  {
    b[..off] + src + b[off + |src|..]
  }

  lemma PokeGood(ph: Phys, s: Space, v: nat, f: Frame, b: seq<Byte>, ph': Phys)
    requires Good(ph, s) && v < PAGES && See(ph.mem, s.t, v).Shown? && f == See(ph.mem, s.t, v).frame
    requires |b| == PGSIZE && ph' == Phys(ph.mem[f := Data(b)], ph.free)
    ensures Good(ph', s) && SameLeaves(ph.mem, s.t, ph'.mem, s.t) && f in s.back
    ensures forall w {:trigger See(ph'.mem, s.t, w)} :: 0 <= w < PAGES ==>
      See(ph'.mem, s.t, w) == if w == v then See(ph.mem, s.t, v).(b := b) else See(ph.mem, s.t, w)
  {
    MappedIsShown(ph, s, v);
    WriteDataWf(ph.mem, s, f, b);
    forall w | 0 <= w < PAGES
      ensures See(ph'.mem, s.t, w) == if w == v then See(ph.mem, s.t, v).(b := b) else See(ph.mem, s.t, w)
    {
      assert Leaf(ph'.mem, s.t, w) == Leaf(ph.mem, s.t, w);
      if See(ph.mem, s.t, w).Shown? {
        FramesDistinct(ph, s, v, w);
      }
    }
  }

  lemma PokeWrote(ph: Phys, s: Space, va: nat, f: Frame, src: seq<Byte>, ph': Phys)
    requires Good(ph, s) && Accessible(ph, s, va) && f == See(ph.mem, s.t, va / 4096).frame
    requires va % 4096 + |src| <= 4096 && IsData(ph.mem, f)
    requires ph' == Phys(ph.mem[f := Data(Spliced(ph.mem[f].b, va % 4096, src))], ph.free)
    ensures Good(ph', s) && Wrote(ph, s, ph', va, src)
  {
    var v, off := va / 4096, va % 4096;
    var b := Spliced(ph.mem[f].b, off, src);
    PokeGood(ph, s, v, f, b, ph');
    hide Good;
    hide Leaf;
    assert See(ph.mem, s.t, v).b == ph.mem[f].b;
    hide See;
    forall x | 0 <= x < MAXVA
      ensures At(ph', s, x) == if va <= x < va + |src| then src[x - va] else At(ph, s, x)
    {
      var w, i := x / 4096, x % 4096;
      assert See(ph'.mem, s.t, w) == if w == v then See(ph.mem, s.t, v).(b := b) else See(ph.mem, s.t, w);
      if va <= x < va + |src| {
        assert w == v && i == off + (x - va);
      }
    }
    forall x | 0 <= x
      ensures Accessible(ph', s, x) <==> Accessible(ph, s, x)
    {
      var w := x / 4096;
      assert w < PAGES ==> See(ph'.mem, s.t, w) == if w == v then See(ph.mem, s.t, v).(b := b) else See(ph.mem, s.t, w);
    }
  }

  /** All addresses of one page are accessible or none is. */
  lemma PageAccessible(ph: Phys, s: Space, x: nat, y: nat)
    requires x / 4096 == y / 4096
    ensures Accessible(ph, s, x) <==> Accessible(ph, s, y)
  {
    hide See;
    assert x < MAXVA <==> x / 4096 < PAGES;
    assert y < MAXVA <==> y / 4096 < PAGES;
  }

  lemma OnePage(ph: Phys, s: Space, va: nat, k: nat, n: nat)
    requires AccessibleRange(ph, s, va, k) && Accessible(ph, s, va + k) && (va + k) % 4096 + n <= 4096
    ensures AccessibleRange(ph, s, va, k + n)
  {
    hide Accessible;
    forall x | va <= x < va + (k + n)
      ensures Accessible(ph, s, x)
    {
      if x >= va + k {
        PageAccessible(ph, s, x, va + k);
      }
    }
  }

  lemma PeekReads(ph: Phys, s: Space, va: nat, f: Frame, n: nat, dst: seq<Byte>)
    requires Good(ph, s) && Accessible(ph, s, va) && f == See(ph.mem, s.t, va / 4096).frame
    requires va % 4096 + n <= 4096 && IsData(ph.mem, f) && dst == ph.mem[f].b[va % 4096..va % 4096 + n]
    ensures Reads(ph, s, va, dst)
  {
    var v := va / 4096;
    assert See(ph.mem, s.t, v).b == ph.mem[f].b;
    hide See;
    hide Good;
    forall x | va <= x < va + n
      ensures x < MAXVA && At(ph, s, x) == dst[x - va]
    {
      assert x / 4096 == v && x % 4096 == va % 4096 + (x - va);
    }
  }

  lemma ReadsMore(ph: Phys, s: Space, va: nat, a: seq<Byte>, w: nat, b: seq<Byte>)
    requires Reads(ph, s, va, a) && Reads(ph, s, w, b) && w == va + |a|
    ensures Reads(ph, s, va, a + b)
  {
  }
}
