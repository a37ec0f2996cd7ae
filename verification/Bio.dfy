/** kernel/bio.c: the buffer cache.  Each method is what happens under bcache.lock or under the sleep lock
    of one buffer, so that any interleaving of processes is some sequence of calls. */
module Bio {
  import opened Collections
  import opened BioList

  type Block = seq<int>
  datatype Key = Key(dev: nat, blockno: nat)

  /** struct buf: refcnt counts the processes that have or want the buffer, and the pins of the log. */
  datatype Buf = Buf(key: Key, valid: bool, refcnt: nat, locked: bool, data: Block)

  function OnDisk(disk: map<Key, Block>, k: Key): Block {
    if k in disk then disk[k] else []
  }

  ghost predicate Clean(b: Buf, disk: map<Key, Block>) {
    b.valid ==> b.data == OnDisk(disk, b.key)
  }

  /** One buffer by itself: it is referenced while it is locked or pinned, it has a real device while it
      is referenced, and unless it is locked or pinned it holds what the disk holds. */
  ghost predicate BufOk(b: Buf, pins: nat, disk: map<Key, Block>) {
    && pins + (if b.locked then 1 else 0) <= b.refcnt
    && (b.refcnt > 0 || b.valid ==> b.key.dev != 0)
    && (!b.locked && pins == 0 ==> Clean(b, disk))
  }

  ghost predicate Unique(buf: seq<Buf>) {
    forall i, j {:trigger buf[i], buf[j]} :: 0 <= i < j < |buf| && buf[i].key == buf[j].key ==> buf[i].key.dev == 0
  }

  /** Every buffer that was released before b is in use. */
  ghost predicate LeastRecent(order: seq<nat>, buf: seq<Buf>, b: nat) {
    exists i {:trigger order[i]} :: 0 <= i < |order| && order[i] == b && forall j {:trigger order[j]} ::
      i < j < |order| && order[j] < |buf| ==> buf[order[j]].refcnt > 0
  }

  class Cache {
    const n: nat
    var next: seq<nat>
    var prev: seq<nat>
    var buf: seq<Buf>
    var disk: map<Key, Block>
    ghost var order: seq<nat>
    ghost var pins: seq<nat>

    /** prev and next are inverse over one circle with all buffers, buffers of a real device have
        different blocks, and each buffer is in order. */
    ghost predicate Valid()
      reads this
    {
      && |next| == n + 1 && |order| == n && Linked(next, prev, n, order)
      && |buf| == n && |pins| == n && Unique(buf)
      && forall i {:trigger buf[i]} {:trigger pins[i]} :: 0 <= i < n ==> BufOk(buf[i], pins[i], disk)
    }

    /** binit */
    constructor (n: nat)
      ensures Valid() && this.n == n && forall i :: 0 <= i < n ==> !buf[i].valid && buf[i].refcnt == 0
    {
      this.n := n;
      next, prev := seq(n + 1, _ => n), seq(n + 1, _ => n);
      buf := seq(n, _ => Buf(Key(0, 0), false, 0, false, []));
      disk := map[];
      order, pins := [], seq(n, _ => 0);
      new;
      var b := 0;
      while b < n
        invariant 0 <= b <= n && |next| == n + 1 && Linked(next, prev, n, order) && |order| == b
        invariant forall i {:trigger order[i]} :: 0 <= i < |order| ==> order[i] < b
        invariant buf == seq(n, _ => Buf(Key(0, 0), false, 0, false, [])) && pins == seq(n, _ => 0)
      {
        PushList(b);
        b := b + 1;
      }
    }

    /** The four assignments that put b behind the head. */
    method PushList(b: nat)
      requires Linked(next, prev, n, order) && |next| == n + 1 && b < n && b !in order
      modifies this`next, this`prev, this`order
      ensures |next| == n + 1 && Linked(next, prev, n, order) && order == [b] + old(order)
    {
      PushFront(next, prev, n, order, b);
      var first := next[n];
      next := next[b := first];
      prev := prev[b := n];
      prev := prev[first := b];
      next := next[n := b];
      order := [b] + order;
    }

    /** The first loop of bget. */
    method Find(k: Key) returns (b: nat)
      requires Valid()
      ensures b <= n && (b < n ==> buf[b].key == k)
      ensures b == n ==> forall i {:trigger buf[i]} :: 0 <= i < n ==> buf[i].key != k
    {
      LinkedAt(next, prev, n, order, 0);
      b := next[n];
      ghost var i := 0;
      while b != n
        invariant 0 <= i <= n && b == R(n, order, i + 1)
        invariant forall j {:trigger order[j]} :: 0 <= j < i ==> buf[order[j]].key != k
        decreases n - i
      {
        InList(n, order, n + 1, i);
        if buf[b].key == k {
          return;
        }
        LinkedAt(next, prev, n, order, i + 1);
        b := next[b];
        i := i + 1;
      }
      AtEnd(n, order, n + 1, i);
      forall j | 0 <= j < n
        ensures buf[j].key != k
      {
        var x := Holds(n, order, j);
      }
    }

    /** The second loop: the unused buffer that was released longest ago. */
    method FindUnused() returns (b: nat)
      requires Valid()
      ensures b <= n && (b < n ==> buf[b].refcnt == 0)
      ensures b == n ==> forall i {:trigger buf[i]} :: 0 <= i < n ==> buf[i].refcnt > 0
      ensures b < n ==> LeastRecent(order, buf, b)
    {
      LinkedAt(next, prev, n, order, n);
      b := prev[n];
      ghost var i: nat := n;
      while b != n
        invariant 0 <= i <= n && b == R(n, order, i)
        invariant forall j {:trigger order[j]} :: i <= j < n ==> buf[order[j]].refcnt > 0
        decreases i
      {
        if buf[b].refcnt == 0 {
          assert order[i - 1] == b;
          return;
        }
        LinkedAt(next, prev, n, order, i - 1);
        b := prev[b];
        i := i - 1;
      }
      AtStart(n, order, n + 1, i);
      forall j | 0 <= j < n
        ensures buf[j].refcnt > 0
      {
        var x := Holds(n, order, j);
      }
    }

    /** bget up to the sleep lock: a reference to the buffer of the block; it panics exactly when the
        block is not cached and every buffer is in use.  A recycled buffer is not pinned, and what it
        held is on the disk. */
    method Bget(k: Key) returns (ok: bool, b: nat)
      requires Valid() && k.dev != 0
      modifies this`buf
      ensures Valid()
      ensures ok <==> exists i {:trigger old(buf)[i]} :: 0 <= i < n && (old(buf)[i].key == k || old(buf)[i].refcnt == 0)
      ensures !ok ==> buf == old(buf)
      ensures ok ==> b < n && buf == old(buf)[b := buf[b]] && buf[b].key == k && buf[b].refcnt == old(buf)[b].refcnt + 1
      ensures ok && old(buf)[b].key == k ==> buf[b] == old(buf)[b].(refcnt := old(buf)[b].refcnt + 1)
      ensures ok && old(buf)[b].key != k ==>
        && !buf[b].valid && old(buf)[b].refcnt == 0 && pins[b] == 0 && Clean(old(buf)[b], disk)
             && LeastRecent(order, old(buf), b)
        && forall i {:trigger old(buf)[i]} :: 0 <= i < n ==> old(buf)[i].key != k
    {
      b := Find(k);
      if b < n {
        ok := true;
        assert BufOk(buf[b], pins[b], disk);
        buf := buf[b := buf[b].(refcnt := buf[b].refcnt + 1)];
        return;
      }
      b := FindUnused();
      ok := b < n;
      if ok {
        assert BufOk(buf[b], pins[b], disk);
        buf := buf[b := buf[b].(key := k, valid := false, refcnt := 1)];
      }
    }

    /** acquiresleep(&b->lock), by a process that has a reference of its own. */
    method Lock(b: nat)
      requires Valid() && b < n && !buf[b].locked && pins[b] < buf[b].refcnt
      modifies this`buf
      ensures Valid() && buf == old(buf)[b := old(buf)[b].(locked := true)]
    {
      assert BufOk(buf[b], pins[b], disk);
      buf := buf[b := buf[b].(locked := true)];
    }

    /** The rest of bread: the locked buffer holds its block. */
    method Fill(b: nat)
      requires Valid() && b < n && buf[b].locked
      modifies this`buf
      ensures Valid() && buf[b].valid && buf == old(buf)[b := buf[b]] && buf[b].key == old(buf)[b].key && buf[b].locked
      ensures buf[b].data == if old(buf)[b].valid then old(buf)[b].data else OnDisk(disk, buf[b].key)
      ensures buf[b].refcnt == old(buf)[b].refcnt
    {
      assert BufOk(buf[b], pins[b], disk);
      if !buf[b].valid {
        buf := buf[b := buf[b].(data := OnDisk(disk, buf[b].key))];
        buf := buf[b := buf[b].(valid := true)];
      }
    }

    /** The holder of the lock changes the data. */
    method Modify(b: nat, data: Block)
      requires Valid() && b < n && buf[b].locked && buf[b].valid
      modifies this`buf
      ensures Valid() && buf == old(buf)[b := old(buf)[b].(data := data)]
    {
      assert BufOk(buf[b], pins[b], disk);
      buf := buf[b := buf[b].(data := data)];
    }

    /** bwrite */
    method Bwrite(b: nat)
      requires Valid() && b < n && buf[b].locked && buf[b].valid
      modifies this`disk
      ensures Valid() && disk == old(disk)[buf[b].key := buf[b].data] && Clean(buf[b], disk)
    {
      assert BufOk(buf[b], pins[b], disk);
      disk := disk[buf[b].key := buf[b].data];
      forall i | 0 <= i < n
        ensures BufOk(buf[i], pins[i], disk)
      {
        assert BufOk(buf[i], pins[i], old(disk));
        assert i != b ==> buf[i].key != buf[b].key || buf[i].key.dev == 0;
      }
    }

    /** releasesleep in brelse, by the holder of the lock, which has written the data or pinned the buffer
        for the log.  Its reference stays until Drop, and others may lock the buffer in between. */
    method Unlock(b: nat)
      requires Valid() && b < n && buf[b].locked && (pins[b] > 0 || Clean(buf[b], disk))
      modifies this`buf
      ensures Valid() && buf == old(buf)[b := old(buf)[b].(locked := false)] && pins[b] < buf[b].refcnt
    {
      assert BufOk(buf[b], pins[b], disk);
      buf := buf[b := buf[b].(locked := false)];
    }

    /** The rest of brelse, under bcache.lock: the reference is given up, and the last one moves the
        buffer to the front of the list. */
    method Drop(b: nat)
      requires Valid() && b < n && pins[b] + (if buf[b].locked then 1 else 0) < buf[b].refcnt
      modifies this`buf, this`next, this`prev, this`order
      ensures Valid() && buf == old(buf)[b := old(buf)[b].(refcnt := old(buf)[b].refcnt - 1)]
      ensures if buf[b].refcnt > 0 then order == old(order)
        else exists k :: 0 <= k < n && old(order)[k] == b && order == [b] + Without(old(order), k)
    {
      hide Linked;
      hide Without;
      assert BufOk(buf[b], pins[b], disk);
      buf := buf[b := buf[b].(refcnt := buf[b].refcnt - 1)];
      if buf[b].refcnt == 0 {
        ghost var k := ToFront(b);
      }
    }

    /** The six assignments that move b behind the head. */
    method ToFront(b: nat) returns (ghost k: nat)
      requires |next| == n + 1 && |order| == n && Linked(next, prev, n, order) && b < n
      modifies this`next, this`prev, this`order
      ensures |next| == n + 1 && |order| == n && Linked(next, prev, n, order)
      ensures k < n && old(order)[k] == b && order == [b] + Without(old(order), k)
    {
      k := Holds(n, order, b);
      Unlink(next, prev, n, order, k);
      WithoutMembers(n, order, n + 1, k);
      hide Linked;
      hide Members;
      var after, before := next[b], prev[b];
      prev := prev[after := before];
      next := next[before := after];
      order := Without(order, k);
      PushList(b);
    }

    /** bpin, by log_write, which holds the buffer. */
    method Bpin(b: nat)
      requires Valid() && b < n && buf[b].refcnt > 0
      modifies this`buf, this`pins
      ensures Valid() && buf == old(buf)[b := old(buf)[b].(refcnt := old(buf)[b].refcnt + 1)]
      ensures pins == old(pins)[b := old(pins)[b] + 1]
    {
      assert BufOk(buf[b], pins[b], disk);
      buf := buf[b := buf[b].(refcnt := buf[b].refcnt + 1)];
      pins := pins[b := pins[b] + 1];
    }

    /** bunpin, by install_trans, which holds the buffer or has written it home. */
    method Bunpin(b: nat)
      requires Valid() && b < n && pins[b] > 0 && (buf[b].locked || pins[b] > 1 || Clean(buf[b], disk))
      modifies this`buf, this`pins
      ensures Valid() && buf == old(buf)[b := old(buf)[b].(refcnt := old(buf)[b].refcnt - 1)]
      ensures pins == old(pins)[b := old(pins)[b] - 1]
    {
      assert BufOk(buf[b], pins[b], disk);
      buf := buf[b := buf[b].(refcnt := buf[b].refcnt - 1)];
      pins := pins[b := pins[b] - 1];
    }
  }
}
