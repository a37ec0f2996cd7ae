/** The file system over the log, one operation at a time: begin_op, the log_writes of an operation of
    FsOps, end_op, and crashes anywhere.  `done[id]` is the file system that operation id leaves. */
module FsSerial {
  import opened FsLayout
  import opened FsState
  import opened FsOps
  import opened FsCrash
  import L = LogDisk
  import S = LogSystem
  import R = LogRuns

  /** The file system as the processes see it, and as the last commit left it. */
  datatype Track = Track(now: Fs, saved: Fs)

  /** The log_writes of operation id. */
  function EventsOf(ev: seq<S.Event>, id: nat): seq<S.Event> {
    if ev == [] then []
    else
      var n := |ev| - 1;
      EventsOf(ev[..n], id) + if ev[n].op == id then [ev[n]] else []
  }

  /** An operation of FsOps takes fs to fs', and ev are its log_writes. */
  ghost predicate OpDoes(sb: Super, fs: Fs, fs': Fs, ev: seq<S.Event>)
    requires Shape(sb, fs)
  {
    && Complete(sb, fs') && HolesKept(sb, fs, fs')
    && exists logged :: Recorded(sb, fs.disk, {}, fs'.disk, logged) && LogsIt(ev, fs'.disk, logged)
  }

  /** An end_op makes the operation's result what is seen, the header write saves it, a crash goes back
      to what was saved. */
  function Moved(s: S.Sys, t: S.Step, done: map<nat, Fs>, v: Track): Track {
    match t
    case End(i) => if i < |s.ops| && s.ops[i].id in done then v.(now := done[s.ops[i].id]) else v
    case WriteHead => v.(saved := v.now)
    case Crash => v.(now := v.saved)
    case _ => v
  }

  /** Nothing begins while an operation is open, and each one that ends did what `done` says. */
  ghost predicate SerialStep(sb: Super, s: S.Sys, t: S.Step, done: map<nat, Fs>, v: Track) {
    && (t.Begin? ==> R.Quiet(s))
    && (t.End? && t.i < |s.ops| ==>
          var id := s.ops[t.i].id;
          id in done && Shape(sb, v.now) && OpDoes(sb, v.now, done[id], EventsOf(s.events, id)))
  }

  function Tracked(fs: Fs, l: L.Layout, d: L.Disk, ts: seq<S.Step>, done: map<nat, Fs>): Track
    requires L.Formatted(l, d) && R.IsRun(l, d, ts)
  {
    if ts == [] then Track(fs, fs)
    else
      var n := |ts| - 1;
      Moved(R.Final(l, d, ts[..n]), ts[n], done, Tracked(fs, l, d, ts[..n], done))
  }

  ghost predicate Serial(sb: Super, fs: Fs, l: L.Layout, d: L.Disk, ts: seq<S.Step>, done: map<nat, Fs>)
    requires L.Formatted(l, d) && R.IsRun(l, d, ts)
  {
    if ts == [] then true
    else
      var n := |ts| - 1;
      && Serial(sb, fs, l, d, ts[..n], done)
      && SerialStep(sb, R.Final(l, d, ts[..n]), ts[n], done, Tracked(fs, l, d, ts[..n], done))
  }

  // ---- a history that amounts to a file system ----

  ghost predicate Amounts(sb: Super, fs: Fs, ev: seq<S.Event>, fs': Fs)
    requires 2 <= sb.inodestart && Shape(sb, fs)
  {
    exists txs {:trigger Chain(sb, fs, txs)} :: Chain(sb, fs, txs) && ev == AllEvents(txs) && fs' == LastFs(fs, txs)
  }

  lemma AmountsNone(sb: Super, fs: Fs)
    requires 2 <= sb.inodestart && Shape(sb, fs)
    ensures Amounts(sb, fs, [], fs)
  {
    assert Chain(sb, fs, []);
  }

  lemma {:induction false} ChainMore(sb: Super, fs: Fs, txs: seq<Tx>, tx: Tx)
    requires 2 <= sb.inodestart && Complete(sb, fs) && Chain(sb, fs, txs)
    requires Shape(sb, LastFs(fs, txs)) && TxOk(sb, LastFs(fs, txs), tx)
    ensures Chain(sb, fs, txs + [tx]) && AllEvents(txs + [tx]) == AllEvents(txs) + tx.ev
    decreases |txs|
  {
    if txs == [] {
      assert [tx][1..] == [];
      assert txs + [tx] == [tx];
      assert AllEvents([tx]) == tx.ev + [];
    } else {
      assert (txs + [tx])[1..] == txs[1..] + [tx];
      ChainMore(sb, txs[0].fs, txs[1..], tx);
    }
  }

  lemma AmountsComplete(sb: Super, fs: Fs, ev: seq<S.Event>, fs': Fs)
    requires 2 <= sb.inodestart && Complete(sb, fs) && Amounts(sb, fs, ev, fs')
    requires LogOf(sb).Ok()
    ensures Complete(sb, fs') && HolesKept(sb, fs, fs')
  {
    var txs :| Chain(sb, fs, txs) && ev == AllEvents(txs) && fs' == LastFs(fs, txs);
    ChainEnds(sb, fs, txs, 0);
  }

  lemma AmountsMore(sb: Super, fs: Fs, ev: seq<S.Event>, fs1: Fs, ev1: seq<S.Event>, fs2: Fs)
    requires 2 <= sb.inodestart && LogOf(sb).Ok() && Complete(sb, fs) && Amounts(sb, fs, ev, fs1)
    requires Shape(sb, fs1) && OpDoes(sb, fs1, fs2, ev1)
    ensures Amounts(sb, fs, ev + ev1, fs2)
  {
    AmountsComplete(sb, fs, ev, fs1);
    var logged :| Recorded(sb, fs1.disk, {}, fs2.disk, logged) && LogsIt(ev1, fs2.disk, logged);
    OperationIsTx(sb, fs1, fs2, logged, ev1);
    var txs :| Chain(sb, fs, txs) && ev == AllEvents(txs) && fs1 == LastFs(fs, txs);
    ChainMore(sb, fs, txs, Tx(ev1, fs2));
    assert LastFs(fs, txs + [Tx(ev1, fs2)]) == fs2;
  }

  // ---- the invariant of a serial run ----

  /** The writes of the open operation, if there is one. */
  function Pending(s: S.Sys): seq<S.Event> {
    if s.ops == [] then [] else EventsOf(s.events, s.ops[0].id)
  }

  ghost predicate Tracks(sb: Super, fs: Fs, s: S.Sys, v: Track)
    requires 2 <= sb.inodestart && Shape(sb, fs)
  {
    && |s.ops| <= 1 && s.durable <= |s.events| && Amounts(sb, fs, s.events[..s.durable], v.saved)
    && |Pending(s)| <= |s.events|
    && s.events == s.events[..|s.events| - |Pending(s)|] + Pending(s)
    && Amounts(sb, fs, s.events[..|s.events| - |Pending(s)|], v.now)
  }

  lemma {:induction false} NoEventsOf(ev: seq<S.Event>, id: nat)
    requires forall j :: 0 <= j < |ev| ==> ev[j].op != id
    ensures EventsOf(ev, id) == []
    decreases |ev|
  {
    if ev != [] {
      NoEventsOf(ev[..|ev| - 1], id);
    }
  }

  lemma BeginTracks(sb: Super, fs: Fs, l: L.Layout, s: S.Sys, p: nat, v: Track)
    requires 2 <= sb.inodestart && Shape(sb, fs) && S.Inv(l, s) && R.Quiet(s) && Tracks(sb, fs, s, v)
    ensures Tracks(sb, fs, S.DoBegin(s, p), v)
  {
    hide Amounts;
    NoEventsOf(s.events, s.nextOp);
  }

  lemma WriteTracks(sb: Super, fs: Fs, l: L.Layout, s: S.Sys, i: nat, b: int, x: L.Block, v: Track)
    requires 2 <= sb.inodestart && Shape(sb, fs) && S.Inv(l, s)
    requires S.Enabled(l, s, S.Write(i, b, x)) && Tracks(sb, fs, s, v)
    ensures Tracks(sb, fs, S.DoWrite(l, s, i, b, x), v)
  {
    hide Amounts;
    var s' := S.DoWrite(l, s, i, b, x);
    if !s'.panicked {
      var k := |s.events| - |Pending(s)|;
      assert s'.events[..|s.events|] == s.events;
      assert Pending(s') == Pending(s) + [s'.events[|s.events|]];
      assert s'.events[..k] == s.events[..k];
      assert s'.events[..s.durable] == s.events[..s.durable];
    }
  }

  lemma EndTracks(sb: Super, fs: Fs, s: S.Sys, i: nat, done: map<nat, Fs>, v: Track)
    requires 2 <= sb.inodestart && LogOf(sb).Ok() && Complete(sb, fs) && Tracks(sb, fs, s, v)
    requires i < |s.ops| && SerialStep(sb, s, S.End(i), done, v)
    ensures Tracks(sb, fs, S.DoEnd(s, i), Moved(s, S.End(i), done, v))
  {
    hide Amounts;
    hide OpDoes;
    hide Complete;
    CompleteShape(sb, fs);
    var id := s.ops[0].id;
    var k := |s.events| - |Pending(s)|;
    AmountsMore(sb, fs, s.events[..k], v.now, Pending(s), done[id]);
    assert s.events[..|s.events|] == s.events;
  }

  lemma WriteHeadTracks(sb: Super, fs: Fs, l: L.Layout, s: S.Sys, v: Track)
    requires 2 <= sb.inodestart && Shape(sb, fs) && S.Inv(l, s) && s.ops == [] && Tracks(sb, fs, s, v)
    ensures Tracks(sb, fs, S.DoWriteHead(l, s), v.(saved := v.now))
  {
    hide Amounts;
    hide S.Inv;
    assert s.events[..|s.events|] == s.events;
  }

  lemma CrashTracks(sb: Super, fs: Fs, s: S.Sys, v: Track)
    requires 2 <= sb.inodestart && Shape(sb, fs) && Tracks(sb, fs, s, v)
    ensures Tracks(sb, fs, S.DoCrash(s), v.(now := v.saved))
  {
    hide Amounts;
    var ev := s.events[..s.durable];
    assert ev[..s.durable] == ev && ev[..|ev|] == ev && ev == ev + [];
  }

  lemma StepTracks(sb: Super, fs: Fs, l: L.Layout, s: S.Sys, t: S.Step, done: map<nat, Fs>, v: Track)
    requires 2 <= sb.inodestart && LogOf(sb).Ok() && Complete(sb, fs) && S.Inv(l, s) && S.Enabled(l, s, t)
    requires Tracks(sb, fs, s, v) && SerialStep(sb, s, t, done, v)
    ensures Tracks(sb, fs, S.Next(l, s, t), Moved(s, t, done, v))
  {
    hide Amounts;
    hide OpDoes;
    match t
    case Begin(p) => BeginTracks(sb, fs, l, s, p, v);
    case Write(i, b, x) => WriteTracks(sb, fs, l, s, i, b, x, v);
    case End(i) => EndTracks(sb, fs, s, i, done, v);
    case WriteHead => WriteHeadTracks(sb, fs, l, s, v);
    case Crash => CrashTracks(sb, fs, s, v);
    case _ =>
  }

  lemma {:induction false} RunTracks(sb: Super, fs: Fs, l: L.Layout, d: L.Disk, ts: seq<S.Step>, done: map<nat, Fs>)
    requires 2 <= sb.inodestart && Complete(sb, fs) && l == LogOf(sb) && L.Formatted(l, d) && R.IsRun(l, d, ts)
    requires Serial(sb, fs, l, d, ts, done)
    ensures Tracks(sb, fs, R.Final(l, d, ts), Tracked(fs, l, d, ts, done))
    decreases |ts|
  {
    hide Tracks;
    hide Complete;
    hide SerialStep;
    hide Moved;
    hide S.Enabled;
    hide S.Next;
    CompleteShape(sb, fs);
    if ts == [] {
      TracksFresh(sb, fs, d);
    } else {
      var n := |ts| - 1;
      RunTracks(sb, fs, l, d, ts[..n], done);
      StepTracks(sb, fs, l, R.Final(l, d, ts[..n]), ts[n], done, Tracked(fs, l, d, ts[..n], done));
    }
  }

  lemma TracksFresh(sb: Super, fs: Fs, d: L.Disk)
    requires 2 <= sb.inodestart && Shape(sb, fs)
    ensures Tracks(sb, fs, S.Fresh(d), Track(fs, fs))
  {
    AmountsNone(sb, fs);
    assert S.Fresh(d).events[..0] == [];
  }

  // ---- the theorems ----

  lemma {:induction false} SerialPrefix(sb: Super, fs: Fs, l: L.Layout, d: L.Disk, ts: seq<S.Step>, done: map<nat, Fs>,
                                        n: nat)
    requires L.Formatted(l, d) && R.IsRun(l, d, ts) && Serial(sb, fs, l, d, ts, done) && n <= |ts|
    ensures R.IsRun(l, d, ts[..n]) && Serial(sb, fs, l, d, ts[..n], done)
    decreases |ts|
  {
    hide SerialStep;
    hide Tracked;
    hide S.Enabled;
    if n == |ts| {
      assert ts[..n] == ts;
    } else {
      var m := |ts| - 1;
      assert ts[..m][..n] == ts[..n];
      SerialPrefix(sb, fs, l, d, ts[..m], done, n);
    }
  }

  lemma TracksWhole(sb: Super, fs: Fs, s: S.Sys, v: Track)
    requires 2 <= sb.inodestart && Shape(sb, fs) && R.Quiet(s) && Tracks(sb, fs, s, v)
    ensures Whole(sb, fs, s.events)
  {
    assert s.events[..|s.events|] == s.events;
    var txs :| Chain(sb, fs, txs) && s.events == AllEvents(txs) && v.now == LastFs(fs, txs);
  }

  /** In a serial run the history consists of whole transactions at every quiet moment. */
  lemma SerialIsWhole(sb: Super, fs: Fs, l: L.Layout, d: L.Disk, ts: seq<S.Step>, done: map<nat, Fs>)
    requires 2 <= sb.inodestart && Complete(sb, fs) && l == LogOf(sb) && L.Formatted(l, d) && R.IsRun(l, d, ts)
    requires Serial(sb, fs, l, d, ts, done)
    ensures Shape(sb, fs) && WholeWhenQuiet(sb, fs, l, d, ts)
  {
    hide Tracks;
    hide Complete;
    hide Whole;
    hide Serial;
    CompleteShape(sb, fs);
    forall n {:trigger ts[..n]} | 0 <= n <= |ts| && R.IsRun(l, d, ts[..n]) && R.Quiet(R.Final(l, d, ts[..n]))
      ensures Whole(sb, fs, R.Final(l, d, ts[..n]).events)
    {
      SerialPrefix(sb, fs, l, d, ts, done, n);
      RunTracks(sb, fs, l, d, ts[..n], done);
      TracksWhole(sb, fs, R.Final(l, d, ts[..n]), Tracked(fs, l, d, ts[..n], done));
    }
  }

  /** Crash consistency of a serial run, with no assumption left about its history: whatever crashes
      there were, recovery ends with the complete file system that the last committed operation left. */
  lemma SerialSurvives(sb: Super, fs: Fs, l: L.Layout, d: L.Disk, ts: seq<S.Step>, done: map<nat, Fs>)
    requires 2 <= sb.inodestart && Complete(sb, fs) && l == LogOf(sb) && d == OnDevice(fs.disk)
    requires L.Formatted(l, d) && L.Header(l, d) == []
    requires R.IsRun(l, d, ts) && Serial(sb, fs, l, d, ts, done)
    ensures var s, saved := R.Final(l, d, ts), Tracked(fs, l, d, ts, done).saved;
      && Complete(sb, saved) && HolesKept(sb, fs, saved)
      && |L.Recover(l, s.disk)| == sb.size
      && forall b :: l.Home(b) ==> L.Recover(l, s.disk)[b] == Words(saved.disk[b])
  {
    hide *;
    CompleteShape(sb, fs);
    RunTracks(sb, fs, l, d, ts, done);
    var txs := TheSaved(sb, fs, R.Final(l, d, ts), Tracked(fs, l, d, ts, done));
    FinalFormatted(l, d, ts);
    R.CrashAtomicity(l, d, ts);
    RecoveredIsLast(sb, fs, l, d, txs, L.Recover(l, R.Final(l, d, ts).disk));
  }

  lemma TheSaved(sb: Super, fs: Fs, s: S.Sys, v: Track) returns (txs: seq<Tx>)
    requires 2 <= sb.inodestart && Shape(sb, fs) && Tracks(sb, fs, s, v)
    ensures s.durable <= |s.events| && Chain(sb, fs, txs) && s.events[..s.durable] == AllEvents(txs)
    ensures v.saved == LastFs(fs, txs)
  {
    txs :| Chain(sb, fs, txs) && s.events[..s.durable] == AllEvents(txs) && v.saved == LastFs(fs, txs);
  }
}
