/**
 A snapshot frame queued by a writer that then fails: the barrier is aborted without reseeding, so the browser stands
 at the watermark while the observer goes on numbering from below it, and events are dropped without a gap.
 */
module TornWrite {
  import opened Base
  import opened Observers
  import opened Delivery
  import opened DeliveryBarrier

  /** The state the failing writer leaves: the frame is on the wire and the barrier aborted. */
  function Torn(conn: Connection, s: State): State
    requires s.barrier.Acked?
  {
    Aborted(conn, s.(wire := s.wire + [Snapshot(s.barrier.watermark, conn.epoch)]))
  }

  /** What reaches the browser up to the last task scheduled before the failure. */
  function Head(conn: Connection, s: State): seq<Message>
    requires s.barrier.Acked?
  {
    s.wire + [Snapshot(s.barrier.watermark, conn.epoch)] + Messages(s.observer.tasks)
  }

  /** What is left of `due` once its first `behind` events are lost. */
  function Survivors(due: seq<StateEvent>, behind: nat): seq<StateEvent> {
    due[if |due| < behind then |due| else behind..]
  }

  /** A synced browser at watermark `w` that has been sent `due`, numbered from `from`, at or below the watermark. */
  predicate Behind(conn: Connection, c: Client, gaps: nat, w: nat, from: nat, due: seq<StateEvent>) {
    && from <= w && Synced(conn, c) && !c.requestPending && c.lastSnapshot <= c.lastApplied && c.base == w && c.gaps == gaps
    && c.lastApplied == Max(w, from + |due|)
    && c.applied == Survivors(due, w - from)
  }

  /** One more event: dropped while the numbers are still below the watermark, applied after that. */
  lemma {:induction false} BehindStep(conn: Connection, c: Client, gaps: nat, w: nat, from: nat, due: seq<StateEvent>, e: StateEvent)
    requires Behind(conn, c, gaps, w, from, due)
    ensures Behind(conn, Reduce(conn, c, Incremental(from + |due| + 1, e)), gaps, w, from, due + [e])
  {
    var more := due + [e];
    if |more| <= w - from {
      assert more[|more|..] == due[|due|..];
    } else {
      assert more[w - from..] == due[w - from..] + [e];
    }
  }

  /** A batch numbered from below the browser's counter loses its head without a gap being seen. */
  lemma {:induction false} LateBatchLosesHead(conn: Connection, c: Client, gaps: nat, w: nat, from: nat, due: seq<StateEvent>)
    requires Behind(conn, c, gaps, w, from, [])
    ensures Behind(conn, Consume(conn, c, Messages(Numbered(from, due))), gaps, w, from, due)
  {
    if due == [] {
      assert Messages(Numbered(from, due)) == [];
    } else {
      var front, last := due[..|due| - 1], due[|due| - 1];
      var ms := Messages(Numbered(from, front));
      assert due == front + [last];
      LateBatchLosesHead(conn, c, gaps, w, from, front);
      BehindStep(conn, Consume(conn, c, ms), gaps, w, from, front, last);
      ConsumeOne(conn, c, ms, Incremental(from + |front| + 1, last));
      MessagesOne(from, front, last);
    }
  }

  // ---- every run after the torn write -----------------------------------------------------

  /** While the connection is served, what the browser will hold: everything visible since the watermark, less the
      first `w - from` events. */
  predicate Late(conn: Connection, s: State, gaps: nat, w: nat, from: nat) {
    && CountersOk(s) && s.barrier.Idle? && from <= w <= s.sequence
    && (s.accepted && s.observer.emitting ==>
          var due := VisibleAfter(conn, s.log, w);
          && s.observer.projected == from + |due|
          && Behind(conn, Consume(conn, s.client, InFlight(s)), gaps, w, from, due))
  }

  /** A barrier about to write its snapshot on a connection that is served, in a state the protocol can reach. */
  predicate AboutToWrite(conn: Connection, s: State, gaps: nat) {
    Invariant(conn, s, gaps) && s.barrier.Acked? && s.accepted && s.observer.emitting
  }

  lemma {:induction false} TornShape(conn: Connection, s: State)
    requires s.barrier.Acked?
    ensures
      var t, o, shown := Torn(conn, s), s.observer, VisibleOf(conn, s.observer.buffer);
      && t == Next(conn, s, Abort).(wire := t.wire) && t.barrier.Idle?
      && t.observer.emitting == o.emitting && t.observer.attached == o.attached && !t.observer.paused
      && (o.emitting ==> t.observer.projected == o.projected + |shown|)
  {
    ReplayShape(conn, s.observer, None);
  }

  /** The browser at the watermark: the frame overtakes the tasks scheduled before it. */
  lemma {:induction false} HeadConsumed(conn: Connection, s: State, gaps: nat)
    requires AboutToWrite(conn, s, gaps)
    ensures s.observer.projected <= s.barrier.watermark
    ensures Behind(conn, Consume(conn, s.client, Head(conn, s)), gaps,
                   s.barrier.watermark, s.observer.projected, [])
  {
    assert InFlight(s) == s.wire + Messages(s.observer.tasks);
    SnapshotInserted(conn, s.log, gaps, s.client, s.wire, s.observer.tasks, Messages(s.observer.tasks), s.barrier.watermark);
  }

  /** What the browser holds once it has consumed everything a torn write leaves in flight. */
  lemma {:induction false} TornConsumed(conn: Connection, s: State, gaps: nat)
    requires s.barrier.Acked? && s.accepted && s.observer.emitting && s.observer.projected <= s.barrier.watermark
    requires Behind(conn, Consume(conn, s.client, Head(conn, s)), gaps,
                    s.barrier.watermark, s.observer.projected, [])
    ensures Behind(conn, Consume(conn, s.client, InFlight(Torn(conn, s))), gaps,
                   s.barrier.watermark, s.observer.projected, VisibleOf(conn, s.observer.buffer))
  {
    var w, p, shown := s.barrier.watermark, s.observer.projected, VisibleOf(conn, s.observer.buffer);
    TornInFlight(conn, s);
    BatchAfter(conn, s.client, Head(conn, s), gaps, w, p, shown);
  }

  lemma {:induction false} BatchAfter(conn: Connection, c: Client, head: seq<Message>, gaps: nat, w: nat, from: nat, due: seq<StateEvent>)
    requires Behind(conn, Consume(conn, c, head), gaps, w, from, [])
    ensures Behind(conn, Consume(conn, c, head + Messages(Numbered(from, due))), gaps, w, from, due)
  {
    LateBatchLosesHead(conn, Consume(conn, c, head), gaps, w, from, due);
    ConsumeAppend(conn, c, head, Messages(Numbered(from, due)));
  }

  lemma {:induction false} TornLate(conn: Connection, s: State, gaps: nat)
    requires s.barrier.Acked? && s.accepted && s.observer.emitting && CountersOk(s) && BufferOk(conn, s)
    requires Behind(conn, Consume(conn, s.client, Head(conn, s)), gaps, s.barrier.watermark, s.observer.projected, [])
    ensures Late(conn, Torn(conn, s), gaps, s.barrier.watermark, s.observer.projected)
  {
    TornCounters(conn, s);
    TornShape(conn, s);
    TornConsumed(conn, s, gaps);
  }

  lemma {:induction false} TornCounters(conn: Connection, s: State)
    requires s.barrier.Acked? && CountersOk(s)
    ensures CountersOk(Torn(conn, s)) && s.barrier.watermark <= Torn(conn, s).sequence
  {
    CountersKept(conn, s, Abort);
    TornShape(conn, s);
    OtherCounters(Next(conn, s, Abort), Torn(conn, s));
  }

  lemma {:induction false} TornIsLate(conn: Connection, s: State, gaps: nat)
    requires AboutToWrite(conn, s, gaps)
    ensures s.observer.projected <= s.barrier.watermark
    ensures Late(conn, Torn(conn, s), gaps, s.barrier.watermark, s.observer.projected)
  {
    HeadConsumed(conn, s, gaps);
    TornLate(conn, s, gaps);
  }

  lemma {:induction false} TornInFlight(conn: Connection, s: State)
    requires s.barrier.Acked? && s.accepted && s.observer.emitting
    ensures InFlight(Torn(conn, s)) ==
            Head(conn, s) + Messages(Numbered(s.observer.projected, VisibleOf(conn, s.observer.buffer)))
  {
    ReplayShape(conn, s.observer, None);
    MessagesAppend(s.observer.tasks, Numbered(s.observer.projected, VisibleOf(conn, s.observer.buffer)));
  }

  lemma {:induction false} EmitInFlight(conn: Connection, s: State, e: StateEvent)
    requires s.accepted && s.observer.emitting && s.observer.attached && !s.observer.paused && Enabled(s, Emit(e))
    ensures InFlight(Next(conn, s, Emit(e))) ==
            InFlight(s) + if Visible(conn, e) then [Incremental(s.observer.projected + 1, e)] else []
  {
    if Visible(conn, e) {
      MessagesAppend(s.observer.tasks, [ProjectedEvent(s.observer.projected + 1, e)]);
    }
  }

  lemma {:induction false} EmitLate(conn: Connection, s: State, gaps: nat, w: nat, from: nat, e: StateEvent)
    requires Late(conn, s, gaps, w, from) && Enabled(s, Emit(e))
    ensures Late(conn, Next(conn, s, Emit(e)), gaps, w, from)
  {
    CountersKept(conn, s, Emit(e));
    if s.accepted && s.observer.emitting {
      EmitInFlight(conn, s, e);
      VisibleAfterGrows(conn, s.log, e, w);
      var v, due := Consume(conn, s.client, InFlight(s)), VisibleAfter(conn, s.log, w);
      if Visible(conn, e) {
        var m := Incremental(s.observer.projected + 1, e);
        assert (InFlight(s) + [m])[..|InFlight(s)|] == InFlight(s);
        BehindStep(conn, v, gaps, w, from, due, e);
      } else {
        assert due + [] == due && InFlight(s) + [] == InFlight(s);
      }
    }
  }

  lemma {:induction false} ReceiveLate(conn: Connection, s: State, gaps: nat, w: nat, from: nat)
    requires Late(conn, s, gaps, w, from) && Enabled(s, Receive)
    ensures Late(conn, Next(conn, s, Receive), gaps, w, from)
  {
    var t, ms := Next(conn, s, Receive), InFlight(s);
    CountersKept(conn, s, Receive);
    assert InFlight(t) == ms[1..] && ms == [ms[0]] + ms[1..];
    ConsumeAppend(conn, s.client, [ms[0]], ms[1..]);
    assert Consume(conn, s.client, [ms[0]]) == Reduce(conn, s.client, ms[0]) by {
      assert [ms[0]][..0] == [];
    }
  }

  lemma {:induction false} LateKept(conn: Connection, s: State, gaps: nat, w: nat, from: nat, a: Action)
    requires Late(conn, s, gaps, w, from) && Enabled(s, a) && !a.BeginSnapshot?
    ensures Late(conn, Next(conn, s, a), gaps, w, from)
  {
    match a
    case Emit(e) => EmitLate(conn, s, gaps, w, from, e);
    case Receive => ReceiveLate(conn, s, gaps, w, from);
    case RunTask => RunTaskLate(conn, s, gaps, w, from);
    case _ => CountersKept(conn, s, a);
  }

  lemma {:induction false} RunTaskLate(conn: Connection, s: State, gaps: nat, w: nat, from: nat)
    requires Late(conn, s, gaps, w, from) && Enabled(s, RunTask)
    ensures Late(conn, Next(conn, s, RunTask), gaps, w, from)
  {
    CountersKept(conn, s, RunTask);
    RunTaskInFlight(conn, s);
  }

  lemma {:induction false} LateRun(conn: Connection, s: State, gaps: nat, w: nat, from: nat, run: seq<Action>)
    requires Late(conn, s, gaps, w, from) && BeginSnapshot !in run && Run(conn, s, run).Some?
    ensures Late(conn, Run(conn, s, run).value, gaps, w, from)
  {
    if run != [] {
      var front, a := run[..|run| - 1], run[|run| - 1];
      assert run == front + [a];
      LateRun(conn, s, gaps, w, from, front);
      LateKept(conn, Run(conn, s, front).value, gaps, w, from, a);
    }
  }

  /** A run of the torn state up to the next snapshot request. */
  predicate Continues(conn: Connection, s: State, run: seq<Action>)
    requires s.barrier.Acked?
  {
    BeginSnapshot !in run && Run(conn, Torn(conn, s), run).Some?
  }

  /** The torn-write theorem: over every run up to the next snapshot request, once nothing is in flight the browser
      holds the visible events after the watermark less exactly the first `watermark - projected` of them, whenever
      they were emitted, and has seen no gap. */
  lemma {:induction false} TornWriteTheorem(conn: Connection, s: State, gaps: nat, run: seq<Action>)
    requires AboutToWrite(conn, s, gaps) && Continues(conn, s, run)
    ensures s.observer.projected <= s.barrier.watermark
    ensures
      var t := Run(conn, Torn(conn, s), run).value;
      Quiescent(t) ==>
        && Synced(conn, t.client) && t.client.base == s.barrier.watermark && t.client.gaps == gaps && !t.client.requestPending
        && t.client.applied == Survivors(VisibleAfter(conn, t.log, s.barrier.watermark), s.barrier.watermark - s.observer.projected)
  {
    var w := s.barrier.watermark;
    var t := Run(conn, Torn(conn, s), run).value;
    TornIsLate(conn, s, gaps);
    LateRun(conn, Torn(conn, s), gaps, w, s.observer.projected, run);
    if Quiescent(t) {
      assert InFlight(t) == [];
    }
  }

  // ---- exactly when nothing is ever lost --------------------------------------------------

  /** The browser is missing an event although nothing is in flight. */
  predicate Loses(conn: Connection, s: State, run: seq<Action>)
    requires s.barrier.Acked? && Continues(conn, s, run)
  {
    var t := Run(conn, Torn(conn, s), run).value;
    Quiescent(t) && t.client.applied != VisibleAfter(conn, t.log, s.barrier.watermark)
  }

  function NextVisible(conn: Connection, s: State): StateEvent {
    StateEvent(s.sequence + 1, ResultKind, Some(conn.epoch), "")
  }

  /** One visible event, then everything in flight delivered. */
  function OneMore(conn: Connection, s: State): seq<Action> {
    [Emit(NextVisible(conn, s))] + Drain(Next(conn, s, Emit(NextVisible(conn, s))))
  }

  lemma {:induction false} OneMoreAsksNothing(conn: Connection, s: State)
    ensures BeginSnapshot !in OneMore(conn, s)
  {
    var mid := Next(conn, s, Emit(NextVisible(conn, s)));
    RepeatMember(RunTask, |mid.observer.tasks|);
    RepeatMember(Receive, |mid.wire| + |mid.observer.tasks|);
  }

  lemma {:induction false} RunSingle(conn: Connection, s: State, a: Action)
    requires Enabled(s, a)
    ensures Run(conn, s, [a]) == Some(Next(conn, s, a))
  {
    RunOne(conn, s, [], a);
    assert [] + [a] == [a];
  }

  lemma {:induction false} OneMoreRuns(conn: Connection, s: State)
    requires s.accepted && s.observer.emitting && s.observer.attached && !s.observer.paused && s.barrier.Idle?
    ensures Run(conn, s, OneMore(conn, s)).Some?
    ensures
      var t := Run(conn, s, OneMore(conn, s)).value;
      Quiescent(t) && t.log == s.log + [NextVisible(conn, s)]
  {
    var emit := Emit(NextVisible(conn, s));
    var mid := Next(conn, s, emit);
    RunSingle(conn, s, emit);
    RunAppend(conn, s, [emit], Drain(mid));
    var t := DrainReaches(conn, mid);
  }

  lemma {:induction false} SurvivorsAll(due: seq<StateEvent>, behind: nat)
    ensures Survivors(due, behind) == due <==> behind == 0 || due == []
  {
    if behind > 0 && due != [] {
      assert |Survivors(due, behind)| < |due|;
    } else {
      assert due[0..] == due;
    }
  }

  lemma {:induction false} OneMoreDue(conn: Connection, s: State, w: nat, behind: nat)
    requires w <= s.sequence && behind > 0
    ensures
      var due := VisibleAfter(conn, s.log + [NextVisible(conn, s)], w);
      Survivors(due, behind) != due
  {
    var due, before, e := VisibleAfter(conn, s.log + [NextVisible(conn, s)], w), VisibleAfter(conn, s.log, w), NextVisible(conn, s);
    VisibleAfterGrows(conn, s.log, e, w);
    assert due == before + [e];
    assert |due| > 0;
    SurvivorsAll(due, behind);
  }

  lemma {:induction false} TornServed(conn: Connection, s: State, gaps: nat)
    requires AboutToWrite(conn, s, gaps)
    ensures
      var u := Torn(conn, s);
      && u.accepted && u.observer.emitting && u.observer.attached && !u.observer.paused && u.barrier.Idle?
      && s.barrier.watermark <= u.sequence
  {
    TornShape(conn, s);
  }

  lemma {:induction false} LosesOneMore(conn: Connection, s: State, gaps: nat)
    requires AboutToWrite(conn, s, gaps) && s.observer.projected != s.barrier.watermark
    ensures Continues(conn, s, OneMore(conn, Torn(conn, s))) && Loses(conn, s, OneMore(conn, Torn(conn, s)))
  {
    TornServed(conn, s, gaps);
    OneMoreRuns(conn, Torn(conn, s));
    OneMoreAsksNothing(conn, Torn(conn, s));
    TornWriteTheorem(conn, s, gaps, OneMore(conn, Torn(conn, s)));
    OneMoreDue(conn, Torn(conn, s), s.barrier.watermark, s.barrier.watermark - s.observer.projected);
  }

  /** No continuation ever loses an event if and only if the two counters agreed when the writer failed. */
  lemma {:induction false} TornWriteExactly(conn: Connection, s: State, gaps: nat)
    requires AboutToWrite(conn, s, gaps)
    ensures (forall run :: Continues(conn, s, run) ==> !Loses(conn, s, run)) <==> s.observer.projected == s.barrier.watermark
  {
    if s.observer.projected == s.barrier.watermark {
      forall run | Continues(conn, s, run) ensures !Loses(conn, s, run) {
        TornWriteTheorem(conn, s, gaps, run);
        SurvivorsAll(VisibleAfter(conn, Run(conn, Torn(conn, s), run).value.log, s.barrier.watermark), 0);
      }
    } else {
      LosesOneMore(conn, s, gaps);
    }
  }

  // ---- the counters do part ---------------------------------------------------------------

  function Hidden(s: State): StateEvent {
    StateEvent(s.sequence + 1, ResultKind, None, "")
  }

  /** An event of no epoch, then a request up to its acknowledgement. */
  function Parting(s: State): seq<Action> {
    [Emit(Hidden(s)), ClientReady, BeginSnapshot, Ack]
  }

  /** From every attachment a state with the counters apart and no visible event due is reached, and a torn write there
      loses the next visible event although none had arrived when the writer failed. */
  lemma {:induction false} TornWriteReachable(conn: Connection, s: State)
    requires Attached(conn, s)
    ensures Run(conn, s, Parting(s)).Some?
    ensures
      var t := Run(conn, s, Parting(s)).value;
      && AboutToWrite(conn, t, s.client.gaps) && t.observer.projected + 1 == t.barrier.watermark
      && VisibleAfter(conn, t.log, t.barrier.watermark) == []
      && Continues(conn, t, OneMore(conn, Torn(conn, t))) && Loses(conn, t, OneMore(conn, Torn(conn, t)))
  {
    PartingRuns(conn, s);
    RunInvariant(conn, s, Parting(s));
    var t := Run(conn, s, Parting(s)).value;
    NothingAfter(conn, t.log, t.barrier.watermark);
    LosesOneMore(conn, t, s.client.gaps);
  }

  lemma {:induction false} PartingRuns(conn: Connection, s: State)
    requires Attached(conn, s)
    ensures
      var w := s.sequence + 1;
      Run(conn, s, Parting(s)) == Some(s.(
        sequence := w, log := [Hidden(s)], ready := true, watermark := w, highest := Some(w), barrier := Acked(w),
        observer := s.observer.(paused := true)))
  {
    var emit, w := Emit(Hidden(s)), s.sequence + 1;
    RunTwo(conn, s, emit, ClientReady);
    var mid := s.(sequence := w, log := [Hidden(s)], ready := true);
    assert Next(conn, Next(conn, s, emit), ClientReady) == mid by {
      assert [] + [Hidden(s)] == [Hidden(s)];
    }
    RunTwo(conn, mid, BeginSnapshot, Ack);
    RunAppend(conn, s, [emit, ClientReady], [BeginSnapshot, Ack]);
    assert Parting(s) == [emit, ClientReady] + [BeginSnapshot, Ack];
  }
}
