/**
 What a connection is shown, in terms of the events' own fields: only its own epoch, only the wire vocabulary, work
 status only where it was negotiated, and of those everything; and nothing at all before it is ready or once retired.
 */
module DeliveryFilter {
  import opened Base
  import opened Observers
  import opened Delivery
  import opened DeliveryBarrier

  /** The kinds every connection may be sent. */
  const AlwaysVisible: set<Kind> :=
    {RuntimeSnapshotKind, ResultKind, SpeechProgressKind, WorkerKind, RoutingKind, UserTranscriptKind, BotTranscriptKind}

  /** Whether the connection is entitled to the event. */
  predicate Entitled(conn: Connection, e: StateEvent) {
    && e.epoch.Some? && e.epoch.value == conn.epoch
    && (e.kind in AlwaysVisible || (e.kind == WorkStatusKind && conn.supportsWorkStatus))
  }

  /** The observer's filter admits exactly what the connection is entitled to. */
  lemma {:induction false} VisibleMeaning(conn: Connection, e: StateEvent)
    ensures Visible(conn, e) <==> Entitled(conn, e)
  {
  }

  /** An event the connection is not entitled to leaves the observer as it was: no task and no number; one it is
      entitled to takes the next number. */
  lemma {:induction false} DeliverMeaning(conn: Connection, o: Observer, e: StateEvent)
    ensures !Entitled(conn, e) ==> Deliver(conn, o, e) == o
    ensures Entitled(conn, e) && o.emitting ==>
              Deliver(conn, o, e).tasks == o.tasks + [ProjectedEvent(o.projected + 1, e)] && Deliver(conn, o, e).projected == o.projected + 1
  {
    VisibleMeaning(conn, e);
  }

  predicate TasksEntitled(conn: Connection, tasks: seq<ProjectedEvent>) {
    forall i :: 0 <= i < |tasks| ==> Entitled(conn, tasks[i].event)
  }

  predicate WireEntitled(conn: Connection, wire: seq<Message>) {
    forall i :: 0 <= i < |wire| && wire[i].Incremental? ==> Entitled(conn, wire[i].event)
  }

  lemma {:induction false} DeliverAllEntitled(conn: Connection, o: Observer, events: seq<StateEvent>)
    requires TasksEntitled(conn, o.tasks)
    ensures TasksEntitled(conn, DeliverAll(conn, o, events).tasks)
  {
    if events != [] {
      DeliverAllEntitled(conn, o, events[..|events| - 1]);
      VisibleMeaning(conn, events[|events| - 1]);
    }
  }

  lemma {:induction false} ResumeEntitled(conn: Connection, o: Observer, watermark: Option<nat>)
    requires TasksEntitled(conn, o.tasks)
    ensures TasksEntitled(conn, Resume(conn, o, watermark).tasks)
  {
    var seeded := if watermark.Some? then o.(projected := watermark.value) else o;
    DeliverAllEntitled(conn, seeded, Replayed(o.buffer, watermark));
  }

  lemma {:induction false} TasksKept(conn: Connection, s: State, a: Action)
    requires TasksEntitled(conn, s.observer.tasks) && Enabled(s, a)
    ensures TasksEntitled(conn, Next(conn, s, a).observer.tasks)
  {
    match a
    case Emit(e) => VisibleMeaning(conn, e);
    case BeginSnapshot => ResumeEntitled(conn, Pause(s.observer), None);
    case Install => ResumeEntitled(conn, s.observer, Some(s.barrier.watermark));
    case Abort => ResumeEntitled(conn, s.observer, None);
    case RunTask =>
    case _ =>
  }

  lemma {:induction false} WireKept(conn: Connection, s: State, a: Action)
    requires TasksEntitled(conn, s.observer.tasks) && WireEntitled(conn, s.wire) && Enabled(s, a)
    ensures WireEntitled(conn, Next(conn, s, a).wire)
  {
  }

  lemma {:induction false} RunEntitled(conn: Connection, s: State, run: seq<Action>)
    requires Attached(conn, s) && Run(conn, s, run).Some?
    ensures
      var t := Run(conn, s, run).value;
      TasksEntitled(conn, t.observer.tasks) && WireEntitled(conn, t.wire)
  {
    if run != [] {
      var front, a := run[..|run| - 1], run[|run| - 1];
      RunEntitled(conn, s, front);
      TasksKept(conn, Run(conn, s, front).value, a);
      WireKept(conn, Run(conn, s, front).value, a);
    }
  }

  lemma {:induction false} VisibleAfterMember(conn: Connection, log: seq<StateEvent>, w: nat, e: StateEvent)
    ensures e in VisibleAfter(conn, log, w) <==> e in log && w < e.sequence && Entitled(conn, e)
  {
    if log != [] {
      var front, last := log[..|log| - 1], log[|log| - 1];
      VisibleAfterMember(conn, front, w, e);
      VisibleMeaning(conn, last);
      assert log == front + [last];
    }
  }

  /** The filter theorem: in every run from attachment only events the connection is entitled to are scheduled, queued
      or applied; and whenever nothing is left in flight a synced browser holds every logged event above its snapshot
      that it is entitled to. */
  lemma {:induction false} FilterTheorem(conn: Connection, s: State, run: seq<Action>)
    requires Attached(conn, s) && Run(conn, s, run).Some?
    ensures
      var t := Run(conn, s, run).value;
      && TasksEntitled(conn, t.observer.tasks) && WireEntitled(conn, t.wire)
      && (Synced(conn, t.client) ==> forall e :: e in t.client.applied ==> e in t.log && t.client.base < e.sequence && Entitled(conn, e))
      && (Synced(conn, t.client) && Quiescent(t) ==>
            forall e :: e in t.log && t.client.base < e.sequence && Entitled(conn, e) ==> e in t.client.applied)
  {
    var t := Run(conn, s, run).value;
    RunEntitled(conn, s, run);
    DeliveryTheorem(conn, s, run);
    var due := VisibleAfter(conn, t.log, t.client.base);
    forall e ensures e in due <==> e in t.log && t.client.base < e.sequence && Entitled(conn, e) {
      VisibleAfterMember(conn, t.log, t.client.base, e);
    }
    if Synced(conn, t.client) {
      assert forall e :: e in t.client.applied ==> e in due;
    }
  }

  // ---- before the first and after the last message ----------------------------------------

  predicate NoSnapshot(wire: seq<Message>) {
    forall i :: 0 <= i < |wire| ==> wire[i].Incremental?
  }

  /** Without readiness no barrier opens, no snapshot is queued and the browser has none of this connection. */
  predicate Silent(conn: Connection, s: State) {
    !s.ready ==> s.barrier.Idle? && NoSnapshot(s.wire) && !Synced(conn, s.client)
  }

  lemma {:induction false} SilentKept(conn: Connection, s: State, a: Action)
    requires Silent(conn, s) && Enabled(s, a)
    ensures Silent(conn, Next(conn, s, a))
  {
  }

  /** In every run a snapshot reaches the browser only after the client declared itself ready. */
  lemma {:induction false} NothingBeforeReady(conn: Connection, s: State, run: seq<Action>)
    requires Attached(conn, s) && Run(conn, s, run).Some?
    ensures Silent(conn, Run(conn, s, run).value)
    ensures Run(conn, s, run).value.ready ==> ClientReady in run
  {
    if run != [] {
      var front, a := run[..|run| - 1], run[|run| - 1];
      NothingBeforeReady(conn, s, front);
      SilentKept(conn, Run(conn, s, front).value, a);
      assert run == front + [a];
    }
  }

  /** A request that cannot be served, because the client is not ready or its snapshot is refused, opens no barrier, queues
      nothing and leaves a settled observer as it was, listening again. */
  lemma {:induction false} UnservedRequest(conn: Connection, s: State)
    requires s.barrier.Idle? && !s.observer.paused && s.observer.buffer == [] && (!s.ready || SnapshotRejected(s))
    ensures
      var t := Begin(conn, s);
      && t.barrier.Idle? && t.wire == s.wire && t.client == s.client && t.log == s.log
      && t.observer == s.observer.(attached := true)
      && (SnapshotRejected(s) ==> t.watermark == s.watermark && t.highest == s.highest)
  {
    ReplayShape(conn, Pause(s.observer), None);
    assert s.observer.tasks + Numbered(s.observer.projected, []) == s.observer.tasks;
  }

  /** A queued message that was not queued before is a snapshot. */
  predicate OnlySnapshotsAdded(before: seq<Message>, after: seq<Message>) {
    forall i :: 0 <= i < |after| && after[i].Incremental? ==> after[i] in before
  }

  lemma {:induction false} RetiredStep(conn: Connection, s: State, a: Action)
    requires !s.accepted && Enabled(s, a)
    ensures !Next(conn, s, a).accepted && OnlySnapshotsAdded(s.wire, Next(conn, s, a).wire)
  {
  }

  /** Once the host no longer accepts the epoch, no event is queued to the connection again. */
  lemma {:induction false} NothingOnceRetired(conn: Connection, s: State, run: seq<Action>)
    requires !s.accepted && Run(conn, s, run).Some?
    ensures !Run(conn, s, run).value.accepted && OnlySnapshotsAdded(s.wire, Run(conn, s, run).value.wire)
  {
    if run != [] {
      var front, a := run[..|run| - 1], run[|run| - 1];
      NothingOnceRetired(conn, s, front);
      RetiredStep(conn, Run(conn, s, front).value, a);
    }
  }

  /** A retirement is final. */
  lemma {:induction false} RetiredForGood(conn: Connection, s: State, run: seq<Action>)
    requires Run(conn, s, run).Some? && Retire in run
    ensures !Run(conn, s, run).value.accepted
  {
    var front, a := run[..|run| - 1], run[|run| - 1];
    assert run == front + [a];
    if a != Retire {
      RetiredForGood(conn, s, front);
    }
  }

  // ---- the publisher's watermark ----------------------------------------------------------

  function Number(m: Message): nat {
    if m.Incremental? then m.sequence else m.watermark
  }

  /** The publisher's watermark covers everything queued and the snapshot a barrier is about to write. */
  predicate Covered(s: State) {
    && (forall i :: 0 <= i < |s.wire| ==> Number(s.wire[i]) <= s.watermark)
    && (!s.barrier.Idle? ==> s.barrier.watermark <= s.watermark)
  }

  lemma {:induction false} CoveredKept(conn: Connection, s: State, a: Action)
    requires Covered(s) && CountersOk(s) && Enabled(s, a)
    ensures Covered(Next(conn, s, a))
  {
    WatermarksRise(conn, s, a);
  }

  /** In every run the publisher's watermark is at or above every number it has put on the wire. */
  lemma {:induction false} WatermarkCovers(conn: Connection, s: State, run: seq<Action>)
    requires Attached(conn, s) && Run(conn, s, run).Some?
    ensures Covered(Run(conn, s, run).value)
  {
    if run != [] {
      var front, a := run[..|run| - 1], run[|run| - 1];
      WatermarkCovers(conn, s, front);
      RunInvariant(conn, s, front);
      CoveredKept(conn, Run(conn, s, front).value, a);
    }
  }

  // ---- the browser, whatever it is sent ---------------------------------------------------

  /** What the browser applied since its snapshot is numbered without a gap. */
  predicate Contiguous(c: Client) {
    c.lastApplied == c.base + |c.applied|
  }

  /** The events since the snapshot were all carried by messages with just those numbers. */
  predicate Carried(c: Client, ms: seq<Message>) {
    forall i :: 0 <= i < |c.applied| ==> Incremental(c.base + 1 + i, c.applied[i]) in ms
  }

  /** Whatever messages arrive, lost, repeated or reordered, the browser applies consecutive numbers only, and a number
      it had to skip to costs it a new snapshot. */
  lemma {:induction false} ReducerTheorem(conn: Connection, c: Client, ms: seq<Message>)
    requires c.applied == [] && c.lastApplied == c.base
    ensures
      var d := Consume(conn, c, ms);
      Contiguous(d) && Carried(d, ms)
  {
    if ms != [] {
      var front, m := ms[..|ms| - 1], ms[|ms| - 1];
      ReducerTheorem(conn, c, front);
      assert ms == front + [m];
      ReduceCarries(conn, Consume(conn, c, front), front, m);
    }
  }

  lemma {:induction false} ReduceCarries(conn: Connection, c: Client, ms: seq<Message>, m: Message)
    requires Contiguous(c) && Carried(c, ms)
    ensures Contiguous(Reduce(conn, c, m)) && Carried(Reduce(conn, c, m), ms + [m])
  {
    var d := Reduce(conn, c, m);
    assert m in ms + [m];
    forall i | 0 <= i < |d.applied| ensures Incremental(d.base + 1 + i, d.applied[i]) in ms + [m] {
      if i < |c.applied| {
        assert Incremental(c.base + 1 + i, c.applied[i]) in ms;
      }
    }
  }

  /** A skipped number is counted, asks for a snapshot, and until one comes nothing further is applied. */
  lemma {:induction false} GapStops(conn: Connection, c: Client, m: Message, ms: seq<Message>)
    requires Synced(conn, c) && !c.requestPending && c.lastSnapshot <= c.lastApplied
    requires m.Incremental? && c.lastApplied + 1 < m.sequence && NoSnapshot(ms)
    ensures Consume(conn, Reduce(conn, c, m), ms) == c.(gaps := c.gaps + 1, requestPending := true)
  {
    if ms != [] {
      var front, last := ms[..|ms| - 1], ms[|ms| - 1];
      GapStops(conn, c, m, front);
      assert last.Incremental?;
    }
  }

  /** A snapshot is refused exactly when it is older than what the browser has, by number or by epoch; an accepted one
      starts afresh from its watermark with nothing pending. */
  lemma {:induction false} SnapshotMeaning(conn: Connection, c: Client, w: nat, epoch: nat)
    ensures
      var d := Reduce(conn, c, Snapshot(w, epoch));
      var older := w < c.lastApplied || w < c.lastSnapshot || (c.epoch.Some? && epoch < c.epoch.value);
      && (older ==> d == c)
      && (!older ==> d.base == w && d.lastApplied == w && d.lastSnapshot == w && d.applied == [] && d.serverState &&
                     d.epoch == Some(epoch) && !d.requestPending && d.gaps == c.gaps)
  {
  }
}
