/**
 The snapshot/incremental delivery protocol of one connection, as a step system: the session log,
 the observer, the publisher, the first-in-first-out writer, the snapshot barrier and the browser's
 reducer, interleaved in any order.
 */
module Delivery {
  import opened Base
  import opened Observers

  // ---- the browser's reducer --------------------------------------------------------------

  datatype Message =
    | Incremental(sequence: nat, event: StateEvent)
    | Snapshot(watermark: nat, epoch: nat)

  /** The reducer's bookkeeping. `base` and `applied` record the watermark of the last snapshot it
      installed and the incrementals it has applied since, oldest first. */
  datatype Client = Client(
    serverState: bool, epoch: Option<nat>, lastApplied: nat, lastSnapshot: nat,
    requestPending: bool, gaps: nat, base: nat, applied: seq<StateEvent>)

  function Reduce(conn: Connection, c: Client, m: Message): Client {
    match m
    case Snapshot(w, epoch) =>
      if w < Max(c.lastApplied, c.lastSnapshot) then c
      else if c.epoch.Some? && epoch < c.epoch.value then c
      else Client(true, Some(epoch), w, Max(c.lastSnapshot, w), false, c.gaps, w, [])
    case Incremental(n, event) =>
      if c.epoch.Some? && c.epoch != Some(conn.epoch) then c
      else if !c.serverState then c
      else if n == 0 || n <= c.lastApplied then c
      else if c.requestPending then c
      else if n < c.lastSnapshot then c
      else if n != c.lastApplied + 1 then c.(gaps := c.gaps + 1, requestPending := true)
      else c.(lastApplied := n, applied := c.applied + [event])
  }

  function Consume(conn: Connection, c: Client, ms: seq<Message>): Client {
    if ms == [] then c else Reduce(conn, Consume(conn, c, ms[..|ms| - 1]), ms[|ms| - 1])
  }

  // ---- the server side --------------------------------------------------------------------

  /** The barrier's progress; the watermark is the sequence stamped on the snapshot frame. */
  datatype Barrier =
    | Idle
    | Flushing(watermark: nat)
    | Acked(watermark: nat)
    | Written(watermark: nat)

  /** `accepted`: the host still accepts this epoch. `highest`: the per-session watermark kept by the
      snapshot validator, if it has not been evicted. `log`: every event of the session since the
      connection attached, oldest first. */
  datatype State = State(
    sequence: nat, log: seq<StateEvent>, accepted: bool,
    observer: Observer, barrier: Barrier,
    ready: bool, watermark: nat, highest: Option<nat>,
    wire: seq<Message>, client: Client)

  datatype Action =
    | Emit(event: StateEvent)
    | ClientReady
    | BeginSnapshot
    | Ack
    | WriteSnapshot
    | Install
    | Abort
    | RunTask
    | Receive
    | Retire
    | Detach
    | EvictWatermark

  predicate Enabled(s: State, a: Action) {
    match a
    case Emit(e) => s.sequence < e.sequence
    case ClientReady => s.accepted
    case BeginSnapshot => s.barrier.Idle? && s.accepted
    case Ack => s.barrier.Flushing?
    case WriteSnapshot => s.barrier.Acked?
    case Install => s.barrier.Written?
    case Abort => s.barrier.Flushing? || s.barrier.Acked?
    case RunTask => s.observer.tasks != []
    case Receive => s.wire != []
    case Retire => true
    case Detach => true
    case EvictWatermark => true
  }

  /** Building a snapshot raises exactly when its sequence is below the retained watermark. */
  predicate SnapshotRejected(s: State) {
    s.highest.Some? && s.sequence < s.highest.value
  }

  /** The synchronous head of one delivery attempt: pause, build and stamp the snapshot, or cancel. */
  function Begin(conn: Connection, s: State): State {
    var paused := Pause(s.observer);
    if SnapshotRejected(s) then
      s.(observer := Resume(conn, paused, None))
    else
      var kept := s.(highest := Some(s.sequence), watermark := Max(s.watermark, s.sequence));
      if !s.ready then kept.(observer := Resume(conn, paused, None))
      else kept.(observer := paused, watermark := s.sequence, barrier := Flushing(s.sequence))
  }

  /** One emit task: fenced by the epoch, else clamped into the watermark and queued. */
  function RunFirstTask(s: State): State
    requires s.observer.tasks != []
  {
    var task := s.observer.tasks[0];
    var popped := s.(observer := s.observer.(tasks := s.observer.tasks[1..]));
    if !s.accepted then popped
    else popped.(watermark := Max(s.watermark, task.sequence),
                 wire := s.wire + [Incremental(task.sequence, task.event)])
  }

  function Next(conn: Connection, s: State, a: Action): State
    requires Enabled(s, a)
  {
    match a
    case Emit(e) => s.(sequence := e.sequence, log := s.log + [e], observer := OnEvent(conn, s.observer, e))
    case ClientReady => s.(ready := true)
    case BeginSnapshot => Begin(conn, s)
    case Ack => s.(barrier := Acked(s.barrier.watermark))
    case WriteSnapshot =>
      s.(barrier := Written(s.barrier.watermark), wire := s.wire + [Snapshot(s.barrier.watermark, conn.epoch)])
    case Install =>
      s.(barrier := Idle, observer := Resume(conn, s.observer, Some(s.barrier.watermark)))
    case Abort => s.(barrier := Idle, observer := Resume(conn, s.observer, None))
    case RunTask => RunFirstTask(s)
    case Receive => s.(client := Reduce(conn, s.client, s.wire[0]), wire := s.wire[1..])
    case Retire => s.(accepted := false)
    case Detach => s.(observer := Unsubscribe(s.observer))
    case EvictWatermark => s.(highest := None)
  }

  /** The state after `run`, or none when some action of it is not enabled where it stands. */
  function Run(conn: Connection, s: State, run: seq<Action>): Option<State> {
    if run == [] then Some(s)
    else
      var before := Run(conn, s, run[..|run| - 1]);
      if before.Some? && Enabled(before.value, run[|run| - 1])
      then Some(Next(conn, before.value, run[|run| - 1]))
      else None
  }

  /** A freshly attached connection: seeded at the session's sequence and subscribed. The browser may
      carry the bookkeeping of an earlier connection of the session, a pending request included. */
  predicate Attached(conn: Connection, s: State) {
    && s.log == [] && s.wire == [] && s.accepted && s.barrier.Idle? && !s.ready && s.watermark == 0
    && s.highest.None?
    && s.observer == Observer(s.sequence, true, true, false, [], [])
    && s.client.lastApplied <= s.sequence && s.client.lastSnapshot <= s.sequence
    && (s.client.epoch.Some? ==> s.client.epoch.value < conn.epoch)
    && (s.client.epoch.None? ==> !s.client.serverState)
  }

  // ---- what has to hold -------------------------------------------------------------------

  /** The visible events of the log numbered above `w` by the session. */
  function VisibleAfter(conn: Connection, log: seq<StateEvent>, w: nat): seq<StateEvent> {
    if log == [] then []
    else
      var last := log[|log| - 1];
      VisibleAfter(conn, log[..|log| - 1], w) +
      (if Visible(conn, last) && w < last.sequence then [last] else [])
  }

  /** The browser has installed a snapshot of this connection. */
  predicate Synced(conn: Connection, c: Client) {
    c.serverState && c.epoch == Some(conn.epoch)
  }

  /** What the browser shows: no new gap, and the visible events after its snapshot, in order, each once. */
  predicate Faithful(conn: Connection, log: seq<StateEvent>, gaps: nat, c: Client) {
    && c.gaps == gaps
    && (Synced(conn, c) ==>
          && !c.requestPending && c.base <= c.lastApplied && c.lastSnapshot <= c.lastApplied
          && c.applied <= VisibleAfter(conn, log, c.base))
    && (!Synced(conn, c) ==> if c.epoch.Some? then c.epoch.value < conn.epoch else !c.serverState)
  }

  function Messages(tasks: seq<ProjectedEvent>): seq<Message> {
    seq(|tasks|, i requires 0 <= i < |tasks| => Incremental(tasks[i].sequence, tasks[i].event))
  }

  /** Everything already on its way to the browser: the wire, then the tasks that will still be written. */
  function InFlight(s: State): seq<Message> {
    s.wire + if s.accepted then Messages(s.observer.tasks) else []
  }

  /** The number the next visible event will continue from. */
  function Frontier(s: State): nat {
    if s.barrier.Written? then s.barrier.watermark else s.observer.projected
  }

  predicate Ascending(events: seq<StateEvent>, above: int, upTo: int) {
    && (forall i :: 0 <= i < |events| ==> above < events[i].sequence <= upTo)
    && (forall i, j :: 0 <= i < j < |events| ==> events[i].sequence < events[j].sequence)
  }

  /** The two counters: the session's sequence stays ahead of everything numbered for the connection. */
  predicate CountersOk(s: State) {
    && s.observer.projected + |s.observer.buffer| <= s.sequence
    && s.watermark <= s.sequence
    && (s.highest.Some? ==> s.highest.value <= s.sequence)
    && (forall i :: 0 <= i < |s.observer.tasks| ==> s.observer.tasks[i].sequence <= s.observer.projected)
    && (s.barrier.Idle? ==> !s.observer.paused && s.observer.buffer == [])
    && (!s.observer.paused ==> s.observer.buffer == [])
    && (!s.barrier.Idle? ==>
          && s.observer.projected <= s.barrier.watermark
          && s.barrier.watermark + |s.observer.buffer| <= s.sequence
          && Ascending(s.observer.buffer, s.barrier.watermark, s.sequence)
          && (s.observer.emitting ==> s.observer.paused && s.observer.attached))
    && (s.observer.emitting ==> s.observer.attached)
    && Ascending(s.log, -1, s.sequence)
  }

  /** Once everything in flight is consumed the browser stands at the frontier, and what it has applied
      together with what is still buffered is every visible event after its snapshot. */
  predicate CaughtUp(conn: Connection, s: State, gaps: nat, c: Client) {
    && Faithful(conn, s.log, gaps, c)
    && c.lastApplied <= Frontier(s) && c.lastSnapshot <= Frontier(s)
    && (Synced(conn, c) && s.accepted && s.observer.emitting ==>
          && c.lastApplied == Frontier(s)
          && c.applied + VisibleOf(conn, s.observer.buffer) == VisibleAfter(conn, s.log, c.base))
  }

  /** The browser is faithful now and after every prefix of what is in flight. */
  predicate FaithfulThroughout(conn: Connection, log: seq<StateEvent>, gaps: nat, c: Client, ms: seq<Message>) {
    forall k :: 0 <= k <= |ms| ==> Faithful(conn, log, gaps, Consume(conn, c, ms[..k]))
  }

  /** While a barrier is open the buffer holds every visible event after its watermark. */
  predicate BufferOk(conn: Connection, s: State) {
    !s.barrier.Idle? && s.observer.emitting ==>
      VisibleOf(conn, s.observer.buffer) == VisibleAfter(conn, s.log, s.barrier.watermark)
  }

  predicate Invariant(conn: Connection, s: State, gaps: nat) {
    && CountersOk(s)
    && BufferOk(conn, s)
    && FaithfulThroughout(conn, s.log, gaps, s.client, InFlight(s))
    && CaughtUp(conn, s, gaps, Consume(conn, s.client, InFlight(s)))
  }

  // ---- consuming what is in flight --------------------------------------------------------

  lemma {:induction false} ConsumeAppend(conn: Connection, c: Client, a: seq<Message>, b: seq<Message>)
    ensures Consume(conn, c, a + b) == Consume(conn, Consume(conn, c, a), b)
  {
    if b == [] {
      assert a + b == a;
    } else {
      ConsumeAppend(conn, c, a, b[..|b| - 1]);
      assert (a + b)[..|a + b| - 1] == a + b[..|b| - 1];
    }
  }

  /** Consuming never moves the browser's counters back. */
  lemma {:induction false} ConsumeMonotone(conn: Connection, c: Client, ms: seq<Message>)
    ensures c.lastApplied <= Consume(conn, c, ms).lastApplied
    ensures c.lastSnapshot <= Consume(conn, c, ms).lastSnapshot
  {
    if ms != [] {
      ConsumeMonotone(conn, c, ms[..|ms| - 1]);
    }
  }

  lemma {:induction false} FaithfulAppend(conn: Connection, log: seq<StateEvent>, gaps: nat, c: Client, a: seq<Message>, b: seq<Message>)
    requires FaithfulThroughout(conn, log, gaps, c, a)
    requires FaithfulThroughout(conn, log, gaps, Consume(conn, c, a), b)
    ensures FaithfulThroughout(conn, log, gaps, c, a + b)
  {
    forall k | 0 <= k <= |a + b|
      ensures Faithful(conn, log, gaps, Consume(conn, c, (a + b)[..k]))
    {
      if k <= |a| {
        assert (a + b)[..k] == a[..k];
      } else {
        assert (a + b)[..k] == a + b[..k - |a|];
        ConsumeAppend(conn, c, a, b[..k - |a|]);
      }
    }
  }

  lemma {:induction false} FaithfulPrefix(conn: Connection, log: seq<StateEvent>, gaps: nat, c: Client, a: seq<Message>, b: seq<Message>)
    requires FaithfulThroughout(conn, log, gaps, c, a + b)
    ensures FaithfulThroughout(conn, log, gaps, c, a)
    ensures Faithful(conn, log, gaps, Consume(conn, c, a))
  {
    forall k | 0 <= k <= |a|
      ensures Faithful(conn, log, gaps, Consume(conn, c, a[..k]))
    {
      assert (a + b)[..k] == a[..k];
    }
    assert a[..|a|] == a;
  }

  lemma {:induction false} FaithfulTail(conn: Connection, log: seq<StateEvent>, gaps: nat, c: Client, ms: seq<Message>)
    requires ms != [] && FaithfulThroughout(conn, log, gaps, c, ms)
    ensures FaithfulThroughout(conn, log, gaps, Reduce(conn, c, ms[0]), ms[1..])
    ensures Consume(conn, Reduce(conn, c, ms[0]), ms[1..]) == Consume(conn, c, ms)
  {
    var one := [ms[0]];
    assert Consume(conn, c, one) == Reduce(conn, c, ms[0]) by {
      assert one[..0] == [];
    }
    forall k | 0 <= k <= |ms| - 1
      ensures Consume(conn, Reduce(conn, c, ms[0]), ms[1..][..k]) == Consume(conn, c, ms[..k + 1])
    {
      assert ms[..k + 1] == one + ms[1..][..k];
      ConsumeAppend(conn, c, one, ms[1..][..k]);
    }
    assert ms[1..][..|ms| - 1] == ms[1..] && ms[..|ms|] == ms;
  }

  lemma {:induction false} VisibleAfterGrows(conn: Connection, log: seq<StateEvent>, e: StateEvent, w: nat)
    ensures VisibleAfter(conn, log + [e], w) ==
            VisibleAfter(conn, log, w) + if Visible(conn, e) && w < e.sequence then [e] else []
  {
    assert (log + [e])[..|log|] == log;
  }

  lemma {:induction false} FaithfulLogGrows(conn: Connection, log: seq<StateEvent>, e: StateEvent, gaps: nat, c: Client, ms: seq<Message>)
    requires FaithfulThroughout(conn, log, gaps, c, ms)
    ensures FaithfulThroughout(conn, log + [e], gaps, c, ms)
  {
    forall k | 0 <= k <= |ms|
      ensures Faithful(conn, log + [e], gaps, Consume(conn, c, ms[..k]))
    {
      assert Faithful(conn, log, gaps, Consume(conn, c, ms[..k]));
      VisibleAfterGrows(conn, log, e, Consume(conn, c, ms[..k]).base);
    }
  }

  /** Incrementals numbered at or below the installed watermark, or sent to a browser still waiting
      for a snapshot of this connection, change nothing. */
  lemma {:induction false} StaleChangesNothing(
    conn: Connection, log: seq<StateEvent>, gaps: nat, c: Client, tasks: seq<ProjectedEvent>)
    requires Faithful(conn, log, gaps, c)
    requires Synced(conn, c) ==> forall i :: 0 <= i < |tasks| ==> tasks[i].sequence <= c.lastApplied
    ensures Consume(conn, c, Messages(tasks)) == c
    ensures FaithfulThroughout(conn, log, gaps, c, Messages(tasks))
  {
    if tasks == [] {
      assert Messages(tasks) == [];
    } else {
      var front := tasks[..|tasks| - 1];
      assert Messages(tasks)[..|front|] == Messages(front);
      assert Messages(tasks) == Messages(front) + [Messages(tasks)[|front|]];
      StaleChangesNothing(conn, log, gaps, c, front);
      var one := [Messages(tasks)[|front|]];
      assert FaithfulThroughout(conn, log, gaps, c, one) by {
        assert one[..0] == [] && one[..1] == one;
      }
      FaithfulAppend(conn, log, gaps, c, Messages(front), one);
    }
  }

  lemma {:induction false} ConsumeOne(conn: Connection, c: Client, ms: seq<Message>, m: Message)
    ensures Consume(conn, c, ms + [m]) == Reduce(conn, Consume(conn, c, ms), m)
  {
    assert (ms + [m])[..|ms|] == ms;
  }

  lemma {:induction false} MessagesOne(from: nat, front: seq<StateEvent>, last: StateEvent)
    ensures Messages(Numbered(from, front + [last])) == Messages(Numbered(from, front)) + [Incremental(from + |front| + 1, last)]
  {
  }

  lemma {:induction false} FaithfulOne(conn: Connection, log: seq<StateEvent>, gaps: nat, c: Client, ms: seq<Message>, m: Message)
    requires FaithfulThroughout(conn, log, gaps, c, ms) && Faithful(conn, log, gaps, Consume(conn, c, ms + [m]))
    ensures FaithfulThroughout(conn, log, gaps, c, ms + [m])
  {
    forall k | 0 <= k <= |ms + [m]| ensures Faithful(conn, log, gaps, Consume(conn, c, (ms + [m])[..k])) {
      if k <= |ms| {
        assert (ms + [m])[..k] == ms[..k];
      } else {
        assert (ms + [m])[..k] == ms + [m];
      }
    }
  }

  /** The next number is applied. */
  lemma {:induction false} NextApplied(conn: Connection, log: seq<StateEvent>, gaps: nat, c: Client, e: StateEvent)
    requires Faithful(conn, log, gaps, c) && Synced(conn, c) && c.applied + [e] <= VisibleAfter(conn, log, c.base)
    ensures Reduce(conn, c, Incremental(c.lastApplied + 1, e)) == c.(lastApplied := c.lastApplied + 1, applied := c.applied + [e])
    ensures Faithful(conn, log, gaps, c.(lastApplied := c.lastApplied + 1, applied := c.applied + [e]))
  {
  }

  /** A synced browser standing at `from` applies a contiguous batch in full. */
  lemma {:induction false} ContiguousAllApplied(
    conn: Connection, log: seq<StateEvent>, gaps: nat, c: Client, from: nat, events: seq<StateEvent>)
    requires Faithful(conn, log, gaps, c) && Synced(conn, c) && c.lastApplied == from
    requires c.applied + events <= VisibleAfter(conn, log, c.base)
    ensures Consume(conn, c, Messages(Numbered(from, events))) ==
            c.(lastApplied := from + |events|, applied := c.applied + events)
    ensures FaithfulThroughout(conn, log, gaps, c, Messages(Numbered(from, events)))
    ensures Faithful(conn, log, gaps, c.(lastApplied := from + |events|, applied := c.applied + events))
  {
    if events == [] {
      assert Messages(Numbered(from, events)) == [] && c.applied + events == c.applied;
    } else {
      var front, last := events[..|events| - 1], events[|events| - 1];
      var ms, m := Messages(Numbered(from, front)), Incremental(from + |front| + 1, last);
      assert events == front + [last] && c.applied + events == c.applied + front + [last];
      assert c.applied + front <= c.applied + events;
      ContiguousAllApplied(conn, log, gaps, c, from, front);
      NextApplied(conn, log, gaps, c.(lastApplied := from + |front|, applied := c.applied + front), last);
      ConsumeOne(conn, c, ms, m);
      FaithfulOne(conn, log, gaps, c, ms, m);
      MessagesOne(from, front, last);
    }
  }

  lemma {:induction false} MessagesAppend(a: seq<ProjectedEvent>, b: seq<ProjectedEvent>)
    ensures Messages(a + b) == Messages(a) + Messages(b)
  {
  }

  /** Scheduling the visible `events` right after the frontier keeps the browser faithful and caught up. */
  lemma {:induction false} ExtendInFlight(conn: Connection, log: seq<StateEvent>, gaps: nat, c: Client, ms: seq<Message>,
                       from: nat, events: seq<StateEvent>)
    requires FaithfulThroughout(conn, log, gaps, c, ms)
    requires
      var v := Consume(conn, c, ms);
      Synced(conn, v) ==> v.lastApplied == from && v.applied + events <= VisibleAfter(conn, log, v.base)
    ensures FaithfulThroughout(conn, log, gaps, c, ms + Messages(Numbered(from, events)))
    ensures
      var v := Consume(conn, c, ms);
      Consume(conn, c, ms + Messages(Numbered(from, events))) ==
      if Synced(conn, v) then v.(lastApplied := from + |events|, applied := v.applied + events) else v
  {
    var v := Consume(conn, c, ms);
    assert ms[..|ms|] == ms;
    if Synced(conn, v) {
      ContiguousAllApplied(conn, log, gaps, v, from, events);
    } else {
      StaleChangesNothing(conn, log, gaps, v, Numbered(from, events));
    }
    FaithfulAppend(conn, log, gaps, c, ms, Messages(Numbered(from, events)));
    ConsumeAppend(conn, c, ms, Messages(Numbered(from, events)));
  }

  // ---- every action keeps the counters ----------------------------------------------------

  /** The observer after a replay: unpaused, drained, and ahead of `from` by the visible events kept. */
  lemma {:induction false} ReplayShape(conn: Connection, o: Observer, watermark: Option<nat>)
    requires watermark.Some? ==> forall e :: e in o.buffer ==> watermark.value < e.sequence
    ensures
      var from := if watermark.Some? then watermark.value else o.projected;
      var shown := if o.emitting then VisibleOf(conn, o.buffer) else [];
      Resume(conn, o, watermark) ==
      o.(projected := from + |shown|, tasks := o.tasks + Numbered(from, shown), buffer := [], paused := false)
    ensures |VisibleOf(conn, o.buffer)| <= |o.buffer|
  {
    ReplayedAll(o.buffer, watermark);
    VisibleOfBound(conn, o.buffer);
    var seeded := if watermark.Some? then o.(projected := watermark.value) else o;
    DeliverAllNumbers(conn, seeded, o.buffer);
    assert o.tasks + Numbered(seeded.projected, []) == o.tasks;
  }

  lemma {:induction false} AscendingGrows(events: seq<StateEvent>, e: StateEvent, above: int, upTo: int)
    requires Ascending(events, above, upTo) && upTo < e.sequence && above < e.sequence
    ensures Ascending(events + [e], above, e.sequence)
  {
  }

  lemma {:induction false} EmitCounters(conn: Connection, s: State, e: StateEvent)
    requires CountersOk(s) && Enabled(s, Emit(e))
    ensures CountersOk(Next(conn, s, Emit(e)))
  {
    AscendingGrows(s.log, e, -1, s.sequence);
    if !s.barrier.Idle? {
      AscendingGrows(s.observer.buffer, e, s.barrier.watermark, s.sequence);
    }
  }

  lemma {:induction false} BeginCounters(conn: Connection, s: State)
    requires CountersOk(s) && Enabled(s, BeginSnapshot)
    ensures CountersOk(Next(conn, s, BeginSnapshot))
  {
    ReplayShape(conn, Pause(s.observer), None);
    assert s.observer.tasks + Numbered(s.observer.projected, []) == s.observer.tasks;
  }

  /** A replay from a number the session's sequence leaves room for keeps every number below the sequence. */
  lemma {:induction false} ReplayCounters(conn: Connection, s: State, watermark: Option<nat>)
    requires CountersOk(s) && !s.barrier.Idle? && (watermark.Some? ==> watermark.value == s.barrier.watermark)
    ensures CountersOk(s.(barrier := Idle, observer := Resume(conn, s.observer, watermark)))
  {
    ReplayShape(conn, s.observer, watermark);
  }

  lemma {:induction false} RunTaskCounters(conn: Connection, s: State)
    requires CountersOk(s) && Enabled(s, RunTask)
    ensures CountersOk(Next(conn, s, RunTask))
  {
    var tasks := s.observer.tasks;
    assert tasks[0].sequence <= s.observer.projected;
    assert forall i :: 0 <= i < |tasks[1..]| ==> tasks[1..][i] == tasks[i + 1];
  }

  lemma {:induction false} DetachCounters(conn: Connection, s: State)
    requires CountersOk(s)
    ensures CountersOk(Next(conn, s, Detach))
  {
  }

  /** The remaining actions leave the observer, the log and the sequence alone. */
  lemma {:induction false} OtherCounters(s: State, t: State)
    requires CountersOk(s) && t.observer == s.observer && t.log == s.log && t.sequence == s.sequence
    requires t.watermark == s.watermark && (t.highest == s.highest || t.highest.None?)
    requires t.barrier.Idle? == s.barrier.Idle? && (!s.barrier.Idle? ==> t.barrier.watermark == s.barrier.watermark)
    ensures CountersOk(t)
  {
  }

  /** A barrier's own steps leave the observer, the log and the sequence alone, and so do receipts and readiness. */
  lemma {:induction false} QuietCounters(conn: Connection, s: State, a: Action)
    requires CountersOk(s) && Enabled(s, a)
    requires a.ClientReady? || a.Ack? || a.WriteSnapshot? || a.Receive? || a.Retire? || a.EvictWatermark?
    ensures CountersOk(Next(conn, s, a))
  {
    OtherCounters(s, Next(conn, s, a));
  }

  lemma {:induction false} WatermarksRise(conn: Connection, s: State, a: Action)
    requires CountersOk(s) && Enabled(s, a)
    ensures s.sequence <= Next(conn, s, a).sequence
    ensures s.watermark <= Next(conn, s, a).watermark
    ensures !SnapshotRejected(s)
  {
  }

  lemma {:induction false} CountersKept(conn: Connection, s: State, a: Action)
    requires CountersOk(s) && Enabled(s, a)
    ensures CountersOk(Next(conn, s, a))
    ensures s.sequence <= Next(conn, s, a).sequence
    ensures s.watermark <= Next(conn, s, a).watermark
    ensures !SnapshotRejected(s)
  {
    WatermarksRise(conn, s, a);
    match a
    case Emit(e) => EmitCounters(conn, s, e);
    case BeginSnapshot => BeginCounters(conn, s);
    case Install => ReplayCounters(conn, s, Some(s.barrier.watermark));
    case Abort => ReplayCounters(conn, s, None);
    case RunTask => RunTaskCounters(conn, s);
    case Detach => DetachCounters(conn, s);
    case _ => QuietCounters(conn, s, a);
  }

  // ---- every action keeps the invariant ---------------------------------------------------

  /** A new event leaves what is in flight faithful, and lies above the base of a synced browser. */
  lemma {:induction false} EmitContext(conn: Connection, s: State, gaps: nat, e: StateEvent)
    requires Invariant(conn, s, gaps) && s.sequence < e.sequence
    ensures
      var v := Consume(conn, s.client, InFlight(s));
      && FaithfulThroughout(conn, s.log + [e], gaps, s.client, InFlight(s))
      && Faithful(conn, s.log + [e], gaps, v)
      && (Synced(conn, v) ==>
            VisibleAfter(conn, s.log + [e], v.base) ==
            VisibleAfter(conn, s.log, v.base) + if Visible(conn, e) then [e] else [])
  {
    var v := Consume(conn, s.client, InFlight(s));
    FaithfulLogGrows(conn, s.log, e, gaps, s.client, InFlight(s));
    assert InFlight(s)[..|InFlight(s)|] == InFlight(s);
    VisibleAfterGrows(conn, s.log, e, v.base);
  }

  /** A buffered event joins the buffer and the log alike. */
  lemma {:induction false} BufferedBoth(conn: Connection, log: seq<StateEvent>, buffer: seq<StateEvent>, e: StateEvent, w: nat, applied: seq<StateEvent>)
    requires w < e.sequence && applied + VisibleOf(conn, buffer) == VisibleAfter(conn, log, w)
    ensures applied + VisibleOf(conn, buffer + [e]) == VisibleAfter(conn, log + [e], w)
  {
    VisibleOfAppend(conn, buffer, [e]);
    VisibleAfterGrows(conn, log, e, w);
    var shown := if Visible(conn, e) then [e] else [];
    assert VisibleOf(conn, [e]) == shown;
    assert applied + (VisibleOf(conn, buffer) + shown) == applied + VisibleOf(conn, buffer) + shown;
  }

  lemma {:induction false} EmitBufferedKept(conn: Connection, s: State, gaps: nat, e: StateEvent)
    requires Invariant(conn, s, gaps) && Enabled(s, Emit(e))
    requires s.observer.attached && s.observer.paused
    ensures Invariant(conn, Next(conn, s, Emit(e)), gaps)
  {
    var t := Next(conn, s, Emit(e));
    CountersKept(conn, s, Emit(e));
    EmitContext(conn, s, gaps, e);
    assert InFlight(t) == InFlight(s);
    var v, buffer := Consume(conn, s.client, InFlight(s)), s.observer.buffer;
    if Synced(conn, v) && s.accepted && s.observer.emitting {
      BufferedBoth(conn, s.log, buffer, e, v.base, v.applied);
    }
    if !s.barrier.Idle? && s.observer.emitting {
      assert [] + VisibleOf(conn, buffer) == VisibleOf(conn, buffer);
      BufferedBoth(conn, s.log, buffer, e, s.barrier.watermark, []);
      assert [] + VisibleOf(conn, t.observer.buffer) == VisibleOf(conn, t.observer.buffer);
    }
  }

  lemma {:induction false} EmitDeliveredKept(conn: Connection, s: State, gaps: nat, e: StateEvent)
    requires Invariant(conn, s, gaps) && Enabled(s, Emit(e))
    requires !s.observer.paused && s.observer.attached && s.observer.emitting && Visible(conn, e)
    ensures Invariant(conn, Next(conn, s, Emit(e)), gaps)
  {
    var t := Next(conn, s, Emit(e));
    CountersKept(conn, s, Emit(e));
    EmitContext(conn, s, gaps, e);
    var o := s.observer;
    if s.accepted {
      var v := Consume(conn, s.client, InFlight(s));
      assert Numbered(o.projected, [e]) == [ProjectedEvent(o.projected + 1, e)];
      MessagesAppend(o.tasks, Numbered(o.projected, [e]));
      assert InFlight(t) == InFlight(s) + Messages(Numbered(o.projected, [e]));
      assert v.applied + VisibleOf(conn, o.buffer) == v.applied;
      ExtendInFlight(conn, t.log, gaps, s.client, InFlight(s), o.projected, [e]);
      assert v.applied + [e] + VisibleOf(conn, t.observer.buffer) == v.applied + [e];
    } else {
      assert InFlight(t) == InFlight(s);
    }
  }

  lemma {:induction false} EmitKept(conn: Connection, s: State, gaps: nat, e: StateEvent)
    requires Invariant(conn, s, gaps) && Enabled(s, Emit(e))
    ensures Invariant(conn, Next(conn, s, Emit(e)), gaps)
  {
    var o := s.observer;
    if o.attached && o.paused {
      EmitBufferedKept(conn, s, gaps, e);
    } else if o.attached && o.emitting && Visible(conn, e) {
      EmitDeliveredKept(conn, s, gaps, e);
    } else {
      CountersKept(conn, s, Emit(e));
      EmitContext(conn, s, gaps, e);
      assert InFlight(Next(conn, s, Emit(e))) == InFlight(s);
    }
  }

  /** Changing nothing the browser can see or expect keeps the invariant. */
  lemma {:induction false} FrameKept(conn: Connection, s: State, t: State, gaps: nat)
    requires Invariant(conn, s, gaps) && CountersOk(t) && BufferOk(conn, t)
    requires t.log == s.log && t.client == s.client && t.accepted == s.accepted
    requires InFlight(t) == InFlight(s) && Frontier(s) <= Frontier(t)
    requires t.observer.emitting ==> s.observer.emitting
    requires t.accepted && t.observer.emitting ==> Frontier(t) == Frontier(s) && t.observer.buffer == s.observer.buffer
    ensures Invariant(conn, t, gaps)
  {
  }

  /** The state a replay leaves: the visible buffered events are scheduled right after the frontier. */
  predicate ReplayedTo(conn: Connection, s: State, t: State) {
    var o := s.observer;
    var shown := if o.emitting then VisibleOf(conn, o.buffer) else [];
    && t.sequence == s.sequence && t.log == s.log && t.accepted == s.accepted && t.wire == s.wire && t.client == s.client
    && t.barrier.Idle?
    && t.observer == o.(projected := Frontier(s) + |shown|, tasks := o.tasks + Numbered(Frontier(s), shown),
                        buffer := [], paused := false)
  }

  lemma {:induction false} ReplayInFlight(conn: Connection, s: State, t: State)
    requires ReplayedTo(conn, s, t) && s.accepted && s.observer.emitting
    ensures InFlight(t) == InFlight(s) + Messages(Numbered(Frontier(s), VisibleOf(conn, s.observer.buffer)))
  {
    MessagesAppend(s.observer.tasks, Numbered(Frontier(s), VisibleOf(conn, s.observer.buffer)));
  }

  /** The browser that has also consumed the replayed events stands at the new frontier with nothing left buffered. */
  lemma {:induction false} ReplayCaughtUp(conn: Connection, s: State, gaps: nat, t: State, v: Client, u: Client)
    requires ReplayedTo(conn, s, t) && s.accepted && s.observer.emitting && CaughtUp(conn, s, gaps, v)
    requires
      var shown := VisibleOf(conn, s.observer.buffer);
      u == if Synced(conn, v) then v.(lastApplied := Frontier(s) + |shown|, applied := v.applied + shown) else v
    ensures CaughtUp(conn, t, gaps, u)
  {
    assert u.applied + VisibleOf(conn, []) == u.applied;
  }

  lemma {:induction false} ReplayKept(conn: Connection, s: State, gaps: nat, t: State)
    requires Invariant(conn, s, gaps) && ReplayedTo(conn, s, t) && CountersOk(t)
    ensures Invariant(conn, t, gaps)
  {
    if s.accepted && s.observer.emitting {
      var shown, v := VisibleOf(conn, s.observer.buffer), Consume(conn, s.client, InFlight(s));
      ReplayInFlight(conn, s, t);
      ExtendInFlight(conn, s.log, gaps, s.client, InFlight(s), Frontier(s), shown);
      ReplayCaughtUp(conn, s, gaps, t, v, Consume(conn, s.client, InFlight(t)));
    } else {
      FrameKept(conn, s, t, gaps);
    }
  }

  lemma {:induction false} NothingAfter(conn: Connection, log: seq<StateEvent>, w: nat)
    requires forall i :: 0 <= i < |log| ==> log[i].sequence <= w
    ensures VisibleAfter(conn, log, w) == []
  {
    if log != [] {
      NothingAfter(conn, log[..|log| - 1], w);
    }
  }

  lemma {:induction false} BeginKept(conn: Connection, s: State, gaps: nat)
    requires Invariant(conn, s, gaps) && Enabled(s, BeginSnapshot)
    ensures Invariant(conn, Next(conn, s, BeginSnapshot), gaps)
  {
    var t := Next(conn, s, BeginSnapshot);
    CountersKept(conn, s, BeginSnapshot);
    NothingAfter(conn, s.log, s.sequence);
    if !s.ready {
      ReplayShape(conn, Pause(s.observer), None);
      assert s.observer.tasks + Numbered(s.observer.projected, []) == s.observer.tasks;
    }
    FrameKept(conn, s, t, gaps);
  }

  /** A snapshot written behind the wire and ahead of the tasks: the browser installs it, and every
      task still to be written is numbered at or below its watermark. */
  lemma {:induction false} SnapshotInserted(conn: Connection, log: seq<StateEvent>, gaps: nat, c: Client, wire: seq<Message>,
                         tasks: seq<ProjectedEvent>, tail: seq<Message>, w: nat)
    requires FaithfulThroughout(conn, log, gaps, c, wire + tail)
    requires tail == Messages(tasks) || tail == []
    requires forall i :: 0 <= i < |tasks| ==> tasks[i].sequence <= w
    requires Consume(conn, c, wire + tail).lastApplied <= w && Consume(conn, c, wire + tail).lastSnapshot <= w
    ensures FaithfulThroughout(conn, log, gaps, c, wire + [Snapshot(w, conn.epoch)] + tail)
    ensures
      var v := Consume(conn, c, wire + [Snapshot(w, conn.epoch)] + tail);
      Synced(conn, v) && v.lastApplied == w && v.lastSnapshot == w && v.base == w && v.applied == [] &&
      Faithful(conn, log, gaps, v)
  {
    FaithfulPrefix(conn, log, gaps, c, wire, tail);
    var d := Consume(conn, c, wire);
    ConsumeAppend(conn, c, wire, tail);
    ConsumeMonotone(conn, d, tail);
    var one := [Snapshot(w, conn.epoch)];
    var installed := Consume(conn, d, one);
    assert d.lastApplied <= w && d.lastSnapshot <= w;
    assert installed == Reduce(conn, d, one[0]) by {
      assert one[..0] == [] && Consume(conn, d, one[..0]) == d;
    }
    assert d.epoch.Some? ==> d.epoch.value <= conn.epoch;
    assert installed == Client(true, Some(conn.epoch), w, w, false, d.gaps, w, []);
    assert FaithfulThroughout(conn, log, gaps, d, one) by {
      assert one[..0] == [] && one[..1] == one;
    }
    FaithfulAppend(conn, log, gaps, c, wire, one);
    ConsumeAppend(conn, c, wire, one);
    StaleChangesNothing(conn, log, gaps, installed, tasks);
    FaithfulAppend(conn, log, gaps, c, wire + one, tail);
    ConsumeAppend(conn, c, wire + one, tail);
  }

  lemma {:induction false} WriteKept(conn: Connection, s: State, gaps: nat)
    requires Invariant(conn, s, gaps) && Enabled(s, WriteSnapshot)
    ensures Invariant(conn, Next(conn, s, WriteSnapshot), gaps)
  {
    var t := Next(conn, s, WriteSnapshot);
    CountersKept(conn, s, WriteSnapshot);
    var tail := if s.accepted then Messages(s.observer.tasks) else [];
    var w := s.barrier.watermark;
    SnapshotInserted(conn, s.log, gaps, s.client, s.wire, s.observer.tasks, tail, w);
    assert InFlight(t) == s.wire + [Snapshot(w, conn.epoch)] + tail;
    assert [] + VisibleOf(conn, s.observer.buffer) == VisibleOf(conn, s.observer.buffer);
  }

  lemma {:induction false} RunTaskKept(conn: Connection, s: State, gaps: nat)
    requires Invariant(conn, s, gaps) && Enabled(s, RunTask)
    ensures Invariant(conn, Next(conn, s, RunTask), gaps)
  {
    CountersKept(conn, s, RunTask);
    RunTaskInFlight(conn, s);
    FrameKept(conn, s, Next(conn, s, RunTask), gaps);
  }

  lemma {:induction false} RunTaskInFlight(conn: Connection, s: State)
    requires Enabled(s, RunTask)
    ensures InFlight(Next(conn, s, RunTask)) == InFlight(s)
  {
    var tasks := s.observer.tasks;
    assert tasks == [tasks[0]] + tasks[1..];
    MessagesAppend([tasks[0]], tasks[1..]);
    assert Messages([tasks[0]]) == [Incremental(tasks[0].sequence, tasks[0].event)];
  }

  lemma {:induction false} ReceiveKept(conn: Connection, s: State, gaps: nat)
    requires Invariant(conn, s, gaps) && Enabled(s, Receive)
    ensures Invariant(conn, Next(conn, s, Receive), gaps)
  {
    var t := Next(conn, s, Receive);
    CountersKept(conn, s, Receive);
    FaithfulTail(conn, s.log, gaps, s.client, InFlight(s));
    ReceiveInFlight(conn, s);
    assert t.observer == s.observer && t.log == s.log && t.barrier == s.barrier && t.accepted == s.accepted;
  }

  lemma {:induction false} ReceiveInFlight(conn: Connection, s: State)
    requires Enabled(s, Receive)
    ensures InFlight(s) != [] && InFlight(s)[0] == s.wire[0] && InFlight(Next(conn, s, Receive)) == InFlight(s)[1..]
  {
  }

  lemma {:induction false} RetireKept(conn: Connection, s: State, gaps: nat)
    requires Invariant(conn, s, gaps)
    ensures Invariant(conn, Next(conn, s, Retire), gaps)
  {
    CountersKept(conn, s, Retire);
    var tail := if s.accepted then Messages(s.observer.tasks) else [];
    FaithfulPrefix(conn, s.log, gaps, s.client, s.wire, tail);
    ConsumeAppend(conn, s.client, s.wire, tail);
    ConsumeMonotone(conn, Consume(conn, s.client, s.wire), tail);
    assert InFlight(Next(conn, s, Retire)) == s.wire;
  }

  lemma {:induction false} InstallKept(conn: Connection, s: State, gaps: nat)
    requires Invariant(conn, s, gaps) && Enabled(s, Install)
    ensures Invariant(conn, Next(conn, s, Install), gaps)
  {
    CountersKept(conn, s, Install);
    ReplayShape(conn, s.observer, Some(s.barrier.watermark));
    ReplayKept(conn, s, gaps, Next(conn, s, Install));
  }

  lemma {:induction false} AbortKept(conn: Connection, s: State, gaps: nat)
    requires Invariant(conn, s, gaps) && Enabled(s, Abort)
    ensures Invariant(conn, Next(conn, s, Abort), gaps)
  {
    CountersKept(conn, s, Abort);
    ReplayShape(conn, s.observer, None);
    ReplayKept(conn, s, gaps, Next(conn, s, Abort));
  }

  lemma {:induction false} InvariantKept(conn: Connection, s: State, gaps: nat, a: Action)
    requires Invariant(conn, s, gaps) && Enabled(s, a)
    ensures Invariant(conn, Next(conn, s, a), gaps)
  {
    match a
    case Emit(e) => EmitKept(conn, s, gaps, e);
    case BeginSnapshot => BeginKept(conn, s, gaps);
    case WriteSnapshot => WriteKept(conn, s, gaps);
    case Install => InstallKept(conn, s, gaps);
    case Abort => AbortKept(conn, s, gaps);
    case RunTask => RunTaskKept(conn, s, gaps);
    case Receive => ReceiveKept(conn, s, gaps);
    case Retire => RetireKept(conn, s, gaps);
    case _ =>
      CountersKept(conn, s, a);
      assert InFlight(Next(conn, s, a)) == InFlight(s);
  }

  lemma {:induction false} AttachedInvariant(conn: Connection, s: State)
    requires Attached(conn, s)
    ensures Invariant(conn, s, s.client.gaps)
  {
    assert InFlight(s) == [];
  }

  // ---- whole runs -------------------------------------------------------------------------

  lemma {:induction false} RunInvariant(conn: Connection, s: State, run: seq<Action>)
    requires Attached(conn, s) && Run(conn, s, run).Some?
    ensures Invariant(conn, Run(conn, s, run).value, s.client.gaps)
  {
    if run == [] {
      AttachedInvariant(conn, s);
    } else {
      RunInvariant(conn, s, run[..|run| - 1]);
      InvariantKept(conn, Run(conn, s, run[..|run| - 1]).value, s.client.gaps, run[|run| - 1]);
    }
  }

  /** Nothing is left on its way to a browser that is still served. */
  predicate Quiescent(s: State) {
    s.wire == [] && s.observer.tasks == [] && s.barrier.Idle? && s.accepted && s.observer.emitting
  }

  /** The delivery theorem: in every run from attachment the browser never detects a gap; what it has
      applied since its snapshot `base` is a prefix of the visible events the session emitted after
      `base`, in order and once each; and whenever nothing is left in flight it is all of them. */
  lemma {:induction false} DeliveryTheorem(conn: Connection, s: State, run: seq<Action>)
    requires Attached(conn, s) && Run(conn, s, run).Some?
    ensures
      var t := Run(conn, s, run).value;
      && t.client.gaps == s.client.gaps
      && (Synced(conn, t.client) ==>
            && !t.client.requestPending
            && t.client.applied <= VisibleAfter(conn, t.log, t.client.base))
      && (Synced(conn, t.client) && Quiescent(t) ==>
            && t.client.applied == VisibleAfter(conn, t.log, t.client.base)
            && t.client.lastApplied == t.observer.projected)
  {
    RunInvariant(conn, s, run);
    var t := Run(conn, s, run).value;
    assert InFlight(t)[..0] == [];
    if Quiescent(t) {
      assert InFlight(t) == [];
      assert t.client.applied + VisibleOf(conn, []) == t.client.applied;
    }
  }

  /** The counter theorem: numbers handed to the connection stay at or below the session's sequence, so a
      snapshot taken now is never below anything already numbered, queued or stamped; building it is
      never refused; and no action moves the publisher's watermark back. */
  lemma {:induction false} CounterTheorem(conn: Connection, s: State, run: seq<Action>, a: Action)
    requires Attached(conn, s) && Run(conn, s, run).Some?
    requires Enabled(Run(conn, s, run).value, a)
    ensures
      var t := Run(conn, s, run).value;
      && t.observer.projected + |t.observer.buffer| <= t.sequence
      && (forall i :: 0 <= i < |t.observer.tasks| ==> t.observer.tasks[i].sequence <= t.sequence)
      && t.client.lastApplied <= t.sequence
      && t.watermark <= Next(conn, t, a).watermark
      && !SnapshotRejected(t)
  {
    RunInvariant(conn, s, run);
    var t := Run(conn, s, run).value;
    CountersKept(conn, t, a);
    ConsumeMonotone(conn, t.client, InFlight(t));
  }
}
