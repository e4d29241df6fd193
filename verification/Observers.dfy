/**
 One connection's projection of the authoritative event log: visibility, the connection-local
 sequence, the pause buffer and the snapshot barrier.

 `Observer` is the value of a `RuntimeObserver`; the functions on it specify the class's methods,
 and the delivery protocol is proved over them.
 */
module Observers {
  import opened Base

  /** Event kinds of the session log; `OtherKind` is any kind outside the wire vocabulary. */
  datatype Kind =
    | RuntimeSnapshotKind | ResultKind | SpeechProgressKind | WorkerKind | RoutingKind
    | UserTranscriptKind | BotTranscriptKind | WorkStatusKind | OtherKind

  datatype StateEvent = StateEvent(sequence: nat, kind: Kind, epoch: Option<nat>, payload: string)

  /** The `kind`, `data` and `origin_epoch` of a projected event are those of `event`. */
  datatype ProjectedEvent = ProjectedEvent(sequence: nat, event: StateEvent)

  /** What is bound to a promoted epoch: the epoch and whether `work_status_v1` was negotiated. */
  datatype Connection = Connection(epoch: nat, supportsWorkStatus: bool)

  predicate Visible(conn: Connection, e: StateEvent) {
    && e.epoch == Some(conn.epoch)
    && (e.kind.WorkStatusKind? ==> conn.supportsWorkStatus)
    && !e.kind.OtherKind?
  }

  /** The visible events of `events`, in order. */
  function VisibleOf(conn: Connection, events: seq<StateEvent>): seq<StateEvent> {
    if events == [] then []
    else VisibleOf(conn, events[..|events| - 1]) +
         (if Visible(conn, events[|events| - 1]) then [events[|events| - 1]] else [])
  }

  /** `attached`: the raw listener is on the session log. `emitting`: an emit target is installed.
      `tasks`: emit tasks scheduled and not yet run, oldest first. */
  datatype Observer = Observer(
    projected: nat, attached: bool, emitting: bool, paused: bool,
    buffer: seq<StateEvent>, tasks: seq<ProjectedEvent>)

  function Deliver(conn: Connection, o: Observer, e: StateEvent): Observer {
    if !o.emitting || !Visible(conn, e) then o
    else o.(projected := o.projected + 1,
            tasks := o.tasks + [ProjectedEvent(o.projected + 1, e)])
  }

  function DeliverAll(conn: Connection, o: Observer, events: seq<StateEvent>): Observer {
    if events == [] then o
    else Deliver(conn, DeliverAll(conn, o, events[..|events| - 1]), events[|events| - 1])
  }

  function OnEvent(conn: Connection, o: Observer, e: StateEvent): Observer {
    if !o.attached then o
    else if o.paused then o.(buffer := o.buffer + [e])
    else Deliver(conn, o, e)
  }

  function OnEvents(conn: Connection, o: Observer, events: seq<StateEvent>): Observer {
    if events == [] then o
    else OnEvent(conn, OnEvents(conn, o, events[..|events| - 1]), events[|events| - 1])
  }

  function Pause(o: Observer): Observer {
    o.(paused := true, attached := true)
  }

  /** Buffered events a replay keeps: all of them after an abort, those above the watermark after an install. */
  function Replayed(events: seq<StateEvent>, watermark: Option<nat>): seq<StateEvent> {
    if events == [] then []
    else
      var last := events[|events| - 1];
      Replayed(events[..|events| - 1], watermark) +
      (if watermark.Some? && last.sequence <= watermark.value then [] else [last])
  }

  function Resume(conn: Connection, o: Observer, watermark: Option<nat>): Observer {
    var seeded := if watermark.Some? then o.(projected := watermark.value) else o;
    DeliverAll(conn, seeded, Replayed(o.buffer, watermark)).(buffer := [], paused := false)
  }

  function Unsubscribe(o: Observer): Observer {
    o.(attached := false, emitting := false, paused := false, buffer := [])
  }

  // ---- numbering --------------------------------------------------------------------------

  /** `events` numbered consecutively from `from + 1`. */
  function Numbered(from: nat, events: seq<StateEvent>): (r: seq<ProjectedEvent>) {
    seq(|events|, i requires 0 <= i < |events| => ProjectedEvent(from + 1 + i, events[i]))
  }

  /** Delivering a batch numbers its visible events contiguously and schedules them in order. */
  lemma {:induction false} DeliverAllNumbers(conn: Connection, o: Observer, events: seq<StateEvent>)
    ensures o.emitting ==>
              DeliverAll(conn, o, events) ==
              o.(projected := o.projected + |VisibleOf(conn, events)|,
                 tasks := o.tasks + Numbered(o.projected, VisibleOf(conn, events)))
    ensures !o.emitting ==> DeliverAll(conn, o, events) == o
  {
    if events == [] {
      assert o.tasks + Numbered(o.projected, []) == o.tasks;
    } else {
      var front, last := events[..|events| - 1], events[|events| - 1];
      DeliverAllNumbers(conn, o, front);
      if o.emitting && Visible(conn, last) {
        var shown := VisibleOf(conn, front);
        assert Numbered(o.projected, shown + [last]) ==
               Numbered(o.projected, shown) + [ProjectedEvent(o.projected + |shown| + 1, last)];
      }
    }
  }

  /** Delivering neither reads nor changes the buffer and the pause flag. */
  lemma {:induction false} DeliverAllIgnores(conn: Connection, o: Observer, events: seq<StateEvent>, buffer: seq<StateEvent>, paused: bool)
    ensures DeliverAll(conn, o.(buffer := buffer, paused := paused), events) ==
            DeliverAll(conn, o, events).(buffer := buffer, paused := paused)
  {
    if events != [] {
      DeliverAllIgnores(conn, o, events[..|events| - 1], buffer, paused);
    }
  }

  lemma {:induction false} VisibleOfAppend(conn: Connection, a: seq<StateEvent>, b: seq<StateEvent>)
    ensures VisibleOf(conn, a + b) == VisibleOf(conn, a) + VisibleOf(conn, b)
  {
    if b == [] {
      assert a + b == a;
    } else {
      VisibleOfAppend(conn, a, b[..|b| - 1]);
      assert (a + b)[..|a + b| - 1] == a + b[..|b| - 1];
    }
  }

  lemma {:induction false} VisibleOfBound(conn: Connection, events: seq<StateEvent>)
    ensures |VisibleOf(conn, events)| <= |events|
    ensures forall e :: e in VisibleOf(conn, events) ==> e in events && Visible(conn, e)
  {
    if events != [] {
      VisibleOfBound(conn, events[..|events| - 1]);
    }
  }

  lemma {:induction false} ReplayedAll(events: seq<StateEvent>, watermark: Option<nat>)
    requires watermark.Some? ==> forall e :: e in events ==> watermark.value < e.sequence
    ensures Replayed(events, watermark) == events
  {
    if events != [] {
      var front, last := events[..|events| - 1], events[|events| - 1];
      assert events == front + [last];
      assert last in events && forall e :: e in front ==> e in events;
      ReplayedAll(front, watermark);
    }
  }

  predicate InOrder(events: seq<StateEvent>) {
    forall i, j :: 0 <= i < j < |events| ==> events[i].sequence < events[j].sequence
  }

  /** The watermark falls between the first `n` events and the rest. */
  predicate SplitAt(events: seq<StateEvent>, watermark: nat, n: nat) {
    && n <= |events| && (forall i :: 0 <= i < n ==> events[i].sequence <= watermark)
    && (forall i :: n <= i < |events| ==> watermark < events[i].sequence)
  }

  /** A buffer in session order is split by every watermark. */
  lemma {:induction false} SplitExists(events: seq<StateEvent>, watermark: nat) returns (n: nat)
    requires InOrder(events)
    ensures SplitAt(events, watermark, n)
  {
    n := |events|;
    while n > 0 && watermark < events[n - 1].sequence
      invariant 0 <= n <= |events|
      invariant forall i :: n <= i < |events| ==> watermark < events[i].sequence
    {
      n := n - 1;
    }
  }

  /** An install replays exactly the tail above its watermark. */
  lemma {:induction false} ReplayedTail(events: seq<StateEvent>, watermark: nat, n: nat)
    requires SplitAt(events, watermark, n)
    ensures Replayed(events, Some(watermark)) == events[n..]
  {
    if events != [] {
      var front, last := events[..|events| - 1], events[|events| - 1];
      assert events == front + [last];
      ReplayedOne(front, last, Some(watermark));
      if n == |events| {
        ReplayedTail(front, watermark, n - 1);
      } else {
        ReplayedTail(front, watermark, n);
        assert events[n..] == front[n..] + [last];
      }
    }
  }

  lemma {:induction false} ReplayedOne(front: seq<StateEvent>, last: StateEvent, watermark: Option<nat>)
    ensures Replayed(front + [last], watermark) ==
            Replayed(front, watermark) + if watermark.Some? && last.sequence <= watermark.value then [] else [last]
  {
    assert (front + [last])[..|front|] == front;
  }

  lemma {:induction false} PausedBuffers(conn: Connection, o: Observer, events: seq<StateEvent>)
    requires o.paused && o.attached
    ensures OnEvents(conn, o, events) == o.(buffer := o.buffer + events)
  {
    if events == [] {
      assert o.buffer + [] == o.buffer;
    } else {
      PausedBuffers(conn, o, events[..|events| - 1]);
      assert events == events[..|events| - 1] + [events[|events| - 1]];
    }
  }

  lemma {:induction false} UnpausedDelivers(conn: Connection, o: Observer, events: seq<StateEvent>)
    requires !o.paused && o.attached
    ensures OnEvents(conn, o, events) == DeliverAll(conn, o, events)
    ensures !DeliverAll(conn, o, events).paused && DeliverAll(conn, o, events).attached
    ensures DeliverAll(conn, o, events).buffer == o.buffer
  {
    if events != [] {
      UnpausedDelivers(conn, o, events[..|events| - 1]);
    }
  }

  lemma {:induction false} OnEventsAppend(conn: Connection, o: Observer, a: seq<StateEvent>, b: seq<StateEvent>)
    ensures OnEvents(conn, o, a + b) == OnEvents(conn, OnEvents(conn, o, a), b)
  {
    if b == [] {
      assert a + b == a;
    } else {
      OnEventsAppend(conn, o, a, b[..|b| - 1]);
      assert (a + b)[..|a + b| - 1] == a + b[..|b| - 1];
    }
  }

  /** Pausing, buffering any events and aborting is the same as never having paused. */
  lemma {:induction false} AbortIsTransparent(conn: Connection, o: Observer, events: seq<StateEvent>)
    requires !o.paused && o.attached && o.buffer == []
    ensures Resume(conn, OnEvents(conn, Pause(o), events), None) == OnEvents(conn, o, events)
  {
    PausedBuffers(conn, Pause(o), events);
    ReplayedAll(events, None);
    UnpausedDelivers(conn, o, events);
    DeliverAllNumbers(conn, o, events);
    DeliverAllNumbers(conn, Pause(o).(buffer := events), events);
    assert [] + events == events;
  }

  /** An install numbers exactly the visible buffered events above the watermark, from the watermark on. */
  lemma {:induction false} InstallRenumbers(conn: Connection, o: Observer, events: seq<StateEvent>, watermark: nat)
    requires !o.paused && o.attached && o.emitting && o.buffer == []
    ensures
      var kept := VisibleOf(conn, Replayed(events, Some(watermark)));
      Resume(conn, OnEvents(conn, Pause(o), events), Some(watermark)) ==
      o.(projected := watermark + |kept|, tasks := o.tasks + Numbered(watermark, kept))
  {
    PausedBuffers(conn, Pause(o), events);
    assert [] + events == events;
    var seeded := Pause(o).(buffer := events, projected := watermark);
    DeliverAllNumbers(conn, seeded, Replayed(events, Some(watermark)));
  }

  /** One turn of the replay loop. */
  lemma {:induction false} ReplayStep(conn: Connection, o: Observer, buffer: seq<StateEvent>, i: nat, watermark: Option<nat>)
    requires i < |buffer|
    ensures
      var before := DeliverAll(conn, o, Replayed(buffer[..i], watermark));
      DeliverAll(conn, o, Replayed(buffer[..i + 1], watermark)) ==
      if watermark.Some? && buffer[i].sequence <= watermark.value then before else Deliver(conn, before, buffer[i])
  {
    var kept := Replayed(buffer[..i], watermark);
    assert buffer[..i + 1][..i] == buffer[..i];
    assert kept + [] == kept && (kept + [buffer[i]])[..|kept|] == kept;
  }

  // ---- the objects ------------------------------------------------------------------------

  class RuntimeObserver {
    const conn: Connection
    var projectedSequence: nat
    var attached: bool
    var emitting: bool
    var paused: bool
    var buffer: seq<StateEvent>
    var tasks: seq<ProjectedEvent>

    ghost function View(): Observer
      reads this
    {
      Observer(projectedSequence, attached, emitting, paused, buffer, tasks)
    }

    constructor (conn: Connection)
      ensures this.conn == conn
      ensures View() == Observer(0, false, false, false, [], [])
    {
      this.conn := conn;
      projectedSequence, attached, emitting, paused, buffer, tasks := 0, false, false, false, [], [];
    }

    method Seed(sequence: nat)
      modifies this
      ensures View() == old(View()).(projected := sequence)
    {
      projectedSequence := sequence;
    }

    method DeliverEvent(e: StateEvent)
      modifies this
      ensures View() == Deliver(conn, old(View()), e)
    {
      if !emitting {
        return;
      }
      if Visible(conn, e) {
        projectedSequence := projectedSequence + 1;
        tasks := tasks + [ProjectedEvent(projectedSequence, e)];
      }
    }

    method Listen(e: StateEvent)
      modifies this
      ensures View() == OnEvent(conn, old(View()), e)
    {
      if attached {
        if paused {
          buffer := buffer + [e];
        } else {
          DeliverEvent(e);
        }
      }
    }

    /** The events a suspended caller misses: each reaches the listener in turn. */
    method ListenAll(events: seq<StateEvent>)
      modifies this
      ensures View() == OnEvents(conn, old(View()), events)
    {
      var i := 0;
      while i < |events|
        invariant 0 <= i <= |events|
        invariant View() == OnEvents(conn, old(View()), events[..i])
      {
        assert events[..i + 1][..i] == events[..i];
        Listen(events[i]);
        i := i + 1;
      }
      assert events[..i] == events;
    }

    method Subscribe()
      modifies this
      ensures View() == old(View()).(attached := true, emitting := true)
    {
      attached, emitting := true, true;
    }

    method Detach()
      modifies this
      ensures View() == Unsubscribe(old(View()))
    {
      attached, emitting, paused, buffer := false, false, false, [];
    }

    method PauseDelivery()
      modifies this
      ensures View() == Pause(old(View()))
    {
      paused, attached := true, true;
    }

    method ResumeDelivery(watermark: Option<nat>)
      modifies this
      ensures View() == Resume(conn, old(View()), watermark)
    {
      if watermark.Some? {
        Seed(watermark.value);
      }
      ReplayBuffer(watermark);
      buffer, paused := [], false;
    }

    /** The drain, still paused, by index over the buffer. */
    method ReplayBuffer(watermark: Option<nat>)
      modifies this
      ensures View() == DeliverAll(conn, old(View()), Replayed(old(buffer), watermark))
    {
      ghost var seeded := View();
      var index := 0;
      while index < |buffer|
        invariant 0 <= index <= |buffer|
        invariant buffer == seeded.buffer
        invariant View() == DeliverAll(conn, seeded, Replayed(buffer[..index], watermark))
      {
        var event := buffer[index];
        ReplayStep(conn, seeded, buffer, index, watermark);
        if !(watermark.Some? && event.sequence <= watermark.value) {
          DeliverEvent(event);
        }
        index := index + 1;
      }
      assert buffer[..index] == buffer;
    }
  }

  /** How one suspension of an install ends, and the session events that arrive while it lasts. */
  datatype Await = Await(ok: bool, events: seq<StateEvent>)

  /** What an install leaves behind; `NoBarrier` is the refusal to install without an open barrier. */
  datatype Installed = Delivered | Raised | NoBarrier

  class SnapshotBarrier {
    const observer: RuntimeObserver
    var generation: nat
    var open: bool

    constructor (observer: RuntimeObserver)
      ensures this.observer == observer && !open && generation == 0
    {
      this.observer := observer;
      generation, open := 0, false;
    }

    method SubscribePaused()
      modifies this, observer
      ensures open && generation == old(generation)
      ensures observer.View() == Pause(old(observer.View()))
    {
      open := true;
      observer.PauseDelivery();
    }

    method Cancel()
      modifies this, observer
      ensures !open && generation == old(generation)
      ensures observer.View() ==
              if old(open) then Resume(observer.conn, old(observer.View()), None) else old(observer.View())
    {
      if open {
        open := false;
        observer.ResumeDelivery(None);
      }
    }

    /** The flush write, the wait for its acknowledgement and the snapshot write are the three
        suspensions. `arrived` is every event that came in before the install settled. */
    method InstallBaseline(watermark: nat, flush: Await, ack: Await, write: Await)
      returns (r: Installed, ghost arrived: seq<StateEvent>)
      modifies this, observer
      ensures r.NoBarrier? <==> !old(open)
      ensures r.NoBarrier? ==> arrived == [] && observer.View() == old(observer.View())
      ensures r.Delivered? <==> old(open) && flush.ok && ack.ok && write.ok
      ensures r.Delivered? ==>
                && arrived == flush.events + (ack.events + write.events)
                && observer.View() == Resume(observer.conn, OnEvents(observer.conn, old(observer.View()), arrived), Some(watermark))
      ensures r.Raised? ==>
                && arrived == flush.events + (if flush.ok then ack.events + (if ack.ok then write.events else []) else [])
                && observer.View() == Resume(observer.conn, OnEvents(observer.conn, old(observer.View()), arrived), None)
      ensures !r.NoBarrier? ==> !open && !observer.paused && observer.buffer == []
    {
      arrived := [];
      if !open {
        return NoBarrier, [];
      }
      generation := generation + 1;
      var written;
      written, arrived := Suspend(flush, ack, write);
      if written {
        open := false;
        observer.ResumeDelivery(Some(watermark));
        return Delivered, arrived;
      }
      Cancel();
      r := Raised;
    }

    /** The suspensions in turn, up to the first that fails; the observer goes on listening through each. */
    method Suspend(flush: Await, ack: Await, write: Await) returns (written: bool, ghost arrived: seq<StateEvent>)
      modifies observer
      ensures written == (flush.ok && ack.ok && write.ok)
      ensures arrived == flush.events + (if flush.ok then ack.events + (if ack.ok then write.events else []) else [])
      ensures observer.View() == OnEvents(observer.conn, old(observer.View()), arrived)
    {
      ghost var before := observer.View();
      observer.ListenAll(flush.events);
      arrived := flush.events + [];
      if !flush.ok {
        assert flush.events + [] == flush.events;
        return false, arrived;
      }
      OnEventsAppend(observer.conn, before, flush.events, ack.events);
      observer.ListenAll(ack.events);
      arrived := flush.events + (ack.events + []);
      if !ack.ok {
        assert ack.events + [] == ack.events;
        return false, arrived;
      }
      OnEventsAppend(observer.conn, before, flush.events + ack.events, write.events);
      observer.ListenAll(write.events);
      arrived := flush.events + (ack.events + write.events);
      assert arrived == flush.events + ack.events + write.events;
      written := write.ok;
    }
  }
}
