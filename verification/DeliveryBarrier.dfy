/**
 What a snapshot barrier does to a run of the delivery protocol: an aborted one leaves no trace, and an
 installed one brings the browser up to date.
 */
module DeliveryBarrier {
  import opened Base
  import opened Observers
  import opened Delivery

  // ---- an aborted barrier is transparent --------------------------------------------------

  /** What goes on beside a barrier: events, tasks, receipts, the acknowledgement, replacement and teardown of the
      connection. Everything but the barrier's own steps. */
  predicate Beside(a: Action) {
    a.Emit? || a.RunTask? || a.Receive? || a.Ack? || a.ClientReady? || a.Retire? || a.Detach? || a.EvictWatermark?
  }

  /** `run` without the acknowledgements, which only a barrier takes. */
  function WithoutAcks(run: seq<Action>): seq<Action> {
    if run == [] then []
    else WithoutAcks(run[..|run| - 1]) + if run[|run| - 1].Ack? then [] else [run[|run| - 1]]
  }

  predicate Detached(o: Observer) {
    !o.attached && !o.emitting && !o.paused && o.buffer == []
  }

  predicate Open(s: State) {
    (s.barrier.Flushing? || s.barrier.Acked?) && ((s.observer.paused && s.observer.attached) || Detached(s.observer))
  }

  /** The state an immediate abort would leave. */
  function Aborted(conn: Connection, s: State): State {
    s.(barrier := Idle, observer := Resume(conn, s.observer, None))
  }

  /** The buffer holds nothing that a teardown would take from the connection. */
  predicate HarmlessDetach(conn: Connection, s: State) {
    s.observer.emitting ==> VisibleOf(conn, s.observer.buffer) == []
  }

  lemma {:induction false} AbortDelivers(conn: Connection, o: Observer)
    ensures Resume(conn, o, None) == DeliverAll(conn, o, o.buffer).(buffer := [], paused := false)
    ensures DeliverAll(conn, o, o.buffer).attached == o.attached
  {
    ReplayedAll(o.buffer, None);
    DeliverAllNumbers(conn, o, o.buffer);
  }

  /** An event buffered and replayed by the abort is delivered as if it arrived after the abort. */
  lemma {:induction false} AbortCommutesWithEvent(conn: Connection, o: Observer, e: StateEvent)
    requires o.paused && o.attached
    ensures Resume(conn, OnEvent(conn, o, e), None) == OnEvent(conn, Resume(conn, o, None), e)
  {
    var grown := o.(buffer := o.buffer + [e]);
    assert grown.buffer[..|o.buffer|] == o.buffer;
    AbortDelivers(conn, o);
    AbortDelivers(conn, grown);
    DeliverAllIgnores(conn, o, o.buffer, grown.buffer, true);
    assert grown == o.(buffer := grown.buffer, paused := true);
    assert DeliverAll(conn, grown, grown.buffer) == Deliver(conn, DeliverAll(conn, grown, o.buffer), e);
  }

  lemma {:induction false} AbortCommutesWithTask(conn: Connection, o: Observer)
    requires o.tasks != []
    ensures Resume(conn, o, None).tasks != [] && Resume(conn, o, None).tasks[0] == o.tasks[0]
    ensures Resume(conn, o.(tasks := o.tasks[1..]), None) ==
            Resume(conn, o, None).(tasks := Resume(conn, o, None).tasks[1..])
  {
    ReplayShape(conn, o, None);
    ReplayShape(conn, o.(tasks := o.tasks[1..]), None);
    var shown := if o.emitting then VisibleOf(conn, o.buffer) else [];
    assert (o.tasks + Numbered(o.projected, shown))[1..] == o.tasks[1..] + Numbered(o.projected, shown);
  }

  lemma {:induction false} AbortDetached(conn: Connection, o: Observer)
    requires Detached(o)
    ensures Resume(conn, o, None) == o
  {
    ReplayShape(conn, o, None);
    assert o.tasks + Numbered(o.projected, []) == o.tasks;
  }

  /** A teardown commutes with aborting exactly when it takes no visible event with it; otherwise the connection had
      numbered more events without the barrier. */
  lemma {:induction false} AbortCommutesWithDetach(conn: Connection, s: State)
    requires Open(s)
    ensures Detached(Next(conn, s, Detach).observer)
    ensures Aborted(conn, Next(conn, s, Detach)) == Next(conn, Aborted(conn, s), Detach) <==> HarmlessDetach(conn, s)
    ensures !HarmlessDetach(conn, s) ==>
              Next(conn, s, Detach).observer.projected < Next(conn, Aborted(conn, s), Detach).observer.projected
  {
    AbortDetached(conn, Unsubscribe(s.observer));
    ReplayShape(conn, s.observer, None);
    assert s.observer.tasks + Numbered(s.observer.projected, []) == s.observer.tasks;
  }

  /** Every action beside an open barrier commutes with aborting it, a harmful teardown excepted. */
  lemma {:induction false} AbortCommutes(conn: Connection, s: State, a: Action)
    requires Open(s) && Beside(a) && Enabled(s, a) && (a.Detach? ==> HarmlessDetach(conn, s))
    ensures Open(Next(conn, s, a))
    ensures a.Ack? ==> Aborted(conn, Next(conn, s, a)) == Aborted(conn, s)
    ensures !a.Ack? ==> Enabled(Aborted(conn, s), a) && Aborted(conn, Next(conn, s, a)) == Next(conn, Aborted(conn, s), a)
  {
    match a
    case Emit(e) =>
      if Detached(s.observer) {
        AbortDetached(conn, s.observer);
      } else {
        AbortCommutesWithEvent(conn, s.observer, e);
      }
    case RunTask => AbortCommutesWithTask(conn, s.observer);
    case Detach => AbortCommutesWithDetach(conn, s);
    case _ =>
  }

  lemma {:induction false} RunOne(conn: Connection, s: State, run: seq<Action>, a: Action)
    ensures Run(conn, s, run + [a]) ==
            if Run(conn, s, run).Some? && Enabled(Run(conn, s, run).value, a)
            then Some(Next(conn, Run(conn, s, run).value, a)) else None
  {
    assert (run + [a])[..|run|] == run;
  }

  /** Every teardown in the run finds no visible event buffered. */
  predicate Harmless(conn: Connection, s: State, run: seq<Action>) {
    forall i :: 0 <= i < |run| && run[i].Detach? && Run(conn, s, run[..i]).Some? ==>
                  HarmlessDetach(conn, Run(conn, s, run[..i]).value)
  }

  lemma {:induction false} HarmlessStep(conn: Connection, s: State, run: seq<Action>)
    requires run != [] && Run(conn, s, run).Some?
    ensures Run(conn, s, run[..|run| - 1]).Some?
    ensures Harmless(conn, s, run) <==>
            && Harmless(conn, s, run[..|run| - 1])
            && (run[|run| - 1].Detach? ==> HarmlessDetach(conn, Run(conn, s, run[..|run| - 1]).value))
  {
    var front, n := run[..|run| - 1], |run| - 1;
    assert forall i :: 0 <= i < n ==> front[..i] == run[..i] && front[i] == run[i];
    if Harmless(conn, s, run) {
      forall i | 0 <= i < n && front[i].Detach? && Run(conn, s, front[..i]).Some?
        ensures HarmlessDetach(conn, Run(conn, s, front[..i]).value)
      {
        assert run[i].Detach? && front[..i] == run[..i];
      }
    } else {
      var i :| 0 <= i < |run| && run[i].Detach? && Run(conn, s, run[..i]).Some? && !HarmlessDetach(conn, Run(conn, s, run[..i]).value);
      assert i < n ==> front[i].Detach? && front[..i] == run[..i];
    }
  }

  /** The two runs can no longer meet: both connections are torn down, and the one without a barrier numbered more. */
  predicate Parted(s: State, other: Option<State>) {
    Open(s) && Detached(s.observer) &&
    (other.Some? ==> !other.value.observer.emitting && s.observer.projected < other.value.observer.projected)
  }

  lemma {:induction false} PartedKept(conn: Connection, s: State, other: Option<State>, a: Action)
    requires Parted(s, other) && Beside(a) && Enabled(s, a)
    ensures Parted(Next(conn, s, a), other)
    ensures other.Some? && Enabled(other.value, a) ==> Parted(Next(conn, s, a), Some(Next(conn, other.value, a)))
    ensures Parted(Next(conn, s, a), None)
  {
  }

  lemma {:induction false} AbortRuns(conn: Connection, s: State, run: seq<Action>)
    requires Open(s) && Run(conn, s, run).Some?
    requires forall i :: 0 <= i < |run| ==> Beside(run[i])
    ensures Open(Run(conn, s, run).value)
    ensures Harmless(conn, s, run) ==> Run(conn, Aborted(conn, s), WithoutAcks(run)) == Some(Aborted(conn, Run(conn, s, run).value))
    ensures !Harmless(conn, s, run) ==> Parted(Run(conn, s, run).value, Run(conn, Aborted(conn, s), WithoutAcks(run)))
  {
    if run != [] {
      var front, a := run[..|run| - 1], run[|run| - 1];
      AbortRuns(conn, s, front);
      HarmlessStep(conn, s, run);
      var mid, other := Run(conn, s, front).value, Run(conn, Aborted(conn, s), WithoutAcks(front));
      assert WithoutAcks(front) + [] == WithoutAcks(front);
      RunOne(conn, Aborted(conn, s), WithoutAcks(front), a);
      if !Harmless(conn, s, front) {
        PartedKept(conn, mid, other, a);
      } else if a.Detach? {
        AbortCommutesWithDetach(conn, mid);
      } else {
        AbortCommutes(conn, mid, a);
      }
    }
  }

  /** The abort theorem: opening a barrier, any run beside it and aborting it ends in the state of that run without a
      barrier, except that the publisher remembers the sequence it stamped; if and only if no teardown in the run
      finds a visible event in the buffer. */
  lemma {:induction false} AbortTheorem(conn: Connection, s: State, run: seq<Action>)
    requires CountersOk(s) && s.ready && s.observer.emitting && Enabled(s, BeginSnapshot)
    requires forall i :: 0 <= i < |run| ==> Beside(run[i])
    requires Run(conn, Begin(conn, s), run).Some?
    ensures
      var stamped := s.(watermark := s.sequence, highest := Some(s.sequence));
      var end := Run(conn, Begin(conn, s), run).value;
      && Enabled(end, Abort)
      && (Run(conn, stamped, WithoutAcks(run)) == Some(Next(conn, end, Abort)) <==> Harmless(conn, Begin(conn, s), run))
  {
    ReplayShape(conn, Pause(s.observer), None);
    assert s.observer.tasks + Numbered(s.observer.projected, []) == s.observer.tasks;
    AbortRuns(conn, Begin(conn, s), run);
    var end := Run(conn, Begin(conn, s), run).value;
    if Detached(end.observer) {
      AbortDetached(conn, end.observer);
    }
  }

  // ---- an installed barrier synchronises --------------------------------------------------

  function Repeat(a: Action, n: nat): seq<Action> {
    if n == 0 then [] else Repeat(a, n - 1) + [a]
  }

  lemma {:induction false} RepeatMember(a: Action, n: nat)
    ensures forall x :: x in Repeat(a, n) ==> x == a
  {
    if n > 0 {
      RepeatMember(a, n - 1);
    }
  }

  /** Run every scheduled task, then receive everything on the wire. */
  function Drain(s: State): seq<Action> {
    Repeat(RunTask, |s.observer.tasks|) + Repeat(Receive, |s.wire| + |s.observer.tasks|)
  }

  lemma {:induction false} RunAppend(conn: Connection, s: State, a: seq<Action>, b: seq<Action>)
    requires Run(conn, s, a).Some?
    ensures Run(conn, s, a + b) == Run(conn, Run(conn, s, a).value, b)
  {
    if b == [] {
      assert a + b == a;
    } else {
      RunAppend(conn, s, a, b[..|b| - 1]);
      assert (a + b)[..|a + b| - 1] == a + b[..|b| - 1];
    }
  }

  lemma {:induction false} RepeatOne(conn: Connection, s: State, a: Action, n: nat, t: State)
    requires n > 0 && Run(conn, s, Repeat(a, n - 1)) == Some(t) && Enabled(t, a)
    ensures Run(conn, s, Repeat(a, n)) == Some(Next(conn, t, a))
  {
    RunOne(conn, s, Repeat(a, n - 1), a);
  }

  /** The messages of the first `n` tasks are queued and the tasks gone; the watermark is whatever that makes it. */
  predicate TasksRun(s: State, n: nat, t: State)
    requires n <= |s.observer.tasks|
  {
    t == s.(observer := s.observer.(tasks := s.observer.tasks[n..]),
            wire := s.wire + Messages(s.observer.tasks[..n]), watermark := t.watermark)
  }

  lemma {:induction false} TasksRunStep(conn: Connection, s: State, n: nat, t: State)
    requires s.accepted && n < |s.observer.tasks| && TasksRun(s, n, t)
    ensures Enabled(t, RunTask) && TasksRun(s, n + 1, Next(conn, t, RunTask))
  {
    var tasks := s.observer.tasks;
    var one := [Incremental(tasks[n].sequence, tasks[n].event)];
    assert tasks[..n + 1] == tasks[..n] + [tasks[n]];
    MessagesAppend(tasks[..n], [tasks[n]]);
    assert Messages([tasks[n]]) == one;
    assert s.wire + (Messages(tasks[..n]) + one) == s.wire + Messages(tasks[..n]) + one;
    assert tasks[n..][0] == tasks[n] && tasks[n..][1..] == tasks[n + 1..];
  }

  lemma {:induction false} RunTasks(conn: Connection, s: State, n: nat) returns (t: State)
    requires s.accepted && n <= |s.observer.tasks|
    ensures Run(conn, s, Repeat(RunTask, n)) == Some(t) && TasksRun(s, n, t)
  {
    if n == 0 {
      NoTasksRun(s);
      t := s;
    } else {
      var before := RunTasks(conn, s, n - 1);
      TasksRunStep(conn, s, n - 1, before);
      RepeatOne(conn, s, RunTask, n, before);
      t := Next(conn, before, RunTask);
    }
  }

  lemma {:induction false} NoTasksRun(s: State)
    ensures TasksRun(s, 0, s)
  {
    assert s.observer.tasks[..0] == [] && s.observer.tasks[0..] == s.observer.tasks;
    assert s.wire + Messages([]) == s.wire;
  }

  lemma {:induction false} ReceiveMany(conn: Connection, s: State, n: nat)
    requires n <= |s.wire|
    ensures Run(conn, s, Repeat(Receive, n)) ==
            Some(s.(client := Consume(conn, s.client, s.wire[..n]), wire := s.wire[n..]))
  {
    if n == 0 {
      assert s.wire[..0] == [];
    } else {
      ReceiveMany(conn, s, n - 1);
      RepeatOne(conn, s, Receive, n, s.(client := Consume(conn, s.client, s.wire[..n - 1]), wire := s.wire[n - 1..]));
      assert s.wire[..n][..n - 1] == s.wire[..n - 1];
      assert s.wire[n - 1..][1..] == s.wire[n..];
    }
  }

  lemma {:induction false} DrainTasks(conn: Connection, s: State) returns (t: State)
    requires s.accepted
    ensures Run(conn, s, Repeat(RunTask, |s.observer.tasks|)) == Some(t)
    ensures t == s.(observer := s.observer.(tasks := []), wire := InFlight(s), watermark := t.watermark)
  {
    var tasks := s.observer.tasks;
    t := RunTasks(conn, s, |tasks|);
    assert tasks[..|tasks|] == tasks && tasks[|tasks|..] == [];
  }

  lemma {:induction false} ReceiveAll(conn: Connection, s: State)
    ensures Run(conn, s, Repeat(Receive, |s.wire|)) == Some(s.(client := Consume(conn, s.client, s.wire), wire := []))
  {
    ReceiveMany(conn, s, |s.wire|);
    assert s.wire[..|s.wire|] == s.wire && s.wire[|s.wire|..] == [];
  }

  lemma {:induction false} InFlightLength(s: State)
    requires s.accepted
    ensures |InFlight(s)| == |s.wire| + |s.observer.tasks|
  {
  }

  /** Draining is always possible while the connection is accepted, and delivers what is in flight. */
  lemma {:induction false} DrainReaches(conn: Connection, s: State) returns (t: State)
    requires s.accepted
    ensures Run(conn, s, Drain(s)) == Some(t)
    ensures t == s.(observer := s.observer.(tasks := []), wire := [], watermark := t.watermark,
                    client := Consume(conn, s.client, InFlight(s)))
  {
    var mid := DrainTasks(conn, s);
    InFlightLength(s);
    ReceiveAll(conn, mid);
    t := mid.(client := Consume(conn, mid.client, mid.wire), wire := []);
    DrainTwice(conn, s, mid, t);
  }

  lemma {:induction false} DrainTwice(conn: Connection, s: State, mid: State, t: State)
    requires |mid.wire| == |s.wire| + |s.observer.tasks|
    requires Run(conn, s, Repeat(RunTask, |s.observer.tasks|)) == Some(mid) && Run(conn, mid, Repeat(Receive, |mid.wire|)) == Some(t)
    ensures Run(conn, s, Drain(s)) == Some(t)
  {
    RunAppend(conn, s, Repeat(RunTask, |s.observer.tasks|), Repeat(Receive, |mid.wire|));
  }

  const Request: seq<Action> := [ClientReady, BeginSnapshot, Ack, WriteSnapshot, Install]

  lemma {:induction false} RunTwo(conn: Connection, s: State, a: Action, b: Action)
    requires Enabled(s, a) && Enabled(Next(conn, s, a), b)
    ensures Run(conn, s, [a, b]) == Some(Next(conn, Next(conn, s, a), b))
  {
    RunOne(conn, s, [], a);
    assert [] + [a] == [a];
    RunOne(conn, s, [a], b);
    assert [a] + [b] == [a, b];
  }

  lemma {:induction false} RequestOpens(conn: Connection, s: State)
    requires CountersOk(s) && s.barrier.Idle? && s.accepted
    ensures Run(conn, s, [ClientReady, BeginSnapshot]) == Some(s.(
              ready := true, watermark := s.sequence, highest := Some(s.sequence),
              observer := Pause(s.observer), barrier := Flushing(s.sequence)))
  {
    RunTwo(conn, s, ClientReady, BeginSnapshot);
  }

  lemma {:induction false} RequestSettles(conn: Connection, s: State)
    requires s.barrier.Flushing? && s.observer.buffer == []
    ensures Run(conn, s, [Ack, WriteSnapshot] + [Install]) == Some(s.(
              barrier := Idle, wire := s.wire + [Snapshot(s.barrier.watermark, conn.epoch)],
              observer := s.observer.(projected := s.barrier.watermark, paused := false)))
  {
    RunTwo(conn, s, Ack, WriteSnapshot);
    RunOne(conn, s, [Ack, WriteSnapshot], Install);
    ReplayShape(conn, s.observer, Some(s.barrier.watermark));
    assert s.observer.tasks + Numbered(s.barrier.watermark, []) == s.observer.tasks;
  }

  /** One undisturbed snapshot request. */
  lemma {:induction false} RequestRuns(conn: Connection, s: State)
    requires CountersOk(s) && s.barrier.Idle? && s.accepted
    ensures
      var w := s.sequence;
      Run(conn, s, Request) == Some(s.(
        ready := true, watermark := w, highest := Some(w), wire := s.wire + [Snapshot(w, conn.epoch)],
        observer := s.observer.(projected := w, attached := true)))
  {
    RequestOpens(conn, s);
    var open := Run(conn, s, [ClientReady, BeginSnapshot]).value;
    RequestSettles(conn, open);
    RunAppend(conn, s, [ClientReady, BeginSnapshot], [Ack, WriteSnapshot] + [Install]);
    assert Request == [ClientReady, BeginSnapshot] + ([Ack, WriteSnapshot] + [Install]);
  }

  /** From every reachable state of a served connection with no barrier open, a request that is left
      undisturbed and drained leaves the browser synced at the session's sequence with nothing pending,
      whatever tasks were scheduled before it. */
  lemma {:induction false} RequestSynchronises(conn: Connection, s: State, run: seq<Action>)
    requires Attached(conn, s) && Run(conn, s, run).Some?
    requires
      var t := Run(conn, s, run).value;
      t.barrier.Idle? && t.accepted && t.observer.emitting
    ensures
      var t := Run(conn, s, run).value;
      var asked := Run(conn, t, Request);
      && asked.Some?
      && Run(conn, asked.value, Drain(asked.value)).Some?
      && var u := Run(conn, asked.value, Drain(asked.value)).value;
         Quiescent(u) && Synced(conn, u.client) && u.client.base == t.sequence && u.client.lastApplied == t.sequence
  {
    var t := Run(conn, s, run).value;
    RunInvariant(conn, s, run);
    RequestRuns(conn, t);
    var asked := Run(conn, t, Request).value;
    SnapshotInserted(conn, t.log, s.client.gaps, t.client, t.wire, t.observer.tasks, Messages(t.observer.tasks), t.sequence);
    assert InFlight(asked) == t.wire + [Snapshot(t.sequence, conn.epoch)] + Messages(t.observer.tasks);
    var u := DrainReaches(conn, asked);
  }
}
