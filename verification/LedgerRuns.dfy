/**
 The ledger over whole runs: any interleaving of child reports, TTL prunes and cap evictions, from an
 empty ledger or from one restored out of a snapshot.
 */
module LedgerRuns {
  import opened Base
  import opened WorkStatus
  import opened WorkLedger

  // ---- one report -------------------------------------------------------------------------

  /** Valid except that the key's children have just changed. */
  ghost predicate ValidBut(l: Ledger, k: Key) {
    && NoDuplicates(l.order) && (forall x :: x in l.order <==> x in l.parents)
    && (forall x :: x in l.parents && x != k ==> RecordOk(l, x))
    && (k in l.parents ==>
          && k in l.sequence && l.sequence[k] == l.parents[k].sequence && k !in l.tombstones
          && (l.parents[k].terminalAt.Some? <==> Terminal(l.parents[k].state)))
    && (forall x :: x in l.children && x !in l.parents && x != k ==> l.children[x] == [])
    && l.clocks.Keys == l.restored * l.parents.Keys
    && k in l.children && l.children[k] != []
  }

  lemma {:induction false} WithChildValidBut(l: Ledger, r: Report)
    requires Valid(l)
    ensures ValidBut(WithChild(l, r), KeyOf(r))
    ensures ChildrenOf(WithChild(l, r), KeyOf(r)) == Upsert(ChildrenOf(l, KeyOf(r)), Child(r.item, r.worker, r.state, r.reason))
  {
    var m, k := WithChild(l, r), KeyOf(r);
    UpsertFinds(ChildrenOf(l, k), Child(r.item, r.worker, r.state, r.reason));
    forall x | x in m.parents && x != k ensures RecordOk(m, x) {
      assert RecordOk(l, x);
    }
    if k in l.parents {
      assert RecordOk(l, k);
    }
  }

  lemma {:induction false} WrittenValid(l: Ledger, k: Key, now: real)
    requires ValidBut(l, k) && k !in l.tombstones
    ensures Valid(Written(l, k, now))
  {
    var w := Written(l, k, now);
    forall x | x in w.parents ensures RecordOk(w, x) {
      if x != k {
        assert RecordOk(l, x);
      }
    }
  }

  lemma {:induction false} WrittenFacts(l: Ledger, k: Key, now: real)
    requires k in l.children && l.children[k] != []
    requires k in l.parents ==> !Terminal(l.parents[k].state)
    ensures
      var w := Written(l, k, now);
      && w.sequence == l.sequence[k := Counter(l, k) + 1] && w.restored == l.restored
      && k in w.parents && w.parents[k].state == Aggregate(l.children[k])
      && (forall x :: Closed(w, x) <==> Closed(l, x) || (x == k && Terminal(Aggregate(l.children[k]))))
      && (l.children.Keys == l.parents.Keys + {k} ==> Lockstep(w))
  {
    var w := Written(l, k, now);
    assert w.parents.Keys == l.parents.Keys + {k};
  }

  /** Enforcing the cap moves no counter, reopens no key and spares the key just written. */
  lemma {:induction false} EvictEffects(l: Ledger, k: Key)
    ensures
      var m := Evict(l, k);
      && m.sequence == l.sequence && m.restored == l.restored
      && (forall x :: Closed(l, x) <==> Closed(m, x))
      && (k in l.parents ==> k in m.parents && m.parents[k] == l.parents[k])
      && (Lockstep(l) ==> Lockstep(m))
    decreases |l.parents|
  {
    if |l.parents| > MAX_KEYS {
      var victim := Oldest(l, k, l.order);
      if victim.Some? {
        var f := Forget(l, victim.value);
        ForgetShrinks(l, victim.value);
        ForgetEffects(l, victim.value);
        EvictEffects(f, k);
        assert Evict(l, k) == Evict(f, k);
      }
    }
  }

  lemma {:induction false} WriteParentEffects(l: Ledger, k: Key, now: real)
    requires k in l.children && l.children[k] != []
    requires k in l.parents ==> !Terminal(l.parents[k].state)
    ensures
      var m := WriteParent(l, k, now).ledger;
      && m.sequence == l.sequence[k := Counter(l, k) + 1] && m.restored == l.restored
      && (forall x :: Closed(m, x) <==> Closed(l, x) || (x == k && Terminal(Aggregate(l.children[k]))))
      && (l.children.Keys == l.parents.Keys + {k} ==> Lockstep(m))
  {
    WrittenFacts(l, k, now);
    EvictEffects(Written(l, k, now), k);
  }

  /** A report emits only by rewriting its parent, and only for a key no client holds as terminal. */
  lemma {:induction false} EmitsByWriting(l: Ledger, r: Report, now: real)
    requires SetChild(l, r, now).outcome.Emitted?
    requires KeyOf(r) in l.parents ==> KeyOf(r) !in l.tombstones
    ensures SetChild(l, r, now) == WriteParent(WithChild(l, r), KeyOf(r), now)
    ensures !Closed(l, KeyOf(r))
    ensures KeyOf(r) in l.restored ==> !Terminal(Aggregate(ChildrenOf(WithChild(l, r), KeyOf(r))))
  {
  }

  lemma {:induction false} WithChildFacts(l: Ledger, r: Report)
    ensures
      var k, c := KeyOf(r), WithChild(l, r);
      && k in c.children && c.children[k] != [] && ChildrenOf(c, k) == c.children[k]
      && c.children[k] == Upsert(ChildrenOf(l, k), Child(r.item, r.worker, r.state, r.reason))
      && (Lockstep(l) ==> c.children.Keys == c.parents.Keys + {k})
  {
    UpsertFinds(ChildrenOf(l, KeyOf(r)), Child(r.item, r.worker, r.state, r.reason));
    assert WithChild(l, r).children.Keys == l.children.Keys + {KeyOf(r)};
  }

  lemma {:induction false} QuietEffects(l: Ledger, r: Report, now: real)
    requires !SetChild(l, r, now).outcome.Emitted?
    ensures
      var m := SetChild(l, r, now).ledger;
      && m.sequence == l.sequence && m.restored == l.restored
      && m.parents == l.parents && m.tombstones == l.tombstones
  {
    if Legal(l, r) && WellFormed(r) {
      QuietReaggregate(WithChild(l, r), KeyOf(r), now);
    }
  }

  lemma {:induction false} QuietReaggregate(l: Ledger, k: Key, now: real)
    requires !Reaggregate(l, k, now).outcome.Emitted?
    ensures Reaggregate(l, k, now).ledger == l.(children := Reaggregate(l, k, now).ledger.children)
  {
  }

  /** A report's event carries the next number of its key and the aggregate of every known child; it is
      terminal only when all of them are, and never for a restored key or one already closed. */
  lemma {:induction false} EmittedMeaning(l: Ledger, r: Report, now: real)
    requires SetChild(l, r, now).outcome.Emitted?
    requires KeyOf(r) in l.parents ==> KeyOf(r) !in l.tombstones
    ensures
      var k := KeyOf(r);
      var status := SetChild(l, r, now).outcome.status;
      var children := Upsert(ChildrenOf(l, k), Child(r.item, r.worker, r.state, r.reason));
      && status == Status(k, Aggregate(children), Counter(l, k) + 1, AggregateReason(children))
      && !Closed(l, k)
      && (Terminal(status.state) ==> k !in l.restored && AllTerminal(children))
      && (status.reason.Some? ==> status.state.Failed?)
  {
    EmitsByWriting(l, r, now);
    WithChildFacts(l, r);
    AggregateMeaning(WithChild(l, r).children[KeyOf(r)]);
  }

  lemma {:induction false} WithChildLeaves(l: Ledger, r: Report)
    ensures
      var c := WithChild(l, r);
      && c.restored == l.restored && c.sequence == l.sequence && c.parents == l.parents
      && (forall x :: Closed(c, x) <==> Closed(l, x)) && Counter(c, KeyOf(r)) == Counter(l, KeyOf(r))
  {
  }

  lemma {:induction false} ChildWriteEffects(l: Ledger, r: Report, now: real)
    requires KeyOf(r) in l.parents ==> !Terminal(l.parents[KeyOf(r)].state)
    ensures
      var k, next := KeyOf(r), Aggregate(WithChild(l, r).children[KeyOf(r)]);
      var m := WriteParent(WithChild(l, r), k, now).ledger;
      && m.restored == l.restored && m.sequence == l.sequence[k := Counter(l, k) + 1]
      && (forall x :: Closed(m, x) <==> Closed(l, x) || (x == k && Terminal(next)))
      && (Lockstep(l) ==> Lockstep(m))
  {
    WithChildFacts(l, r);
    WithChildLeaves(l, r);
    WriteParentEffects(WithChild(l, r), KeyOf(r), now);
  }

  lemma {:induction false} EmittedEffects(l: Ledger, r: Report, now: real)
    requires SetChild(l, r, now).outcome.Emitted? && (KeyOf(r) in l.parents ==> KeyOf(r) !in l.tombstones)
    ensures
      var k, m := KeyOf(r), SetChild(l, r, now).ledger;
      && m.restored == l.restored && m.sequence == l.sequence[k := Counter(l, k) + 1]
      && (forall x :: Closed(m, x) <==> Closed(l, x) || (x == k && Terminal(SetChild(l, r, now).outcome.status.state)))
      && (Lockstep(l) ==> Lockstep(m))
  {
    EmitsByWriting(l, r, now);
    ChildWriteEffects(l, r, now);
  }

  /** Closed keys stay closed, only an event moves a counter, and a terminal event closes its key. */
  lemma {:induction false} ReportEffects(l: Ledger, r: Report, now: real)
    requires KeyOf(r) in l.parents ==> KeyOf(r) !in l.tombstones
    ensures
      var k := KeyOf(r);
      var Step(m, out) := SetChild(l, r, now);
      && m.restored == l.restored
      && (forall x :: Closed(m, x) <==> Closed(l, x) || (x == k && out.Emitted? && Terminal(out.status.state)))
      && (!out.Emitted? ==> m.sequence == l.sequence)
      && (out.Emitted? ==>
            && m.sequence == l.sequence[k := Counter(l, k) + 1]
            && (Lockstep(l) ==> Lockstep(m)))
  {
    if SetChild(l, r, now).outcome.Emitted? {
      EmittedEffects(l, r, now);
    } else {
      QuietEffects(l, r, now);
    }
  }

  /** The ledger before the cap is enforced after an emission, and what enforcing it leaves. */
  lemma {:induction false} EmittedShape(l: Ledger, r: Report, now: real)
    requires Valid(l) && SetChild(l, r, now).outcome.Emitted?
    ensures !Closed(l, KeyOf(r))
    ensures
      var w := Written(WithChild(l, r), KeyOf(r), now);
      Valid(w) && SetChild(l, r, now).ledger == Evict(w, KeyOf(r)) && SameElsewhere(w, Evict(w, KeyOf(r))) && Valid(Evict(w, KeyOf(r)))
  {
    assert KeyOf(r) in l.parents ==> RecordOk(l, KeyOf(r));
    EmitsByWriting(l, r, now);
    WithChildValidBut(l, r);
    WrittenValid(WithChild(l, r), KeyOf(r), now);
    EvictKeeps(Written(WithChild(l, r), KeyOf(r), now), KeyOf(r));
  }

  /** The ledger stays valid under every report, one that raises included. */
  lemma {:induction false} ReportValid(l: Ledger, r: Report, now: real)
    requires Valid(l)
    ensures Valid(SetChild(l, r, now).ledger)
  {
    if SetChild(l, r, now).outcome.Emitted? {
      EmittedShape(l, r, now);
    } else if Legal(l, r) && WellFormed(r) {
      QuietValid(l, r, now);
    } else {
      MalformedValid(l, r, now);
    }
  }

  lemma {:induction false} QuietValid(l: Ledger, r: Report, now: real)
    requires Valid(l) && Legal(l, r) && WellFormed(r) && SetChild(l, r, now).outcome.Quiet?
    ensures Valid(SetChild(l, r, now).ledger)
    ensures Lockstep(l) ==> Lockstep(SetChild(l, r, now).ledger)
  {
    var k, c, m := KeyOf(r), WithChild(l, r), SetChild(l, r, now).ledger;
    WithChildValidBut(l, r);
    AggregateMeaning(ChildrenOf(c, k));
    forall x | x in m.parents ensures RecordOk(m, x) {
      assert RecordOk(l, x);
    }
  }

  lemma {:induction false} MalformedValid(l: Ledger, r: Report, now: real)
    requires Valid(l) && !(Legal(l, r) && WellFormed(r))
    ensures Valid(SetChild(l, r, now).ledger)
  {
    var m := SetChild(l, r, now).ledger;
    forall x | x in m.parents ensures RecordOk(m, x) {
      assert RecordOk(l, x);
    }
  }

  /** Lockstep survives a report exactly when the report does not raise on a key without a child map. */
  lemma {:induction false} LockstepExactly(l: Ledger, r: Report, now: real)
    requires Valid(l) && Lockstep(l)
    ensures Lockstep(SetChild(l, r, now).ledger) <==> !(Legal(l, r) && !WellFormed(r) && KeyOf(r) !in l.children)
  {
    if SetChild(l, r, now).outcome.Emitted? {
      assert KeyOf(r) in l.parents ==> RecordOk(l, KeyOf(r));
      ReportEffects(l, r, now);
    } else if Legal(l, r) && WellFormed(r) {
      QuietValid(l, r, now);
    } else if Legal(l, r) {
      assert SetChild(l, r, now).ledger.children.Keys == l.children.Keys + {KeyOf(r)};
    }
  }

  /** A report that raises on a fresh key does leave a child map behind: a reason without a failure, or no turn. */
  lemma {:induction false} LockstepBroken(r: Report)
    requires r == Report("t", "i", None, None, Searching, Some(1), Some(MissingWorker)) ||
             r == Report("", "i", None, None, Searching, Some(1), None)
    ensures Lockstep(Empty) && SetChild(Empty, r, 0.0).outcome.Raised? && !Lockstep(SetChild(Empty, r, 0.0).ledger)
  {
    assert KeyOf(r) in SetChild(Empty, r, 0.0).ledger.children;
  }

  // ---- restoring --------------------------------------------------------------------------

  lemma {:induction false} RestoreOneValid(l: Ledger, s: Status, now: real)
    requires Valid(l) && Lockstep(l) && l.tombstones == {} && l.restored == l.parents.Keys
    ensures
      var m := RestoreOne(l, s, now);
      Valid(m) && Lockstep(m) && m.tombstones == {} && m.restored == m.parents.Keys
  {
    var m := RestoreOne(l, s, now);
    assert m.parents.Keys == l.parents.Keys + {s.key};
    assert m.children.Keys == l.children.Keys + {s.key};
    assert m.clocks.Keys == m.restored * m.parents.Keys;
    forall x | x in m.parents ensures RecordOk(m, x) {
      if x != s.key {
        assert RecordOk(l, x);
      }
    }
  }

  /** A restored ledger is valid and in lockstep, and every key in it is marked as restored. */
  lemma {:induction false} RestoredValid(statuses: seq<Status>, now: real)
    ensures
      var l := FromSnapshot(statuses, now);
      Valid(l) && Lockstep(l) && l.tombstones == {} && l.restored == l.parents.Keys
  {
    if statuses != [] {
      RestoredValid(statuses[..|statuses| - 1], now);
      RestoreOneValid(FromSnapshot(statuses[..|statuses| - 1], now), statuses[|statuses| - 1], now);
    }
  }

  // ---- runs -------------------------------------------------------------------------------

  datatype Operation = SetStatus(report: Report, now: real) | PruneExpired(now: real)

  /** The ledger after a run and every event the run emitted, oldest first. */
  datatype Trace = Trace(ledger: Ledger, events: seq<Status>)

  function Apply(t: Trace, op: Operation): Trace {
    match op
    case PruneExpired(now) => t.(ledger := Prune(t.ledger, now))
    case SetStatus(report, now) =>
      var Step(m, out) := SetChild(t.ledger, report, now);
      Trace(m, if out.Emitted? then t.events + [out.status] else t.events)
  }

  function Run(start: Ledger, ops: seq<Operation>): Trace {
    if ops == [] then Trace(start, []) else Apply(Run(start, ops[..|ops| - 1]), ops[|ops| - 1])
  }

  function EventsOf(events: seq<Status>, k: Key): seq<Status> {
    if events == [] then []
    else EventsOf(events[..|events| - 1], k) + if events[|events| - 1].key == k then [events[|events| - 1]] else []
  }

  /** A key's history: consecutive numbers from `base`, a terminal event only at the end. */
  predicate History(events: seq<Status>, base: nat) {
    && (forall i :: 0 <= i < |events| ==> events[i].sequence == base + 1 + i)
    && (forall i :: 0 <= i < |events| - 1 ==> !Terminal(events[i].state))
  }

  /** How the ledger remembers one key's history. */
  ghost predicate Remembers(start: Ledger, t: Trace, k: Key) {
    var mine := EventsOf(t.events, k);
    && History(mine, Counter(start, k))
    && Counter(t.ledger, k) == Counter(start, k) + |mine|
    && (Closed(t.ledger, k) <==> Closed(start, k) || (mine != [] && Terminal(mine[|mine| - 1].state)))
    && (Closed(start, k) ==> mine == [])
    && (k in start.restored ==> forall i :: 0 <= i < |mine| ==> !Terminal(mine[i].state))
  }

  /** An event extends its own key's history by one and leaves every other alone. */
  lemma {:induction false} EventsOfGrows(events: seq<Status>, s: Status, k: Key)
    ensures EventsOf(events + [s], k) == EventsOf(events, k) + if s.key == k then [s] else []
  {
    assert (events + [s])[..|events|] == events;
  }

  lemma {:induction false} ReportRemembered(start: Ledger, t: Trace, r: Report, now: real, k: Key)
    requires t.ledger.restored == start.restored && Remembers(start, t, k)
    requires KeyOf(r) in t.ledger.parents ==> KeyOf(r) !in t.ledger.tombstones
    ensures Remembers(start, Apply(t, SetStatus(r, now)), k)
  {
    var l := t.ledger;
    ReportEffects(l, r, now);
    var Step(m, out) := SetChild(l, r, now);
    if out.Emitted? {
      EmittedMeaning(l, r, now);
      EventsOfGrows(t.events, out.status, k);
      EmissionRemembered(start, t, m, out.status, k);
    }
  }

  lemma {:induction false} EmissionRemembered(start: Ledger, t: Trace, m: Ledger, s: Status, k: Key)
    requires t.ledger.restored == start.restored && Remembers(start, t, k)
    requires s.sequence == Counter(t.ledger, s.key) + 1 && m.sequence == t.ledger.sequence[s.key := s.sequence]
    requires !Closed(t.ledger, s.key) && (Terminal(s.state) ==> s.key !in t.ledger.restored)
    requires forall x :: Closed(m, x) <==> Closed(t.ledger, x) || (x == s.key && Terminal(s.state))
    ensures Remembers(start, Trace(m, t.events + [s]), k)
  {
    EventsOfGrows(t.events, s, k);
    var mine := EventsOf(t.events, k);
    if s.key == k {
      HistoryGrows(mine, s, Counter(start, k));
    } else {
      assert mine + [] == mine;
      assert Counter(m, k) == Counter(t.ledger, k);
    }
  }

  /** A history without a terminal event goes on with the next number. */
  lemma {:induction false} HistoryGrows(events: seq<Status>, s: Status, base: nat)
    requires History(events, base) && s.sequence == base + |events| + 1
    requires events != [] ==> !Terminal(events[|events| - 1].state)
    ensures History(events + [s], base)
    ensures forall i :: 0 <= i < |events| ==> !Terminal(events[i].state)
  {
  }

  lemma {:induction false} ApplyKeeps(start: Ledger, t: Trace, op: Operation, k: Key)
    requires Valid(t.ledger) && t.ledger.restored == start.restored && Remembers(start, t, k)
    ensures Valid(Apply(t, op).ledger) && Apply(t, op).ledger.restored == start.restored
    ensures Remembers(start, Apply(t, op), k)
  {
    match op
    case PruneExpired(now) => PruningTheorem(t.ledger, now);
    case SetStatus(r, now) =>
      assert KeyOf(r) in t.ledger.parents ==> RecordOk(t.ledger, KeyOf(r));
      ReportValid(t.ledger, r, now);
      ReportEffects(t.ledger, r, now);
      ReportRemembered(start, t, r, now, k);
  }

  lemma {:induction false} RunKeeps(start: Ledger, ops: seq<Operation>, k: Key)
    requires Valid(start)
    ensures Valid(Run(start, ops).ledger) && Run(start, ops).ledger.restored == start.restored
    ensures Remembers(start, Run(start, ops), k)
  {
    if ops != [] {
      RunKeeps(start, ops[..|ops| - 1], k);
      ApplyKeeps(start, Run(start, ops[..|ops| - 1]), ops[|ops| - 1], k);
    }
  }

  /** The history theorem: for every key, over any interleaving of reports, prunes and evictions from a valid
      ledger, the emitted numbers go up by exactly one from the starting counter; at most one event is
      terminal and nothing follows it; the ledger holds a key closed exactly when it started so or its last event was
      terminal, and one that starts closed emits nothing; a restored key never emits a
      terminal state, not even after its record was pruned and started again. */
  lemma {:induction false} HistoryTheorem(start: Ledger, ops: seq<Operation>, k: Key)
    requires Valid(start)
    ensures
      var mine := EventsOf(Run(start, ops).events, k);
      && History(mine, Counter(start, k))
      && Counter(Run(start, ops).ledger, k) == Counter(start, k) + |mine|
      && (Closed(start, k) ==> mine == [])
      && (Closed(Run(start, ops).ledger, k) <==> Closed(start, k) || (mine != [] && Terminal(mine[|mine| - 1].state)))
      && (k in start.restored ==> forall i :: 0 <= i < |mine| ==> !Terminal(mine[i].state))
  {
    RunKeeps(start, ops, k);
  }

  /** The ledger invariant over every run from an empty or a restored ledger whose reports are well formed. */
  lemma {:induction false} LedgerTheorem(statuses: seq<Status>, restoredAt: real, ops: seq<Operation>)
    requires forall i :: 0 <= i < |ops| && ops[i].SetStatus? ==> WellFormed(ops[i].report)
    ensures
      var l := Run(FromSnapshot(statuses, restoredAt), ops).ledger;
      && Valid(l) && Lockstep(l)
      && l.restored == FromSnapshot(statuses, restoredAt).parents.Keys
      && (forall k :: k in l.parents && k in l.restored ==> Stamp(l, k).Some?)
  {
    RestoredValid(statuses, restoredAt);
    var start := FromSnapshot(statuses, restoredAt);
    if ops != [] {
      var front, op := ops[..|ops| - 1], ops[|ops| - 1];
      LedgerTheorem(statuses, restoredAt, front);
      var l := Run(start, front).ledger;
      if op.SetStatus? {
        ReportValid(l, op.report, op.now);
        LockstepExactly(l, op.report, op.now);
        assert KeyOf(op.report) in l.parents ==> RecordOk(l, KeyOf(op.report));
        ReportEffects(l, op.report, op.now);
      } else {
        PruningTheorem(l, op.now);
      }
    }
    PruningTheorem(Run(start, ops).ledger, 0.0);
  }

  // ---- retention --------------------------------------------------------------------------

  /** No retention clock started after `now`. */
  ghost predicate StampsBy(l: Ledger, now: real) {
    forall k :: k in l.parents && Stamp(l, k).Some? ==> Stamp(l, k).value <= now
  }

  lemma {:induction false} DroppingKeepsStamps(l: Ledger, m: Ledger, now: real)
    requires StampsBy(l, now) && SameElsewhere(l, m)
    ensures StampsBy(m, now)
  {
  }

  lemma {:induction false} WrittenStamps(l: Ledger, k: Key, now: real)
    requires StampsBy(l, now) && (k in l.restored && k in l.clocks ==> l.clocks[k] <= now)
    requires k !in l.restored ==> k !in l.clocks
    ensures StampsBy(Written(l, k, now), now)
  {
    var w := Written(l, k, now);
    forall x | x in w.parents && Stamp(w, x).Some? ensures Stamp(w, x).value <= now {
      if x != k {
        assert Stamp(w, x) == Stamp(l, x);
      }
    }
  }

  lemma {:induction false} WrittenChildStamps(l: Ledger, r: Report, now: real)
    requires Valid(l) && StampsBy(l, now) && !Closed(l, KeyOf(r))
    ensures StampsBy(Written(WithChild(l, r), KeyOf(r), now), now)
  {
    var c := WithChild(l, r);
    assert forall x :: Stamp(c, x) == Stamp(l, x);
    ClockBy(l, KeyOf(r), now);
    WrittenStamps(c, KeyOf(r), now);
  }

  lemma {:induction false} ReportStamps(l: Ledger, r: Report, now: real)
    requires Valid(l) && StampsBy(l, now)
    ensures StampsBy(SetChild(l, r, now).ledger, now)
  {
    if SetChild(l, r, now).outcome.Emitted? {
      var w := Written(WithChild(l, r), KeyOf(r), now);
      EmittedShape(l, r, now);
      WrittenChildStamps(l, r, now);
      DroppingKeepsStamps(w, Evict(w, KeyOf(r)), now);
    } else {
      QuietStamps(l, r, now);
    }
  }

  lemma {:induction false} ClockBy(l: Ledger, k: Key, now: real)
    requires Valid(l) && StampsBy(l, now) && !Closed(l, k)
    ensures k in l.clocks ==> k in l.restored && l.clocks[k] <= now
  {
    if k in l.clocks {
      assert k in l.clocks.Keys;
      assert RecordOk(l, k);
      assert Stamp(l, k) == Some(l.clocks[k]);
    }
  }

  lemma {:induction false} QuietStamps(l: Ledger, r: Report, now: real)
    requires StampsBy(l, now) && !SetChild(l, r, now).outcome.Emitted?
    ensures StampsBy(SetChild(l, r, now).ledger, now)
  {
    var m := SetChild(l, r, now).ledger;
    QuietEffects(l, r, now);
    forall x ensures Stamp(m, x) == Stamp(l, x) {
      assert m.clocks == l.clocks;
    }
  }

  /** The clock does not go back over the run. */
  predicate Timed(ops: seq<Operation>, from: real) {
    && (forall i :: 0 <= i < |ops| ==> from <= ops[i].now)
    && (forall i, j :: 0 <= i < j < |ops| ==> ops[i].now <= ops[j].now)
  }

  lemma {:induction false} RunStamps(start: Ledger, ops: seq<Operation>, from: real)
    requires Valid(start) && StampsBy(start, from) && Timed(ops, from)
    ensures Valid(Run(start, ops).ledger)
    ensures StampsBy(Run(start, ops).ledger, if ops == [] then from else ops[|ops| - 1].now)
  {
    if ops != [] {
      var front, op := ops[..|ops| - 1], ops[|ops| - 1];
      RunStamps(start, front, from);
      var l := Run(start, front).ledger;
      assert front != [] ==> front[|front| - 1] == ops[|front| - 1];
      assert StampsBy(l, op.now);
      if op.SetStatus? {
        ReportValid(l, op.report, op.now);
        ReportStamps(l, op.report, op.now);
      } else {
        PruningTheorem(l, op.now);
        DroppingKeepsStamps(l, Prune(l, op.now), op.now);
      }
    }
  }

  lemma {:induction false} RestoredStamps(statuses: seq<Status>, at: real)
    ensures StampsBy(FromSnapshot(statuses, at), at)
  {
    if statuses != [] {
      var front := FromSnapshot(statuses[..|statuses| - 1], at);
      RestoredStamps(statuses[..|statuses| - 1], at);
      forall k | k != statuses[|statuses| - 1].key ensures Stamp(FromSnapshot(statuses, at), k) == Stamp(front, k) {
      }
    }
  }

  /** The retention theorem: over any run of an empty or restored ledger whose clock does not go back, a prune one
      TTL after the last operation leaves neither a terminal nor a restored record, and drops no other. */
  lemma {:induction false} RetentionTheorem(statuses: seq<Status>, at: real, ops: seq<Operation>, now: real)
    requires Timed(ops, at) && now >= (if ops == [] then at else ops[|ops| - 1].now) + TTL
    ensures
      var l := Run(FromSnapshot(statuses, at), ops).ledger;
      forall k :: k in Prune(l, now).parents <==> k in l.parents && !Terminal(l.parents[k].state) && k !in l.restored
  {
    var start := FromSnapshot(statuses, at);
    RestoredValid(statuses, at);
    RestoredStamps(statuses, at);
    RunStamps(start, ops, at);
    PruningTheorem(Run(start, ops).ledger, now);
  }
}
