/** No record is lost early: within the cap, a record stays until one TTL after its clock started. */
module LedgerRetention {
  import opened Base
  import opened WorkStatus
  import opened WorkLedger
  import opened LedgerRuns
  import opened LedgerChildren
  import opened LedgerView

  /** Every key the ledger holds or the operations report on. */
  function Named(start: Ledger, ops: seq<Operation>): set<Key> {
    start.parents.Keys + set op | op in ops && op.SetStatus? :: KeyOf(op.report)
  }

  /** All within one TTL from `from`. */
  predicate Within(ops: seq<Operation>, from: real) {
    forall i :: 0 <= i < |ops| ==> from <= ops[i].now < from + TTL
  }

  /** The record is there, and its clock, if it has one, started at `from` or later. */
  predicate Held(l: Ledger, k: Key, from: real) {
    k in l.parents && (Stamp(l, k).Some? ==> from <= Stamp(l, k).value)
  }

  lemma {:induction false} SubsetCount(a: set<Key>, b: set<Key>)
    requires a <= b
    ensures |a| <= |b|
  {
    assert b == a + (b - a);
  }

  lemma {:induction false} QuietStampSame(l: Ledger, r: Report, now: real, k: Key)
    requires !SetChild(l, r, now).outcome.Emitted?
    ensures Stamp(SetChild(l, r, now).ledger, k) == Stamp(l, k)
  {
    QuietEffects(l, r, now);
    assert SetChild(l, r, now).ledger.clocks == l.clocks;
  }

  lemma {:induction false} WrittenHeld(l: Ledger, r: Report, now: real, k: Key, from: real)
    requires Valid(l) && !Closed(l, KeyOf(r)) && Held(l, k, from) && from <= now
    ensures Held(Written(WithChild(l, r), KeyOf(r), now), k, from)
  {
    var w := Written(WithChild(l, r), KeyOf(r), now);
    if k == KeyOf(r) {
      StampMeaning(l, k);
      assert k in l.clocks <==> k in l.restored;
    } else {
      assert Stamp(w, k) == Stamp(l, k);
    }
  }

  lemma {:induction false} ReportHeld(l: Ledger, r: Report, now: real, k: Key, from: real)
    requires Valid(l) && Held(l, k, from) && from <= now
    requires |l.parents.Keys + {KeyOf(r)}| <= MAX_KEYS
    ensures Held(SetChild(l, r, now).ledger, k, from)
    ensures SetChild(l, r, now).ledger.parents.Keys <= l.parents.Keys + {KeyOf(r)}
  {
    if SetChild(l, r, now).outcome.Emitted? {
      var w := Written(WithChild(l, r), KeyOf(r), now);
      EmittedShape(l, r, now);
      WrittenHeld(l, r, now, k, from);
      assert w.parents.Keys == l.parents.Keys + {KeyOf(r)};
      assert |w.parents| == |w.parents.Keys|;
      EvictsNoMore(w, KeyOf(r));
    } else {
      QuietEffects(l, r, now);
      QuietStampSame(l, r, now, k);
    }
  }

  lemma {:induction false} PruneHeld(l: Ledger, now: real, k: Key, from: real)
    requires Valid(l) && Held(l, k, from) && now < from + TTL
    ensures Held(Prune(l, now), k, from) && Prune(l, now).parents.Keys <= l.parents.Keys
  {
    PruningTheorem(l, now);
  }

  lemma {:induction false} NamedStep(start: Ledger, front: seq<Operation>, op: Operation)
    ensures Named(start, front) <= Named(start, front + [op])
    ensures op.SetStatus? ==> KeyOf(op.report) in Named(start, front + [op])
  {
    var ops := front + [op];
    assert op in ops && forall o :: o in front ==> o in ops;
  }

  lemma {:induction false} ApplyHeld(t: Trace, op: Operation, k: Key, from: real, named: set<Key>)
    requires Valid(t.ledger) && Held(t.ledger, k, from) && from <= op.now < from + TTL
    requires t.ledger.parents.Keys <= named && |named| <= MAX_KEYS && (op.SetStatus? ==> KeyOf(op.report) in named)
    ensures Held(Apply(t, op).ledger, k, from) && Apply(t, op).ledger.parents.Keys <= named
  {
    match op
    case PruneExpired(now) => PruneHeld(t.ledger, now, k, from);
    case SetStatus(r, now) =>
      SubsetCount(t.ledger.parents.Keys + {KeyOf(r)}, named);
      ReportHeld(t.ledger, r, now, k, from);
  }

  /** The holding theorem: over any operations that together name no more keys than the cap, all within one TTL of
      `from`, no record is lost whose clock had not started before `from`. */
  lemma {:induction false} HoldingTheorem(start: Ledger, ops: seq<Operation>, k: Key, from: real)
    requires Valid(start) && Held(start, k, from) && Within(ops, from) && |Named(start, ops)| <= MAX_KEYS
    ensures Held(Run(start, ops).ledger, k, from) && Run(start, ops).ledger.parents.Keys <= Named(start, ops)
  {
    if ops != [] {
      var front, op := ops[..|ops| - 1], ops[|ops| - 1];
      assert ops == front + [op];
      NamedStep(start, front, op);
      SubsetCount(Named(start, front), Named(start, ops));
      HoldingTheorem(start, front, k, from);
      RunStaysValid(start, front, k);
      ApplyHeld(Run(start, front), op, k, from, Named(start, ops));
    }
  }

  /** Until one TTL after its terminal event a key's record is retained, unchanged, while the cap is kept. */
  lemma {:induction false} TerminalRetained(l: Ledger, r: Report, at: real, later: seq<Operation>)
    requires Valid(l) && SetChild(l, r, at).outcome.Emitted? && Terminal(SetChild(l, r, at).outcome.status.state)
    requires Within(later, at) && |Named(SetChild(l, r, at).ledger, later)| <= MAX_KEYS
    ensures
      var k, told := KeyOf(r), SetChild(l, r, at).outcome.status;
      && k in Run(SetChild(l, r, at).ledger, later).ledger.parents
      && Run(SetChild(l, r, at).ledger, later).ledger.parents[k] == Record(told.state, told.sequence, told.reason, Some(at))
  {
    var k, m := KeyOf(r), SetChild(l, r, at).ledger;
    ReportValid(l, r, at);
    TerminalRecord(l, r, at);
    HoldingTheorem(m, later, k, at);
    HistoryTheorem(m, later, k);
    ViewTheorem(m, later, k);
  }

  lemma {:induction false} TerminalRecord(l: Ledger, r: Report, at: real)
    requires Valid(l) && SetChild(l, r, at).outcome.Emitted? && Terminal(SetChild(l, r, at).outcome.status.state)
    ensures
      var k, told, m := KeyOf(r), SetChild(l, r, at).outcome.status, SetChild(l, r, at).ledger;
      && k in m.parents && m.parents[k] == Record(told.state, told.sequence, told.reason, Some(at))
      && Closed(m, k) && Held(m, k, at)
  {
    var w := Written(WithChild(l, r), KeyOf(r), at);
    EmittedShape(l, r, at);
    ReportParents(l, r, at);
    EvictEffects(w, KeyOf(r));
  }

  // ---- a clock is never restarted ---------------------------------------------------------

  lemma {:induction false} ReportClock(l: Ledger, r: Report, now: real, k: Key)
    requires Valid(l) && k in l.parents && Stamp(l, k).Some? && k in SetChild(l, r, now).ledger.parents
    ensures Stamp(SetChild(l, r, now).ledger, k) == Stamp(l, k)
  {
    if SetChild(l, r, now).outcome.Emitted? {
      EmittedShape(l, r, now);
      WrittenClock(l, r, now, k);
    } else {
      QuietStampSame(l, r, now, k);
    }
  }

  lemma {:induction false} WrittenClock(l: Ledger, r: Report, now: real, k: Key)
    requires Valid(l) && k in l.parents && Stamp(l, k).Some? && SetChild(l, r, now).outcome.Emitted?
    ensures Stamp(Written(WithChild(l, r), KeyOf(r), now), k) == Stamp(l, k)
  {
    if k == KeyOf(r) {
      assert RecordOk(l, k);
      EmitsByWriting(l, r, now);
      StampMeaning(l, k);
    }
  }

  /** The clock theorem: a clock once started runs on unchanged for as long as the record is retained, whatever is
      reported meanwhile; so a restored record goes one TTL after the restore however often it is updated. */
  lemma {:induction false} ClockTheorem(start: Ledger, ops: seq<Operation>, k: Key, now: real)
    requires Valid(start) && k in start.parents && Stamp(start, k).Some? && Retained(start, ops, k)
    ensures Stamp(Run(start, ops).ledger, k) == Stamp(start, k)
    ensures k in Prune(Run(start, ops).ledger, now).parents <==> now < Stamp(start, k).value + TTL
  {
    if ops != [] {
      var front, op := ops[..|ops| - 1], ops[|ops| - 1];
      RetainedPrefix(start, ops, k);
      ClockTheorem(start, front, k, now);
      RunStaysValid(start, front, k);
      assert front[..|front|] == front && k in Run(start, front).ledger.parents;
      ApplyClock(Run(start, front), op, k);
    }
    assert ops[..|ops|] == ops && k in Run(start, ops).ledger.parents;
    RunStaysValid(start, ops, k);
    PruningTheorem(Run(start, ops).ledger, now);
  }

  lemma {:induction false} ApplyClock(t: Trace, op: Operation, k: Key)
    requires Valid(t.ledger) && k in t.ledger.parents && Stamp(t.ledger, k).Some? && k in Apply(t, op).ledger.parents
    ensures Stamp(Apply(t, op).ledger, k) == Stamp(t.ledger, k)
  {
    match op
    case PruneExpired(now) => PruningTheorem(t.ledger, now);
    case SetStatus(r, now) => ReportClock(t.ledger, r, now, k);
  }

  // ---- what a restore holds ---------------------------------------------------------------

  /** A restored ledger holds exactly the keys of the snapshot, each as its last status said, every clock started at
      the restore. */
  lemma {:induction false} RestoredMeaning(statuses: seq<Status>, at: real, k: Key)
    ensures
      var l, mine := FromSnapshot(statuses, at), EventsOf(statuses, k);
      && (k in l.parents <==> mine != [])
      && (k in l.parents ==> Announced(k, l.parents[k]) == mine[|mine| - 1] && Stamp(l, k) == Some(at))
      && Counter(l, k) == (if mine == [] then 0 else mine[|mine| - 1].sequence)
  {
    if statuses != [] {
      RestoredMeaning(statuses[..|statuses| - 1], at, k);
    }
  }
}
