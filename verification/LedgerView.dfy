/** The ledger and its clients agree: a retained record is what the last event of its key announced. */
module LedgerView {
  import opened WorkStatus
  import opened WorkLedger
  import opened LedgerRuns
  import opened LedgerChildren

  function Announced(k: Key, r: Record): Status {
    Status(k, r.state, r.sequence, r.reason)
  }

  /** A report leaves every record it keeps as it was, except the one its event announces. */
  lemma {:induction false} ReportParents(l: Ledger, r: Report, now: real)
    requires Valid(l)
    ensures
      var Step(m, out) := SetChild(l, r, now);
      && (forall x :: x in m.parents && (x != KeyOf(r) || !out.Emitted?) ==> x in l.parents && m.parents[x] == l.parents[x])
      && (out.Emitted? ==> KeyOf(r) in m.parents && Announced(KeyOf(r), m.parents[KeyOf(r)]) == out.status)
  {
    if SetChild(l, r, now).outcome.Emitted? {
      EmittedShape(l, r, now);
      var w := Written(WithChild(l, r), KeyOf(r), now);
      EvictEffects(w, KeyOf(r));
      assert KeyOf(r) in l.parents ==> RecordOk(l, KeyOf(r));
      EmitsByWriting(l, r, now);
    } else {
      QuietEffects(l, r, now);
    }
  }

  /** The record, if there is one, is the last event of its key, or the starting record if there was none. */
  predicate Shown(start: Ledger, t: Trace, k: Key) {
    var mine := EventsOf(t.events, k);
    k in t.ledger.parents ==>
      if mine == [] then k in start.parents && t.ledger.parents[k] == start.parents[k]
      else Announced(k, t.ledger.parents[k]) == mine[|mine| - 1]
  }

  lemma {:induction false} KeptShown(start: Ledger, t: Trace, m: Ledger, k: Key)
    requires Shown(start, t, k) && (k in m.parents ==> k in t.ledger.parents && m.parents[k] == t.ledger.parents[k])
    ensures Shown(start, Trace(m, t.events), k)
  {
  }

  lemma {:induction false} EmissionShown(start: Ledger, t: Trace, m: Ledger, s: Status, k: Key)
    requires Shown(start, t, k)
    requires k in m.parents && k != s.key ==> k in t.ledger.parents && m.parents[k] == t.ledger.parents[k]
    requires s.key in m.parents && Announced(s.key, m.parents[s.key]) == s
    ensures Shown(start, Trace(m, t.events + [s]), k)
  {
    EventsOfGrows(t.events, s, k);
  }

  lemma {:induction false} PruneShown(start: Ledger, t: Trace, now: real, k: Key)
    requires Valid(t.ledger) && Shown(start, t, k)
    ensures Shown(start, Trace(Prune(t.ledger, now), t.events), k)
  {
    PruningTheorem(t.ledger, now);
    KeptShown(start, t, Prune(t.ledger, now), k);
  }

  lemma {:induction false} ReportShown(start: Ledger, t: Trace, r: Report, now: real, k: Key)
    requires Valid(t.ledger) && Shown(start, t, k)
    ensures Shown(start, Apply(t, SetStatus(r, now)), k)
  {
    ReportParents(t.ledger, r, now);
    var Step(m, out) := SetChild(t.ledger, r, now);
    if out.Emitted? {
      assert out.status.key == KeyOf(r);
      EmissionShown(start, t, m, out.status, k);
    } else {
      KeptShown(start, t, m, k);
    }
  }

  /** The view theorem: over any interleaving of reports, prunes and evictions, a record that is retained is
      exactly what its key's clients were last told, or the record the run started with. */
  lemma {:induction false} ViewTheorem(start: Ledger, ops: seq<Operation>, k: Key)
    requires Valid(start)
    ensures Shown(start, Run(start, ops), k)
  {
    if ops != [] {
      var front, op := ops[..|ops| - 1], ops[|ops| - 1];
      ViewTheorem(start, front, k);
      RunStaysValid(start, front, k);
      match op
      case PruneExpired(now) => PruneShown(start, Run(start, front), now, k);
      case SetStatus(r, now) => ReportShown(start, Run(start, front), r, now, k);
    }
  }
}
