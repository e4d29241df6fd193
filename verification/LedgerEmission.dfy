/** When a report is announced: exactly which reports emit an event, and that a fresh key never goes unheard. */
module LedgerEmission {
  import opened Base
  import opened WorkStatus
  import opened WorkLedger
  import opened LedgerRuns
  import opened LedgerChildren
  import opened LedgerView

  /** The children the report's key will have once it is recorded. */
  function ChildrenWith(l: Ledger, r: Report): Children {
    Upsert(ChildrenOf(l, KeyOf(r)), Child(r.item, r.worker, r.state, r.reason))
  }

  /** The emission theorem: a legal, well-formed report emits if and only if no client holds its key as terminal, the
      aggregate is news, and it would not end a key whose children are not all known. Otherwise it is recorded quietly. */
  lemma {:induction false} EmitsExactly(l: Ledger, r: Report, now: real)
    requires Valid(l) && Legal(l, r) && WellFormed(r)
    ensures
      var k, next := KeyOf(r), Aggregate(ChildrenWith(l, r));
      && (SetChild(l, r, now).outcome.Emitted? <==>
            && !Closed(l, k)
            && (k in l.parents ==> l.parents[k].state != next)
            && !(k in l.restored && Terminal(next)))
      && !SetChild(l, r, now).outcome.Raised?
  {
    var k := KeyOf(r);
    WithChildFacts(l, r);
    assert k in l.parents ==> RecordOk(l, k);
  }

  /** An illegal report changes nothing; a legal but malformed one raises and emits nothing. */
  lemma {:induction false} RejectedReport(l: Ledger, r: Report, now: real)
    ensures !Legal(l, r) ==> SetChild(l, r, now) == Step(l, Quiet)
    ensures SetChild(l, r, now).outcome.Raised? <==> Legal(l, r) && !WellFormed(r)
  {
    if Legal(l, r) && WellFormed(r) {
      assert !Reaggregate(WithChild(l, r), KeyOf(r), now).outcome.Raised?;
    }
  }

  /** A legal, well-formed report whose key is retained leaves its child as reported and every sibling alone. */
  lemma {:induction false} ReportRecorded(l: Ledger, r: Report, now: real, item: string)
    requires Valid(l) && Legal(l, r) && WellFormed(r) && KeyOf(r) in SetChild(l, r, now).ledger.parents
    ensures Known(SetChild(l, r, now).ledger, KeyOf(r), item) ==
            if item == r.item then Some(Child(r.item, r.worker, r.state, r.reason)) else Known(l, KeyOf(r), item)
  {
    ReportKeepsChildren(l, r, now, KeyOf(r));
    UpsertFinds(ChildrenOf(l, KeyOf(r)), Child(r.item, r.worker, r.state, r.reason));
  }

  lemma {:induction false} EventsGrow(start: Ledger, ops: seq<Operation>, i: nat, k: Key)
    requires i <= |ops|
    ensures |EventsOf(Run(start, ops[..i]).events, k)| <= |EventsOf(Run(start, ops).events, k)|
  {
    if i == |ops| {
      assert ops[..i] == ops;
    } else {
      var front, op := ops[..|ops| - 1], ops[|ops| - 1];
      EventsGrow(start, front, i, k);
      assert front[..i] == ops[..i];
      var t := Run(start, front);
      if op.SetStatus? && SetChild(t.ledger, op.report, op.now).outcome.Emitted? {
        EventsOfGrows(t.events, SetChild(t.ledger, op.report, op.now).outcome.status, k);
      }
    }
  }

  /** A key that is in the ledger without having started there has been announced. */
  lemma {:induction false} PresentMeansAnnounced(start: Ledger, ops: seq<Operation>, k: Key)
    requires Valid(start) && k !in start.parents && !Closed(start, k)
    requires k in Run(start, ops).ledger.parents || Closed(Run(start, ops).ledger, k)
    ensures EventsOf(Run(start, ops).events, k) != []
  {
    HistoryTheorem(start, ops, k);
    ViewTheorem(start, ops, k);
  }

  /** The announcement theorem: a key the run did not start with, once it has received a legal and well-formed report,
      has been announced, and its counter has moved; whatever else was reported, pruned or evicted. */
  lemma {:induction false} AnnouncementTheorem(start: Ledger, ops: seq<Operation>, i: nat)
    requires Valid(start) && i < |ops| && ops[i].SetStatus? && WellFormed(ops[i].report)
    requires Legal(Run(start, ops[..i]).ledger, ops[i].report)
    requires
      var k := KeyOf(ops[i].report);
      k !in start.parents && !Closed(start, k) && k !in start.restored
    ensures
      var k := KeyOf(ops[i].report);
      EventsOf(Run(start, ops).events, k) != [] && Counter(Run(start, ops).ledger, k) > Counter(start, k)
  {
    var k, r, t := KeyOf(ops[i].report), ops[i].report, Run(start, ops[..i]);
    RunKeeps(start, ops[..i], k);
    EmitsExactly(t.ledger, r, ops[i].now);
    if SetChild(t.ledger, r, ops[i].now).outcome.Emitted? {
      var status := SetChild(t.ledger, r, ops[i].now).outcome.status;
      assert ops[..i + 1][..i] == ops[..i];
      EmittedKey(t.ledger, r, ops[i].now);
      EventsOfGrows(t.events, status, k);
      EventsGrow(start, ops, i + 1, k);
    } else {
      PresentMeansAnnounced(start, ops[..i], k);
      EventsGrow(start, ops, i, k);
    }
    HistoryTheorem(start, ops, k);
  }

  lemma {:induction false} EmittedKey(l: Ledger, r: Report, now: real)
    requires Valid(l) && SetChild(l, r, now).outcome.Emitted?
    ensures SetChild(l, r, now).outcome.status.key == KeyOf(r)
  {
    ReportParents(l, r, now);
  }

  /** In particular the first report of an empty ledger. */
  lemma {:induction false} FirstReport(r: Report, now: real)
    requires WellFormed(r) && r.state != Cancelled
    ensures SetChild(Empty, r, now).outcome ==
            Emitted(Status(KeyOf(r), r.state, 1, if r.state.Failed? then r.reason else None))
  {
    TransitionMeaning(Routing, r.state);
    EmitsExactly(Empty, r, now);
    EmittedMeaning(Empty, r, now);
    var child := Child(r.item, r.worker, r.state, r.reason);
    assert Upsert([], child) == [child];
    LoneChild(child);
  }

  lemma {:induction false} LoneChild(child: Child)
    ensures Aggregate([child]) == child.state
    ensures AggregateReason([child]) == if child.state.Failed? then child.reason else None
  {
    AggregateMeaning([child]);
    assert AnyIn([child], Aggregate([child]));
    assert Aggregate([child]) == child.state;
    assert [child][1..] == [] && FirstReason([child][1..]) == None;
    if child.state.Failed? {
      assert FirstReason([child]) == child.reason;
    }
  }
}
