/** What one child of a ledger key goes through while its key is retained. */
module LedgerChildren {
  import opened Base
  import opened WorkStatus
  import opened WorkLedger
  import opened LedgerRuns

  /** How far a state is from its end; the three terminal states are the end. */
  function Depth(s: WorkState): nat {
    match s
    case Routing => 0
    case Searching => 1
    case Background => 2
    case _ => 3
  }

  function Known(l: Ledger, k: Key, item: string): Option<Child> {
    Find(ChildrenOf(l, k), item)
  }

  /** Untouched, or further along. */
  predicate Moved(before: Child, after: Child) {
    after == before || Depth(before.state) < Depth(after.state)
  }

  /** The end is never left. */
  lemma {:induction false} MovedOn(a: Child, b: Child, c: Child)
    requires Moved(a, b) && Moved(b, c)
    ensures Moved(a, c) && (Terminal(a.state) ==> c == a)
  {
  }

  /** A report moves at most the child it names, and only forward. */
  lemma {:induction false} WithChildMoves(l: Ledger, r: Report, k: Key, item: string)
    requires Legal(l, r) && Known(l, k, item).Some?
    ensures Known(WithChild(l, r), k, item).Some? && Moved(Known(l, k, item).value, Known(WithChild(l, r), k, item).value)
    ensures k != KeyOf(r) || item != r.item ==> Known(WithChild(l, r), k, item) == Known(l, k, item)
  {
    UpsertFinds(ChildrenOf(l, KeyOf(r)), Child(r.item, r.worker, r.state, r.reason));
  }

  lemma {:induction false} QuietKeepsChildren(l: Ledger, k: Key, now: real, x: Key)
    requires !Reaggregate(l, k, now).outcome.Emitted? && x in l.parents
    ensures ChildrenOf(Reaggregate(l, k, now).ledger, x) == ChildrenOf(l, x)
  {
  }

  lemma {:induction false} ReportKeepsChildren(l: Ledger, r: Report, now: real, k: Key)
    requires Valid(l) && Legal(l, r) && WellFormed(r) && k in SetChild(l, r, now).ledger.parents
    ensures ChildrenOf(SetChild(l, r, now).ledger, k) == ChildrenOf(WithChild(l, r), k)
  {
    if SetChild(l, r, now).outcome.Emitted? {
      EmittedShape(l, r, now);
    } else {
      QuietEffects(l, r, now);
      QuietKeepsChildren(WithChild(l, r), KeyOf(r), now, k);
    }
  }

  lemma {:induction false} ApplyMoves(t: Trace, op: Operation, k: Key, item: string)
    requires Valid(t.ledger) && k in Apply(t, op).ledger.parents && Known(t.ledger, k, item).Some?
    ensures Known(Apply(t, op).ledger, k, item).Some?
    ensures Moved(Known(t.ledger, k, item).value, Known(Apply(t, op).ledger, k, item).value)
  {
    match op
    case PruneExpired(now) => PruningTheorem(t.ledger, now);
    case SetStatus(r, now) =>
      if Legal(t.ledger, r) && WellFormed(r) {
        WithChildMoves(t.ledger, r, k, item);
        ReportKeepsChildren(t.ledger, r, now, k);
      }
  }

  /** The key's record is there throughout the run. */
  predicate Retained(start: Ledger, ops: seq<Operation>, k: Key) {
    forall i :: 0 <= i <= |ops| ==> k in Run(start, ops[..i]).ledger.parents
  }

  lemma {:induction false} RetainedPrefix(start: Ledger, ops: seq<Operation>, k: Key)
    requires ops != [] && Retained(start, ops, k)
    ensures Retained(start, ops[..|ops| - 1], k) && k in Run(start, ops).ledger.parents
  {
    var front := ops[..|ops| - 1];
    assert ops[..|ops|] == ops;
    forall i | 0 <= i <= |front| ensures k in Run(start, front[..i]).ledger.parents {
      assert front[..i] == ops[..i];
    }
  }

  lemma {:induction false} RunStaysValid(start: Ledger, ops: seq<Operation>, k: Key)
    requires Valid(start)
    ensures Valid(Run(start, ops).ledger)
  {
    RunKeeps(start, ops, k);
  }

  /** The child theorem: while its key is retained a known child is never lost and never moves back, over any
      reports, prunes and evictions; one that is terminal keeps its state, its reason and its worker for good. */
  lemma {:induction false} ChildTheorem(start: Ledger, ops: seq<Operation>, k: Key, item: string)
    requires Valid(start) && Retained(start, ops, k) && Known(start, k, item).Some?
    ensures Known(Run(start, ops).ledger, k, item).Some?
    ensures
      var before, after := Known(start, k, item).value, Known(Run(start, ops).ledger, k, item).value;
      Moved(before, after) && (Terminal(before.state) ==> after == before)
  {
    if ops != [] {
      RetainedPrefix(start, ops, k);
      var front, op := ops[..|ops| - 1], ops[|ops| - 1];
      ChildTheorem(start, front, k, item);
      RunStaysValid(start, front, k);
      var t := Run(start, front);
      assert Run(start, ops) == Apply(t, op);
      ApplyMoves(t, op, k, item);
      MovedOn(Known(start, k, item).value, Known(t.ledger, k, item).value, Known(Apply(t, op).ledger, k, item).value);
    }
  }
}
