/**
 Telemetry of one application turn: every child recorder reports once, the turn reports once, and what the turn
 reports adds up.
 */
module Telemetry {
  import opened Base

  datatype Counter = Direct | Unsupported | Completed | Retained | Clarification | Declined | Failed | Cancelled

  const Counters: seq<Counter> := [Direct, Unsupported, Completed, Retained, Clarification, Declined, Failed, Cancelled]

  /** The vocabulary of a work item's outcome, and anything a caller may pass beside it. */
  datatype ItemOutcome =
    | ItemDirect | ItemUnsupported | ItemCompleted | ItemRetained | ItemClarify | ItemDeclined | ItemFailed
    | ItemCancelled | ItemMissingWorker | ItemMissingSearch | ItemCapacityRejected | ItemRetentionRejected
    | ItemUnrecognised(text: string)

  datatype TurnOutcome =
    | TurnDirect | TurnUnsupported | TurnControl | TurnClarify | TurnCompleted | TurnMixed | TurnRetained
    | TurnDeclined | TurnFailed | TurnCancelled | TurnUnrecognised(text: string)

  datatype ControlAction = PauseAction | ResumeAction | CancelAction | StopAction | ConsentAction | UnrecognisedAction(text: string)

  datatype ControlOutcome = Applied | UnknownTarget | NoActive | NoPending | UnrecognisedControl(text: string)

  function CounterFor(o: ItemOutcome): Counter {
    match o
    case ItemDirect => Direct
    case ItemUnsupported => Unsupported
    case ItemCompleted => Completed
    case ItemRetained => Retained
    case ItemClarify => Clarification
    case ItemDeclined => Declined
    case ItemCancelled => Cancelled
    case _ => Failed
  }

  function TurnOutcomeFor(c: Counter): TurnOutcome {
    match c
    case Direct => TurnDirect
    case Unsupported => TurnUnsupported
    case Completed => TurnCompleted
    case Retained => TurnRetained
    case Clarification => TurnClarify
    case Declined => TurnDeclined
    case Failed => TurnFailed
    case Cancelled => TurnCancelled
  }

  /** The two tables together: a turn whose children all ended one way ends that way itself, and every outcome without a
      counter of its own is a failure. */
  lemma {:induction false} OutcomeTables(o: ItemOutcome)
    ensures
      var shared := TurnOutcomeFor(CounterFor(o));
      match o
      case ItemDirect => shared == TurnDirect
      case ItemUnsupported => shared == TurnUnsupported
      case ItemCompleted => shared == TurnCompleted
      case ItemRetained => shared == TurnRetained
      case ItemClarify => shared == TurnClarify
      case ItemDeclined => shared == TurnDeclined
      case ItemCancelled => shared == TurnCancelled
      case _ => shared == TurnFailed
    ensures forall c, d :: TurnOutcomeFor(c) == TurnOutcomeFor(d) ==> c == d
  {
  }

  /** A recorder's emitted line. */
  datatype Record =
    | ItemRecord(child: nat, outcome: ItemOutcome)
    | TurnRecord(turn: TurnOutcome, childCount: nat, counters: map<Counter, nat>,
                 action: Option<ControlAction>, control: Option<ControlOutcome>)

  /** `finalized[i]`: child `i` has reported. `open`: registered children by work item id, oldest first. */
  datatype Turn = Turn(
    ids: seq<string>, finalized: seq<bool>, open: seq<nat>, counters: map<Counter, nat>, dispatched: nat,
    done: bool, records: seq<Record>)

  const Zero: map<Counter, nat> := map c | c in Counters :: 0

  const Fresh := Turn([], [], [], Zero, 0, false, [])

  /** Registered children exist and hold different ids. */
  predicate GoodOpen(ids: seq<string>, open: seq<nat>) {
    && (forall i :: 0 <= i < |open| ==> open[i] < |ids|)
    && (forall i, j :: 0 <= i < j < |open| ==> ids[open[i]] != ids[open[j]])
  }

  predicate WellFormed(t: Turn) {
    |t.ids| == |t.finalized| && t.counters.Keys == (set c | c in Counters) && GoodOpen(t.ids, t.open)
  }

  predicate Registered(t: Turn, id: string)
    requires WellFormed(t)
  {
    exists i :: 0 <= i < |t.open| && t.ids[t.open[i]] == id
  }

  /** A child whose id is still open is returned to the caller but not registered. */
  function NewChild(t: Turn, id: string): Turn
    requires WellFormed(t)
  {
    t.(ids := t.ids + [id], finalized := t.finalized + [false],
       open := if Registered(t, id) then t.open else t.open + [|t.ids|])
  }

  /** De-register whichever child currently holds the id. */
  function Pop(ids: seq<string>, open: seq<nat>, id: string): seq<nat>
    requires GoodOpen(ids, open)
  {
    if open == [] then []
    else Pop(ids, open[..|open| - 1], id) + if ids[open[|open| - 1]] == id then [] else [open[|open| - 1]]
  }

  function Known(o: ItemOutcome): ItemOutcome {
    if o.ItemUnrecognised? then ItemFailed else o
  }

  /** A child reports at most once; the report is attributed to the turn whatever the turn's own state. */
  function FinalizeChild(t: Turn, child: nat, outcome: ItemOutcome): Turn
    requires WellFormed(t) && child < |t.ids|
  {
    if t.finalized[child] then t
    else
      var o := Known(outcome);
      CounterListed(CounterFor(o));
      t.(finalized := t.finalized[child := true], open := Pop(t.ids, t.open, t.ids[child]),
         counters := t.counters[CounterFor(o) := t.counters[CounterFor(o)] + 1], dispatched := t.dispatched + 1,
         records := t.records + [ItemRecord(child, o)])
  }

  lemma {:induction false} CounterListed(c: Counter)
    ensures c in Counters
  {
    match c
    case Direct => assert Counters[0] == c;
    case Unsupported => assert Counters[1] == c;
    case Completed => assert Counters[2] == c;
    case Retained => assert Counters[3] == c;
    case Clarification => assert Counters[4] == c;
    case Declined => assert Counters[5] == c;
    case Failed => assert Counters[6] == c;
    case Cancelled => assert Counters[7] == c;
  }

  // ---- conservation -----------------------------------------------------------------------

  function SumOver(counters: map<Counter, nat>, cs: seq<Counter>): nat
    requires forall c :: c in cs ==> c in counters
  {
    if cs == [] then 0
    else
      assert forall c :: c in cs[..|cs| - 1] ==> c in cs;
      assert cs[|cs| - 1] in cs;
      SumOver(counters, cs[..|cs| - 1]) + counters[cs[|cs| - 1]]
  }

  function Total(t: Turn): nat
    requires WellFormed(t)
  {
    SumOver(t.counters, Counters)
  }

  function Reported(finalized: seq<bool>): nat {
    if finalized == [] then 0 else Reported(finalized[..|finalized| - 1]) + if finalized[|finalized| - 1] then 1 else 0
  }

  function RecordsOf(records: seq<Record>, child: nat): nat {
    if records == [] then 0
    else RecordsOf(records[..|records| - 1], child) +
         if records[|records| - 1].ItemRecord? && records[|records| - 1].child == child then 1 else 0
  }

  function TurnRecords(records: seq<Record>): nat {
    if records == [] then 0
    else TurnRecords(records[..|records| - 1]) + if records[|records| - 1].TurnRecord? then 1 else 0
  }

  /** The turn's books balance, and each child has one record exactly when it has reported. */
  ghost predicate Balanced(t: Turn) {
    && WellFormed(t)
    && Total(t) == t.dispatched == Reported(t.finalized)
    && (forall i :: 0 <= i < |t.open| ==> !t.finalized[t.open[i]])
    && (forall i :: 0 <= i < |t.finalized| ==> RecordsOf(t.records, i) == if t.finalized[i] then 1 else 0)
    && (forall i :: i >= |t.finalized| ==> RecordsOf(t.records, i) == 0)
    && TurnRecords(t.records) == if t.done then 1 else 0
  }

  /** No child that is still to report has been left out of the sweep. */
  predicate NoOrphans(t: Turn)
    requires WellFormed(t)
  {
    forall i :: 0 <= i < |t.finalized| && !t.finalized[i] ==> i in t.open
  }

  lemma {:induction false} SumBump(counters: map<Counter, nat>, cs: seq<Counter>, c: Counter)
    requires forall x :: x in cs ==> x in counters
    requires c in counters && forall i, j :: 0 <= i < j < |cs| ==> cs[i] != cs[j]
    ensures SumOver(counters[c := counters[c] + 1], cs) == SumOver(counters, cs) + if c in cs then 1 else 0
  {
    if cs != [] {
      var front, last := cs[..|cs| - 1], cs[|cs| - 1];
      assert forall x :: x in front ==> x in cs;
      assert cs == front + [last];
      SumBump(counters, front, c);
      assert last !in front;
    }
  }

  lemma {:induction false} ReportedBump(finalized: seq<bool>, i: nat)
    requires i < |finalized| && !finalized[i]
    ensures Reported(finalized[i := true]) == Reported(finalized) + 1
  {
    var n := |finalized| - 1;
    if i < n {
      ReportedBump(finalized[..n], i);
      assert finalized[i := true][..n] == finalized[..n][i := true];
    } else {
      assert finalized[i := true][..n] == finalized[..n];
    }
  }

  lemma {:induction false} ReportedAll(finalized: seq<bool>)
    requires forall i :: 0 <= i < |finalized| ==> finalized[i]
    ensures Reported(finalized) == |finalized|
  {
    if finalized != [] {
      ReportedAll(finalized[..|finalized| - 1]);
    }
  }

  lemma {:induction false} RecordsGrow(records: seq<Record>, r: Record, child: nat)
    ensures RecordsOf(records + [r], child) == RecordsOf(records, child) + if r.ItemRecord? && r.child == child then 1 else 0
    ensures TurnRecords(records + [r]) == TurnRecords(records) + if r.TurnRecord? then 1 else 0
  {
    assert (records + [r])[..|records|] == records;
  }

  lemma {:induction false} PopMembers(ids: seq<string>, open: seq<nat>, id: string)
    requires GoodOpen(ids, open)
    ensures forall k :: k in Pop(ids, open, id) <==> k in open && ids[k] != id
  {
    if open != [] {
      var front, last := open[..|open| - 1], open[|open| - 1];
      PopMembers(ids, front, id);
      assert open == front + [last];
    }
  }

  lemma {:induction false} LastHoldsItsId(ids: seq<string>, open: seq<nat>, k: nat)
    requires open != [] && GoodOpen(ids, open) && k in open[..|open| - 1]
    ensures k < |ids| && ids[k] != ids[open[|open| - 1]]
  {
    var j :| 0 <= j < |open| - 1 && open[..|open| - 1][j] == k;
    assert open[j] == k;
  }

  /** Popping an id removes the one child that holds it. */
  lemma {:induction false} PopMeaning(ids: seq<string>, open: seq<nat>, id: string)
    requires GoodOpen(ids, open)
    ensures forall k :: k in Pop(ids, open, id) <==> k in open && ids[k] != id
    ensures GoodOpen(ids, Pop(ids, open, id))
  {
    PopMembers(ids, open, id);
    if open != [] {
      var front, last := open[..|open| - 1], open[|open| - 1];
      PopMeaning(ids, front, id);
      var popped := Pop(ids, front, id);
      forall i | 0 <= i < |popped| ensures ids[popped[i]] != ids[last] {
        assert popped[i] in popped;
        LastHoldsItsId(ids, open, popped[i]);
      }
    }
  }

  lemma {:induction false} CountersDistinct()
    ensures forall i, j :: 0 <= i < j < |Counters| ==> Counters[i] != Counters[j]
  {
  }

  /** Registration keeps the open ids different and names only children that have not reported. */
  lemma {:induction false} NewChildOpen(t: Turn, id: string)
    requires WellFormed(t) && forall i :: 0 <= i < |t.open| ==> !t.finalized[t.open[i]]
    ensures
      var n := NewChild(t, id);
      WellFormed(n) && forall i :: 0 <= i < |n.open| ==> !n.finalized[n.open[i]]
  {
    var n := NewChild(t, id);
    forall i | 0 <= i < |t.open| ensures n.ids[t.open[i]] == t.ids[t.open[i]] && !n.finalized[t.open[i]] {
    }
  }

  lemma {:induction false} ReportedFalse(finalized: seq<bool>)
    ensures Reported(finalized + [false]) == Reported(finalized)
  {
    assert (finalized + [false])[..|finalized|] == finalized;
  }

  lemma {:induction false} NewChildRecords(t: Turn, id: string)
    requires Balanced(t)
    ensures
      var n := NewChild(t, id);
      && (forall i :: 0 <= i < |n.finalized| ==> RecordsOf(n.records, i) == if n.finalized[i] then 1 else 0)
      && (forall i :: i >= |n.finalized| ==> RecordsOf(n.records, i) == 0)
  {
    var n := NewChild(t, id);
    assert n.records == t.records && n.finalized == t.finalized + [false];
  }

  lemma {:induction false} NewChildKeeps(t: Turn, id: string)
    requires Balanced(t)
    ensures Balanced(NewChild(t, id))
  {
    NewChildOpen(t, id);
    NewChildRecords(t, id);
    ReportedFalse(t.finalized);
  }

  lemma {:induction false} NewChildOrphans(t: Turn, id: string)
    requires WellFormed(t) && NoOrphans(t) && !Registered(t, id)
    ensures WellFormed(NewChild(t, id)) && NoOrphans(NewChild(t, id))
  {
    var n := NewChild(t, id);
    assert GoodOpen(n.ids, n.open);
    forall i | 0 <= i < |n.finalized| && !n.finalized[i] ensures i in n.open {
      if i < |t.finalized| {
        assert i in t.open;
      }
    }
  }

  lemma {:induction false} FinalizeChildFormed(t: Turn, child: nat, outcome: ItemOutcome)
    requires WellFormed(t) && child < |t.ids|
    ensures WellFormed(FinalizeChild(t, child, outcome))
  {
    var o := Known(outcome);
    CounterListed(CounterFor(o));
    PopMeaning(t.ids, t.open, t.ids[child]);
  }

  lemma {:induction false} CounterBump(counters: map<Counter, nat>, c: Counter)
    requires counters.Keys == (set x | x in Counters) && c in counters
    ensures SumOver(counters[c := counters[c] + 1], Counters) == SumOver(counters, Counters) + 1
  {
    CounterListed(c);
    CountersDistinct();
    SumBump(counters, Counters, c);
  }

  lemma {:induction false} TotalBump(t: Turn, child: nat, outcome: ItemOutcome)
    requires WellFormed(t) && child < |t.ids| && !t.finalized[child]
    ensures WellFormed(FinalizeChild(t, child, outcome))
    ensures Total(FinalizeChild(t, child, outcome)) == Total(t) + 1
  {
    var c := CounterFor(Known(outcome));
    FinalizeChildFormed(t, child, outcome);
    CounterListed(c);
    CounterBump(t.counters, c);
    assert FinalizeChild(t, child, outcome).counters == t.counters[c := t.counters[c] + 1];
  }

  lemma {:induction false} RecordBump(t: Turn, child: nat, outcome: ItemOutcome)
    requires WellFormed(t) && child < |t.ids| && !t.finalized[child]
    ensures
      var m := FinalizeChild(t, child, outcome);
      && TurnRecords(m.records) == TurnRecords(t.records)
      && forall i: nat :: RecordsOf(m.records, i) == RecordsOf(t.records, i) + if i == child then 1 else 0
  {
    var m, r := FinalizeChild(t, child, outcome), ItemRecord(child, Known(outcome));
    RecordsGrow(t.records, r, child);
    forall i: nat ensures RecordsOf(m.records, i) == RecordsOf(t.records, i) + if i == child then 1 else 0 {
      RecordsGrow(t.records, r, i);
    }
  }

  lemma {:induction false} OpenUnreported(t: Turn, child: nat, outcome: ItemOutcome)
    requires WellFormed(t) && child < |t.ids| && (forall i :: 0 <= i < |t.open| ==> !t.finalized[t.open[i]])
    ensures
      var m := FinalizeChild(t, child, outcome);
      WellFormed(m) && forall i :: 0 <= i < |m.open| ==> !m.finalized[m.open[i]]
  {
    FinalizeChildFormed(t, child, outcome);
    PopMeaning(t.ids, t.open, t.ids[child]);
    var m := FinalizeChild(t, child, outcome);
    forall i | 0 <= i < |m.open| ensures !m.finalized[m.open[i]] {
      assert m.open[i] in t.open;
    }
  }

  /** A report moves one counter, one child and one record. */
  lemma {:induction false} FinalizeChildKeeps(t: Turn, child: nat, outcome: ItemOutcome)
    requires Balanced(t) && child < |t.ids|
    ensures Balanced(FinalizeChild(t, child, outcome))
  {
    if !t.finalized[child] {
      TotalBump(t, child, outcome);
      ReportedBump(t.finalized, child);
      RecordBump(t, child, outcome);
      OpenUnreported(t, child, outcome);
    }
  }

  /** Where ids are not reused while open, a report de-registers the child that made it and no other. */
  lemma {:induction false} FinalizeChildOrphans(t: Turn, child: nat, outcome: ItemOutcome)
    requires Balanced(t) && NoOrphans(t) && child < |t.ids|
    ensures WellFormed(FinalizeChild(t, child, outcome)) && NoOrphans(FinalizeChild(t, child, outcome))
  {
    FinalizeChildFormed(t, child, outcome);
    PopMeaning(t.ids, t.open, t.ids[child]);
    var m := FinalizeChild(t, child, outcome);
    forall i | 0 <= i < |m.finalized| && !m.finalized[i] ensures i in m.open {
      assert i in t.open;
      if !t.finalized[child] {
        assert child in t.open;
        assert t.ids[i] != t.ids[child];
      }
    }
  }
}
