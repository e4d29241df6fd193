/** Finalizing a turn: the sweep of open children, the derived outcome, the control fields and the one record. */
module TelemetryTurn {
  import opened Base
  import opened Telemetry

  /** The children open when the sweep starts, each finalized in turn. */
  function Sweep(t: Turn, targets: seq<nat>, outcome: ItemOutcome): Turn
    requires WellFormed(t) && forall i :: 0 <= i < |targets| ==> targets[i] < |t.ids|
    decreases |targets|
  {
    if targets == [] then t
    else
      FinalizeChildFormed(t, targets[0], outcome);
      Sweep(FinalizeChild(t, targets[0], outcome), targets[1..], outcome)
  }

  function Nonzero(counters: map<Counter, nat>, cs: seq<Counter>): seq<Counter>
    requires forall c :: c in cs ==> c in counters
  {
    if cs == [] then []
    else
      assert forall c :: c in cs[..|cs| - 1] ==> c in cs;
      assert cs[|cs| - 1] in cs;
      Nonzero(counters, cs[..|cs| - 1]) + if counters[cs[|cs| - 1]] > 0 then [cs[|cs| - 1]] else []
  }

  function Derived(t: Turn): TurnOutcome
    requires WellFormed(t)
  {
    var nonzero := Nonzero(t.counters, Counters);
    if |nonzero| == 1 then TurnOutcomeFor(nonzero[0]) else if |nonzero| > 1 then TurnMixed else TurnFailed
  }

  predicate ConsistentControl(outcome: TurnOutcome, action: Option<ControlAction>, control: Option<ControlOutcome>) {
    && !outcome.TurnUnrecognised?
    && (action.Some? ==> !action.value.UnrecognisedAction?) && (control.Some? ==> !control.value.UnrecognisedControl?)
    && (action.Some? <==> control.Some?)
    && (outcome.TurnControl? <==> action.Some? && control.Some?)
  }

  /** The record's own rules: counters that add up, known vocabulary, and control fields exactly with the
      control outcome. */
  predicate Accepts(r: Record) {
    && r.TurnRecord? && r.counters.Keys == (set c | c in Counters)
    && SumOver(r.counters, Counters) == r.childCount
    && !r.turn.TurnUnrecognised?
    && (r.action.Some? ==> !r.action.value.UnrecognisedAction?) && (r.control.Some? ==> !r.control.value.UnrecognisedControl?)
    && (if r.turn.TurnControl? then r.action.Some? && r.control.Some? else r.action.None? && r.control.None?)
  }

  function SweepOutcome(outcome: Option<TurnOutcome>): ItemOutcome {
    if outcome == Some(TurnCancelled) then ItemCancelled else ItemFailed
  }

  function TurnReport(swept: Turn, outcome: Option<TurnOutcome>, action: Option<ControlAction>, control: Option<ControlOutcome>): Record
    requires WellFormed(swept)
  {
    var chosen := if outcome.Some? then outcome.value else Derived(swept);
    if ConsistentControl(chosen, action, control)
    then TurnRecord(chosen, swept.dispatched, swept.counters, action, control)
    else TurnRecord(TurnFailed, swept.dispatched, swept.counters, None, None)
  }

  /** A rejected record is dropped, and the turn is not finalized twice. */
  function FinalizeTurn(t: Turn, outcome: Option<TurnOutcome>, action: Option<ControlAction>, control: Option<ControlOutcome>): Turn
    requires WellFormed(t)
  {
    if t.done then t
    else
      SweepFormed(t, t.open, SweepOutcome(outcome));
      var swept := Sweep(t, t.open, SweepOutcome(outcome));
      var report := TurnReport(swept, outcome, action, control);
      swept.(done := true, records := swept.records + if Accepts(report) then [report] else [])
  }

  lemma {:induction false} SweepFormed(t: Turn, targets: seq<nat>, outcome: ItemOutcome)
    requires WellFormed(t) && forall i :: 0 <= i < |targets| ==> targets[i] < |t.ids|
    ensures WellFormed(Sweep(t, targets, outcome)) && Sweep(t, targets, outcome).ids == t.ids
    decreases |targets|
  {
    if targets != [] {
      FinalizeChildFormed(t, targets[0], outcome);
      SweepFormed(FinalizeChild(t, targets[0], outcome), targets[1..], outcome);
    }
  }

  lemma {:induction false} SweepBalanced(t: Turn, targets: seq<nat>, outcome: ItemOutcome)
    requires Balanced(t) && forall i :: 0 <= i < |targets| ==> targets[i] < |t.ids|
    ensures Balanced(Sweep(t, targets, outcome))
    decreases |targets|
  {
    if targets != [] {
      FinalizeChildKeeps(t, targets[0], outcome);
      SweepBalanced(FinalizeChild(t, targets[0], outcome), targets[1..], outcome);
    }
  }

  /** The sweep makes exactly its targets report. */
  lemma {:induction false} SweepReports(t: Turn, targets: seq<nat>, outcome: ItemOutcome)
    requires WellFormed(t) && forall i :: 0 <= i < |targets| ==> targets[i] < |t.ids|
    ensures
      var s := Sweep(t, targets, outcome);
      && s.ids == t.ids && s.done == t.done && |s.finalized| == |t.finalized|
      && forall i :: 0 <= i < |s.finalized| ==> (s.finalized[i] <==> t.finalized[i] || i in targets)
    decreases |targets|
  {
    if targets != [] {
      FinalizeChildFormed(t, targets[0], outcome);
      SweepReports(FinalizeChild(t, targets[0], outcome), targets[1..], outcome);
      assert targets == [targets[0]] + targets[1..];
    }
  }

  lemma {:induction false} SweepMeaning(t: Turn, targets: seq<nat>, outcome: ItemOutcome)
    requires Balanced(t) && forall i :: 0 <= i < |targets| ==> targets[i] < |t.ids|
    ensures
      var s := Sweep(t, targets, outcome);
      && Balanced(s) && s.ids == t.ids && s.done == t.done
      && forall i :: 0 <= i < |s.finalized| ==> (s.finalized[i] <==> t.finalized[i] || i in targets)
  {
    SweepBalanced(t, targets, outcome);
    SweepReports(t, targets, outcome);
  }

  /** The report of a balanced turn is never rejected, whatever outcome and control fields the caller passes. */
  lemma {:induction false} ReportAccepted(t: Turn, outcome: Option<TurnOutcome>, action: Option<ControlAction>, control: Option<ControlOutcome>)
    requires Balanced(t)
    ensures Accepts(TurnReport(t, outcome, action, control))
    ensures TurnReport(t, outcome, action, control).childCount == Reported(t.finalized)
  {
    assert SumOver(t.counters, Counters) == t.dispatched;
  }

  /** A turn record is one more record of the turn and none of any child. */
  lemma {:induction false} TurnRecordKeeps(s: Turn, report: Record)
    requires Balanced(s) && !s.done && report.TurnRecord?
    ensures Balanced(s.(done := true, records := s.records + [report]))
    ensures forall i: nat :: RecordsOf(s.records + [report], i) == RecordsOf(s.records, i)
  {
    RecordsGrow(s.records, report, 0);
    forall i: nat ensures RecordsOf(s.records + [report], i) == RecordsOf(s.records, i) {
      RecordsGrow(s.records, report, i);
    }
  }

  lemma {:induction false} FinalizeTurnShape(t: Turn, outcome: Option<TurnOutcome>, action: Option<ControlAction>, control: Option<ControlOutcome>)
    requires Balanced(t) && !t.done
    ensures
      var s := Sweep(t, t.open, SweepOutcome(outcome));
      && Balanced(s) && !s.done
      && Accepts(TurnReport(s, outcome, action, control))
      && TurnReport(s, outcome, action, control).childCount == Reported(s.finalized)
      && FinalizeTurn(t, outcome, action, control) ==
         s.(done := true, records := s.records + [TurnReport(s, outcome, action, control)])
  {
    SweepMeaning(t, t.open, SweepOutcome(outcome));
    ReportAccepted(Sweep(t, t.open, SweepOutcome(outcome)), outcome, action, control);
  }

  /** The turn theorem: finalizing an open turn emits exactly one turn record, accepted for every combination of
      outcome and control fields; its count is the number of children that reported and the sum of its counters;
      and every child has exactly one record if and only if none had been left out of the sweep. */
  lemma {:induction false} FinalizeTurnTheorem(t: Turn, outcome: Option<TurnOutcome>, action: Option<ControlAction>, control: Option<ControlOutcome>)
    requires Balanced(t) && !t.done
    ensures Balanced(FinalizeTurn(t, outcome, action, control))
    ensures
      var f := FinalizeTurn(t, outcome, action, control);
      && f.done && |f.ids| == |t.ids| && f.records != [] && Accepts(f.records[|f.records| - 1])
      && f.records[|f.records| - 1].childCount == Reported(f.finalized)
    ensures
      var f := FinalizeTurn(t, outcome, action, control);
      && (EveryChildRecorded(f) <==> NoOrphans(t))
      && (NoOrphans(t) ==> Reported(f.finalized) == |t.ids|)
  {
    SweepMeaning(t, t.open, SweepOutcome(outcome));
    FinalizeTurnShape(t, outcome, action, control);
    var s := Sweep(t, t.open, SweepOutcome(outcome));
    TurnRecordKeeps(s, TurnReport(s, outcome, action, control));
    AllReported(t, s);
    RecordedMeansReported(FinalizeTurn(t, outcome, action, control));
  }

  predicate EveryChildRecorded(t: Turn) {
    forall i :: 0 <= i < |t.finalized| ==> RecordsOf(t.records, i) == 1
  }

  lemma {:induction false} RecordedMeansReported(t: Turn)
    requires Balanced(t)
    ensures EveryChildRecorded(t) <==> forall i :: 0 <= i < |t.finalized| ==> t.finalized[i]
  {
    if EveryChildRecorded(t) {
      forall i | 0 <= i < |t.finalized| ensures t.finalized[i] {
        assert RecordsOf(t.records, i) == 1;
      }
    }
  }

  lemma {:induction false} AllReported(t: Turn, s: Turn)
    requires WellFormed(t) && |s.finalized| == |t.finalized|
    requires forall i :: 0 <= i < |s.finalized| ==> (s.finalized[i] <==> t.finalized[i] || i in t.open)
    ensures (forall i :: 0 <= i < |s.finalized| ==> s.finalized[i]) <==> NoOrphans(t)
    ensures NoOrphans(t) ==> Reported(s.finalized) == |t.ids|
  {
    if NoOrphans(t) {
      ReportedAll(s.finalized);
    }
  }

  // ---- runs -------------------------------------------------------------------------------

  datatype Operation =
    | Create(id: string)
    | Report(child: nat, outcome: ItemOutcome)
    | Finish(turn: Option<TurnOutcome>, action: Option<ControlAction>, control: Option<ControlOutcome>)

  /** The turn after `ops`; none when an operation names a child that does not exist. */
  function Run(ops: seq<Operation>): (r: Option<Turn>)
    ensures r.Some? ==> WellFormed(r.value)
  {
    if ops == [] then Some(Fresh)
    else
      var before := Run(ops[..|ops| - 1]);
      if before.None? then None
      else
        var t := before.value;
        match ops[|ops| - 1]
        case Create(id) => Some(NewChild(t, id))
        case Report(child, outcome) =>
          if child < |t.ids| then FinalizeChildFormed(t, child, outcome); Some(FinalizeChild(t, child, outcome)) else None
        case Finish(turn, action, control) => SweepFormed(t, t.open, SweepOutcome(turn)); Some(FinalizeTurn(t, turn, action, control))
  }

  /** No id is given to a new child while an earlier child with it is still open. */
  predicate NoReuse(ops: seq<Operation>) {
    forall i :: 0 <= i < |ops| && ops[i].Create? && Run(ops[..i]).Some? ==> !Registered(Run(ops[..i]).value, ops[i].id)
  }

  lemma {:induction false} FreshBalanced()
    ensures Balanced(Fresh) && NoOrphans(Fresh)
  {
    assert SumOver(Zero, Counters) == 0 by {
      ZeroSum(Counters);
    }
  }

  lemma {:induction false} ZeroSum(cs: seq<Counter>)
    requires forall c :: c in cs ==> c in Counters
    ensures SumOver(Zero, cs) == 0
  {
    if cs != [] {
      assert forall c :: c in cs[..|cs| - 1] ==> c in cs;
      ZeroSum(cs[..|cs| - 1]);
      assert cs[|cs| - 1] in cs;
    }
  }

  /** Conservation over every run, reused ids or not. */
  lemma {:induction false} RunBalanced(ops: seq<Operation>)
    requires Run(ops).Some?
    ensures Balanced(Run(ops).value)
  {
    if ops == [] {
      FreshBalanced();
    } else {
      var front, op := ops[..|ops| - 1], ops[|ops| - 1];
      RunBalanced(front);
      var t := Run(front).value;
      match op
      case Create(id) => NewChildKeeps(t, id);
      case Report(child, outcome) => FinalizeChildKeeps(t, child, outcome);
      case Finish(turn, action, control) =>
        if !t.done {
          FinalizeTurnTheorem(t, turn, action, control);
        }
    }
  }

  lemma {:induction false} NoReusePrefix(ops: seq<Operation>)
    requires ops != [] && NoReuse(ops)
    ensures NoReuse(ops[..|ops| - 1])
  {
    var front := ops[..|ops| - 1];
    forall i | 0 <= i < |front| && front[i].Create? && Run(front[..i]).Some?
      ensures !Registered(Run(front[..i]).value, front[i].id)
    {
      assert front[..i] == ops[..i] && front[i] == ops[i];
    }
  }

  lemma {:induction false} FinishLeavesNoOrphans(t: Turn, turn: Option<TurnOutcome>, action: Option<ControlAction>, control: Option<ControlOutcome>)
    requires Balanced(t) && NoOrphans(t)
    ensures WellFormed(FinalizeTurn(t, turn, action, control)) && NoOrphans(FinalizeTurn(t, turn, action, control))
  {
    if !t.done {
      SweepMeaning(t, t.open, SweepOutcome(turn));
      FinalizeTurnShape(t, turn, action, control);
    }
  }

  /** Without reuse no child is ever left out of the sweep. */
  lemma {:induction false} RunNoOrphans(ops: seq<Operation>)
    requires Run(ops).Some? && NoReuse(ops)
    ensures NoOrphans(Run(ops).value)
  {
    if ops == [] {
      FreshBalanced();
    } else {
      var front, op := ops[..|ops| - 1], ops[|ops| - 1];
      NoReusePrefix(ops);
      RunBalanced(front);
      RunNoOrphans(front);
      var t := Run(front).value;
      match op
      case Create(id) => NewChildOrphans(t, id);
      case Report(child, outcome) => FinalizeChildOrphans(t, child, outcome);
      case Finish(turn, action, control) => FinishLeavesNoOrphans(t, turn, action, control);
    }
  }

  /** The telemetry theorem: in every run that reuses no open id, when the turn is finalized for the first time
      every child created before has exactly one record, the turn has exactly one, it was accepted, and its
      child count is the number of children created. */
  lemma {:induction false} TelemetryTheorem(ops: seq<Operation>, finish: Operation)
    requires finish.Finish? && Run(ops).Some? && !Run(ops).value.done && NoReuse(ops)
    ensures
      var t := Run(ops).value;
      var f := FinalizeTurn(t, finish.turn, finish.action, finish.control);
      && |f.finalized| == |t.ids| && EveryChildRecorded(f)
      && TurnRecords(f.records) == 1 && f.records != [] && Accepts(f.records[|f.records| - 1])
      && f.records[|f.records| - 1].childCount == |t.ids|
  {
    RunBalanced(ops);
    RunNoOrphans(ops);
    FinalizeTurnTheorem(Run(ops).value, finish.turn, finish.action, finish.control);
  }

  /** A reused id can orphan a child: the second holder is never registered, and the first one's report closes
      the id. By the turn theorem the turn then ends with a child that has no record. */
  lemma {:induction false} ReuseOrphans()
    ensures
      var two := NewChild(NewChild(Fresh, "a"), "a");
      var t := FinalizeChild(two, 0, ItemCompleted);
      Balanced(t) && !t.done && !NoOrphans(t)
  {
    var one := NewChild(Fresh, "a");
    FreshBalanced();
    NewChildKeeps(Fresh, "a");
    NewChildKeeps(one, "a");
    assert one.ids[one.open[0]] == "a";
    var two := NewChild(one, "a");
    assert two.open == [0];
    FinalizeChildKeeps(two, 0, ItemCompleted);
    PopMeaning(two.ids, two.open, "a");
    var t := FinalizeChild(two, 0, ItemCompleted);
    assert |t.finalized| == 2 && !t.finalized[1] && 1 !in t.open;
  }
}
