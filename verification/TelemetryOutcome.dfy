/** What a turn's counters and its derived outcome say about the records of its children. */
module TelemetryOutcome {
  import opened Base
  import opened Telemetry
  import opened TelemetryTurn

  predicate Reports(r: Record, c: Counter) {
    r.ItemRecord? && CounterFor(r.outcome) == c
  }

  function Tally(records: seq<Record>, c: Counter): nat {
    if records == [] then 0 else Tally(records[..|records| - 1], c) + if Reports(records[|records| - 1], c) then 1 else 0
  }

  /** Each counter is the number of child records of its kind. */
  ghost predicate Attributed(t: Turn) {
    WellFormed(t) && forall c :: c in Counters ==> t.counters[c] == Tally(t.records, c)
  }

  lemma {:induction false} TallyGrows(records: seq<Record>, r: Record, c: Counter)
    ensures Tally(records + [r], c) == Tally(records, c) + if Reports(r, c) then 1 else 0
  {
    assert (records + [r])[..|records|] == records;
  }

  lemma {:induction false} FinalizeChildAttributed(t: Turn, child: nat, outcome: ItemOutcome)
    requires Attributed(t) && child < |t.ids|
    ensures Attributed(FinalizeChild(t, child, outcome)) && FinalizeChild(t, child, outcome).ids == t.ids
  {
    var m := FinalizeChild(t, child, outcome);
    FinalizeChildFormed(t, child, outcome);
    if !t.finalized[child] {
      CounterListed(CounterFor(Known(outcome)));
      forall c | c in Counters ensures m.counters[c] == Tally(m.records, c) {
        TallyGrows(t.records, ItemRecord(child, Known(outcome)), c);
      }
    }
  }

  lemma {:induction false} SweepAttributed(t: Turn, targets: seq<nat>, outcome: ItemOutcome)
    requires Attributed(t) && forall i :: 0 <= i < |targets| ==> targets[i] < |t.ids|
    ensures Attributed(Sweep(t, targets, outcome))
    decreases |targets|
  {
    if targets != [] {
      FinalizeChildAttributed(t, targets[0], outcome);
      SweepAttributed(FinalizeChild(t, targets[0], outcome), targets[1..], outcome);
    }
  }

  /** The sweep retracts no record and gives each open child its own with the sweep's outcome. */
  lemma {:induction false} SweepRecords(t: Turn, targets: seq<nat>, outcome: ItemOutcome)
    requires WellFormed(t) && forall i :: 0 <= i < |targets| ==> targets[i] < |t.ids|
    ensures
      var s := Sweep(t, targets, outcome);
      && t.records <= s.records
      && forall i :: i in targets && !t.finalized[i] ==> ItemRecord(i, Known(outcome)) in s.records
    decreases |targets|
  {
    if targets != [] {
      var m, first := FinalizeChild(t, targets[0], outcome), targets[0];
      FinalizeChildFormed(t, first, outcome);
      SweepRecords(m, targets[1..], outcome);
      var s := Sweep(t, targets, outcome);
      assert s == Sweep(m, targets[1..], outcome) && m.records <= s.records;
      assert targets == [first] + targets[1..];
      if !t.finalized[first] {
        assert m.records[|t.records|] == ItemRecord(first, Known(outcome));
        assert s.records[|t.records|] == ItemRecord(first, Known(outcome));
      }
    }
  }

  lemma {:induction false} FinalizeTurnAttributed(t: Turn, outcome: Option<TurnOutcome>, action: Option<ControlAction>, control: Option<ControlOutcome>)
    requires Attributed(t)
    ensures Attributed(FinalizeTurn(t, outcome, action, control))
  {
    if !t.done {
      SweepAttributed(t, t.open, SweepOutcome(outcome));
      SweepFormed(t, t.open, SweepOutcome(outcome));
      var s := Sweep(t, t.open, SweepOutcome(outcome));
      forall c | c in Counters ensures Tally(s.records + [TurnReport(s, outcome, action, control)], c) == Tally(s.records, c) {
        TallyGrows(s.records, TurnReport(s, outcome, action, control), c);
      }
      assert s.records + [] == s.records;
    }
  }

  lemma {:induction false} RunAttributed(ops: seq<Operation>)
    requires Run(ops).Some?
    ensures Attributed(Run(ops).value)
  {
    if ops == [] {
      FreshBalanced();
    } else {
      var t := Run(ops[..|ops| - 1]).value;
      RunAttributed(ops[..|ops| - 1]);
      match ops[|ops| - 1]
      case Create(id) =>
      case Report(child, outcome) => FinalizeChildAttributed(t, child, outcome);
      case Finish(turn, action, control) => FinalizeTurnAttributed(t, turn, action, control);
    }
  }

  // ---- the derived outcome ----------------------------------------------------------------

  /** Some child reported an outcome of this kind. */
  predicate Occurs(records: seq<Record>, c: Counter) {
    exists i :: 0 <= i < |records| && Reports(records[i], c)
  }

  lemma {:induction false} TallyOccurs(records: seq<Record>, c: Counter)
    ensures Tally(records, c) > 0 <==> Occurs(records, c)
  {
    if records != [] {
      var front, last := records[..|records| - 1], records[|records| - 1];
      TallyOccurs(front, c);
      if Occurs(front, c) {
        var i :| 0 <= i < |front| && Reports(front[i], c);
        assert records[i] == front[i];
      } else if Occurs(records, c) {
        var i :| 0 <= i < |records| && Reports(records[i], c);
        assert i < |front| ==> front[i] == records[i];
      }
    }
  }

  predicate AllDifferent(cs: seq<Counter>) {
    forall i, j :: 0 <= i < j < |cs| ==> cs[i] != cs[j]
  }

  lemma {:induction false} NonzeroMeaning(counters: map<Counter, nat>, cs: seq<Counter>)
    requires forall c :: c in cs ==> c in counters
    requires AllDifferent(cs)
    ensures
      var nonzero := Nonzero(counters, cs);
      && (forall c :: c in nonzero <==> c in cs && counters[c] > 0)
      && AllDifferent(nonzero)
  {
    if cs != [] {
      var front, last := cs[..|cs| - 1], cs[|cs| - 1];
      assert forall c :: c in front ==> c in cs;
      assert cs == front + [last];
      NonzeroMeaning(counters, front);
      assert last !in front;
    }
  }

  lemma {:induction false} NonzeroOccurs(t: Turn)
    requires Attributed(t)
    ensures
      var nonzero := Nonzero(t.counters, Counters);
      && (forall c :: c in nonzero <==> Occurs(t.records, c))
      && AllDifferent(nonzero)
  {
    CountersDistinct();
    NonzeroMeaning(t.counters, Counters);
    forall c ensures c in Nonzero(t.counters, Counters) <==> Occurs(t.records, c) {
      CounterListed(c);
      TallyOccurs(t.records, c);
    }
  }

  /** The outcome a set of child records stands for. */
  predicate Describes(o: TurnOutcome, records: seq<Record>) {
    && (o.TurnMixed? <==> exists c, d :: c != d && Occurs(records, c) && Occurs(records, d))
    && (forall c :: Occurs(records, c) && !o.TurnMixed? ==> o == TurnOutcomeFor(c))
    && ((forall c :: !Occurs(records, c)) ==> o.TurnFailed?)
  }

  /** `kinds` are the kinds that occur, each once. */
  ghost predicate Kinds(kinds: seq<Counter>, records: seq<Record>) {
    AllDifferent(kinds) && forall c :: c in kinds <==> Occurs(records, c)
  }

  lemma {:induction false} OneKind(kinds: seq<Counter>, records: seq<Record>)
    requires Kinds(kinds, records) && |kinds| == 1
    ensures Describes(TurnOutcomeFor(kinds[0]), records)
  {
    assert kinds[0] in kinds;
    assert forall c :: Occurs(records, c) ==> c == kinds[0];
  }

  lemma {:induction false} SeveralKinds(kinds: seq<Counter>, records: seq<Record>)
    requires Kinds(kinds, records) && |kinds| > 1
    ensures Describes(TurnMixed, records)
  {
    assert kinds[0] in kinds && kinds[1] in kinds && kinds[0] != kinds[1];
    assert Occurs(records, kinds[0]) && Occurs(records, kinds[1]);
  }

  lemma {:induction false} DerivedDescribes(t: Turn)
    requires Attributed(t)
    ensures Describes(Derived(t), t.records)
  {
    NonzeroOccurs(t);
    var nonzero := Nonzero(t.counters, Counters);
    assert Kinds(nonzero, t.records);
    if |nonzero| == 1 {
      OneKind(nonzero, t.records);
    } else if |nonzero| > 1 {
      SeveralKinds(nonzero, t.records);
    } else {
      assert forall c :: !Occurs(t.records, c);
    }
  }

  lemma {:induction false} DescribesGrows(o: TurnOutcome, records: seq<Record>, r: Record)
    requires Describes(o, records) && r.TurnRecord?
    ensures Describes(o, records + [r])
  {
    forall c ensures Occurs(records + [r], c) <==> Occurs(records, c) {
      TallyGrows(records, r, c);
      TallyOccurs(records, c);
      TallyOccurs(records + [r], c);
    }
  }

  /** What finalizing appends: the swept children's records, then the turn's own. */
  lemma {:induction false} FinalizedRecords(t: Turn, outcome: Option<TurnOutcome>, action: Option<ControlAction>, control: Option<ControlOutcome>)
    requires Balanced(t) && !t.done
    ensures
      var f, s := FinalizeTurn(t, outcome, action, control), Sweep(t, t.open, SweepOutcome(outcome));
      && WellFormed(s) && t.records <= s.records && f.records == s.records + [TurnReport(s, outcome, action, control)]
      && f.counters == s.counters
      && forall i :: i in t.open ==> ItemRecord(i, SweepOutcome(outcome)) in f.records
  {
    FinalizeTurnShape(t, outcome, action, control);
    SweepRecords(t, t.open, SweepOutcome(outcome));
  }

  /** A derived outcome is never `control`, so control fields passed along with it are inconsistent. */
  lemma {:induction false} DerivedReport(s: Turn, action: Option<ControlAction>, control: Option<ControlOutcome>)
    requires WellFormed(s)
    ensures
      var r := TurnReport(s, None, action, control);
      && r.action.None? && r.control.None?
      && r.turn == if action.None? && control.None? then Derived(s) else TurnFailed
  {
    assert !Derived(s).TurnControl? && !Derived(s).TurnUnrecognised?;
  }

  lemma {:induction false} FinalizedOutcome(t: Turn, action: Option<ControlAction>, control: Option<ControlOutcome>)
    requires Balanced(t) && Attributed(t) && !t.done
    ensures
      var f := FinalizeTurn(t, None, action, control);
      && f.records != [] && f.records[|f.records| - 1].TurnRecord?
      && (action.None? && control.None? ==> Describes(f.records[|f.records| - 1].turn, f.records))
      && (action.Some? || control.Some? ==> f.records[|f.records| - 1].turn.TurnFailed?)
  {
    var s := Sweep(t, t.open, SweepOutcome(None));
    FinalizedRecords(t, None, action, control);
    SweepAttributed(t, t.open, SweepOutcome(None));
    DerivedDescribes(s);
    DerivedReport(s, action, control);
    DescribesGrows(Derived(s), s.records, TurnReport(s, None, action, control));
  }

  /** The fields a caller passes fit together: a known outcome, with both control fields known for a control turn and
      neither for any other. */
  predicate Coherent(outcome: TurnOutcome, action: Option<ControlAction>, control: Option<ControlOutcome>) {
    match outcome
    case TurnUnrecognised(_) => false
    case TurnControl =>
      action.Some? && control.Some? && !action.value.UnrecognisedAction? && !control.value.UnrecognisedControl?
    case _ => action.None? && control.None?
  }

  /** What the record's validator accepts: every counter present, a sum equal to the child count, and an outcome whose
      control fields fit it. */
  lemma {:induction false} ValidatorMeaning(r: Record)
    requires r.TurnRecord?
    ensures Accepts(r) <==>
            && r.counters.Keys == (set c | c in Counters) && SumOver(r.counters, Counters) == r.childCount
            && Coherent(r.turn, r.action, r.control)
  {
  }

  /** An outcome of the caller's own is reported unchanged, control fields included, exactly when the fields fit together;
      otherwise the turn is reported as failed without them. */
  lemma {:induction false} ExplicitReport(s: Turn, outcome: TurnOutcome, action: Option<ControlAction>, control: Option<ControlOutcome>)
    requires WellFormed(s)
    ensures
      var r := TurnReport(s, Some(outcome), action, control);
      if Coherent(outcome, action, control) then r.turn == outcome && r.action == action && r.control == control
      else r.turn == TurnFailed && r.action.None? && r.control.None?
  {
  }

  /** What the last record says of the arguments and the children, and what became of those swept up. */
  ghost predicate Concludes(t: Turn, finish: Operation, f: Turn)
    requires finish.Finish?
  {
    && f.records != [] && t.records < f.records
    && var last := f.records[|f.records| - 1];
    && last.TurnRecord? && last.counters == f.counters
    && (finish.turn.None? && finish.action.None? && finish.control.None? ==> Describes(last.turn, f.records))
    && (finish.turn.None? && (finish.action.Some? || finish.control.Some?) ==> last.turn.TurnFailed?)
    && (finish.turn.None? ==> last.action.None? && last.control.None?)
    && (finish.turn.Some? ==>
          if Coherent(finish.turn.value, finish.action, finish.control)
          then last.turn == finish.turn.value && last.action == finish.action && last.control == finish.control
          else last.turn == TurnFailed && last.action.None? && last.control.None?)
    && (forall i :: i in t.open ==>
          ItemRecord(i, if finish.turn == Some(TurnCancelled) then ItemCancelled else ItemFailed) in f.records)
  }

  /** The outcome theorem: in every run and for every outcome and control fields, an outcome of the caller's own is
      reported as given when its control fields fit and as failed otherwise; each counter of the turn's record is
      the number of child records of its kind, and every child swept up is recorded as cancelled with a cancelled turn
      and as failed otherwise. A turn finalized without an outcome of its own is mixed exactly when two children ended
      differently, shares its children's outcome when they all agree, and failed when it had none; control fields
      passed with it make it failed. */
  lemma {:induction false} OutcomeTheorem(ops: seq<Operation>, finish: Operation)
    requires finish.Finish? && Run(ops).Some? && !Run(ops).value.done
    ensures Attributed(Finished(ops, finish)) && Concludes(Run(ops).value, finish, Finished(ops, finish))
  {
    RunBalanced(ops);
    RunAttributed(ops);
    FinishConcludes(Run(ops).value, finish);
  }

  lemma {:induction false} FinishConcludes(t: Turn, finish: Operation)
    requires finish.Finish? && Balanced(t) && Attributed(t) && !t.done
    ensures
      var f := FinalizeTurn(t, finish.turn, finish.action, finish.control);
      Attributed(f) && Concludes(t, finish, f)
  {
    FinalizeTurnAttributed(t, finish.turn, finish.action, finish.control);
    FinalizedRecords(t, finish.turn, finish.action, finish.control);
    var s := Sweep(t, t.open, SweepOutcome(finish.turn));
    if finish.turn.None? {
      FinalizedOutcome(t, finish.action, finish.control);
      DerivedReport(s, finish.action, finish.control);
    } else {
      ExplicitReport(s, finish.turn.value, finish.action, finish.control);
    }
  }

  /** The turn after `finish` ends it. */
  function Finished(ops: seq<Operation>, finish: Operation): Turn
    requires finish.Finish? && Run(ops).Some?
  {
    FinalizeTurn(Run(ops).value, finish.turn, finish.action, finish.control)
  }
}
