/** Exactly which children a turn that is finalized leaves without a record, read off the run alone. */
module TelemetryOrphans {
  import opened Base
  import opened Telemetry
  import opened TelemetryTurn
  import opened TelemetryOutcome

  /** Operation `k` creates child `i`. */
  predicate Creates(ops: seq<Operation>, k: nat, i: nat) {
    k < |ops| && ops[k].Create? && Run(ops[..k]).Some? && |Run(ops[..k]).value.ids| == i
  }

  /** The id was held by an open child when operation `k` gave it to a new one. */
  predicate Held(ops: seq<Operation>, k: nat)
    requires k < |ops| && ops[k].Create?
  {
    Run(ops[..k]).Some? && Registered(Run(ops[..k]).value, ops[k].id)
  }

  /** Operation `m` is the first report of a child with this id. */
  predicate Reports(ops: seq<Operation>, m: nat, id: string) {
    && m < |ops| && ops[m].Report? && Run(ops[..m]).Some? && ops[m].child < |Run(ops[..m]).value.ids|
    && !Run(ops[..m]).value.finalized[ops[m].child] && Run(ops[..m]).value.ids[ops[m].child] == id
  }

  predicate ReportedSince(ops: seq<Operation>, k: nat, id: string) {
    exists m :: k < m < |ops| && Reports(ops, m, id)
  }

  /** What the steps of an unfinished turn leave alone. */
  lemma {:induction false} StepKeeps(ops: seq<Operation>)
    requires ops != [] && Run(ops).Some? && !Run(ops).value.done
    ensures Run(ops[..|ops| - 1]).Some? && !Run(ops[..|ops| - 1]).value.done && !ops[|ops| - 1].Finish?
    ensures Run(ops[..|ops| - 1]).value.ids <= Run(ops).value.ids
  {
  }

  lemma {:induction false} ReportsPrefix(ops: seq<Operation>, m: nat, id: string)
    requires m < |ops| - 1
    ensures Reports(ops[..|ops| - 1], m, id) <==> Reports(ops, m, id)
  {
    assert ops[..|ops| - 1][..m] == ops[..m];
  }

  lemma {:induction false} SinceBefore(ops: seq<Operation>, k: nat, id: string)
    requires k + 1 < |ops| && ReportedSince(ops[..|ops| - 1], k, id)
    ensures ReportedSince(ops, k, id)
  {
    var m :| k < m < |ops| - 1 && Reports(ops[..|ops| - 1], m, id);
    ReportsPrefix(ops, m, id);
  }

  /** One further operation reports the id, or nobody new has. */
  lemma {:induction false} ReportedSinceStep(ops: seq<Operation>, k: nat, id: string)
    requires k + 1 < |ops|
    ensures ReportedSince(ops, k, id) <==> ReportedSince(ops[..|ops| - 1], k, id) || Reports(ops, |ops| - 1, id)
  {
    if ReportedSince(ops[..|ops| - 1], k, id) {
      SinceBefore(ops, k, id);
    } else if ReportedSince(ops, k, id) {
      var m :| k < m < |ops| && Reports(ops, m, id);
      if m < |ops| - 1 {
        ReportsPrefix(ops, m, id);
      }
    }
  }

  /** A child stays registered over one operation unless a child of its id reports. */
  lemma {:induction false} OpenStep(ops: seq<Operation>, i: nat)
    requires ops != [] && Run(ops).Some? && !Run(ops).value.done
    requires Run(ops[..|ops| - 1]).Some? && i < |Run(ops[..|ops| - 1]).value.ids|
    ensures i < |Run(ops).value.ids| && Run(ops).value.ids[i] == Run(ops[..|ops| - 1]).value.ids[i]
    ensures i in Run(ops).value.open <==>
            i in Run(ops[..|ops| - 1]).value.open && !Reports(ops, |ops| - 1, Run(ops).value.ids[i])
    ensures Run(ops[..|ops| - 1]).value.finalized[i] ==> Run(ops).value.finalized[i]
  {
    var front, op := ops[..|ops| - 1], ops[|ops| - 1];
    var t := Run(front).value;
    if op.Report? {
      PopMeaning(t.ids, t.open, t.ids[op.child]);
    }
  }

  /** Creation registers the child unless its id is held. */
  lemma {:induction false} CreateStep(ops: seq<Operation>)
    requires ops != [] && ops[|ops| - 1].Create? && Run(ops).Some?
    ensures
      var i := |Run(ops).value.ids| - 1;
      && 0 <= i && Run(ops).value.ids[i] == ops[|ops| - 1].id && !Run(ops).value.finalized[i]
      && (i in Run(ops).value.open <==> !Held(ops, |ops| - 1))
  {
    var t := Run(ops[..|ops| - 1]).value;
    assert forall j :: j in t.open ==> j < |t.ids|;
  }

  /** In every unfinished run a child is within the sweep's reach exactly when its id was free at its creation and no
      child of that id has reported since. */
  lemma {:induction false} ReachExactly(ops: seq<Operation>, k: nat, i: nat)
    requires Run(ops).Some? && !Run(ops).value.done && Creates(ops, k, i)
    ensures i < |Run(ops).value.ids| && Run(ops).value.ids[i] == ops[k].id
    ensures i in Run(ops).value.open <==> !Held(ops, k) && !ReportedSince(ops, k, ops[k].id)
  {
    var front := ops[..|ops| - 1];
    StepKeeps(ops);
    if k == |ops| - 1 {
      CreateStep(ops);
    } else {
      assert front[..k] == ops[..k] && front[k] == ops[k];
      ReachExactly(front, k, i);
      OpenStep(ops, i);
      ReportedSinceStep(ops, k, ops[k].id);
    }
  }

  /** Some operation created each child. */
  lemma {:induction false} CreationOf(ops: seq<Operation>, i: nat) returns (k: nat)
    requires Run(ops).Some? && !Run(ops).value.done && i < |Run(ops).value.ids|
    ensures Creates(ops, k, i)
  {
    var front := ops[..|ops| - 1];
    if ops != [] {
      StepKeeps(ops);
      if i < |Run(front).value.ids| {
        k := CreationOf(front, i);
        assert front[..k] == ops[..k];
      } else {
        k := |ops| - 1;
      }
    }
  }

  /** The child created by operation `k` had not reported, and either its id was held or a child of it reported since. */
  predicate Lost(ops: seq<Operation>, k: nat, i: nat)
    requires Run(ops).Some? && Creates(ops, k, i) && i < |Run(ops).value.finalized|
  {
    !Run(ops).value.finalized[i] && (Held(ops, k) || ReportedSince(ops, k, ops[k].id))
  }

  /** The orphan theorem: when a turn is finalized, whatever ids were reused, a child created before ends without a record
      exactly when it had not reported and its id was held when it was created or reported by another child since. Every
      other child has exactly one record. */
  lemma {:induction false} OrphanTheorem(ops: seq<Operation>, finish: Operation, k: nat, i: nat)
    requires finish.Finish? && Run(ops).Some? && !Run(ops).value.done && Creates(ops, k, i)
    ensures WellFormed(Run(ops).value) && i < |Run(ops).value.finalized|
    ensures
      var f := FinalizeTurn(Run(ops).value, finish.turn, finish.action, finish.control);
      RecordsOf(f.records, i) == if Lost(ops, k, i) then 0 else 1
  {
    var t := Run(ops).value;
    RunBalanced(ops);
    ReachExactly(ops, k, i);
    RecordedIfReached(t, finish.turn, finish.action, finish.control, i);
  }

  lemma {:induction false} RecordedIfReached(t: Turn, outcome: Option<TurnOutcome>, action: Option<ControlAction>, control: Option<ControlOutcome>, i: nat)
    requires Balanced(t) && !t.done && i < |t.finalized|
    ensures RecordsOf(FinalizeTurn(t, outcome, action, control).records, i) == if t.finalized[i] || i in t.open then 1 else 0
  {
    var s := Sweep(t, t.open, SweepOutcome(outcome));
    SweepMeaning(t, t.open, SweepOutcome(outcome));
    FinalizeTurnShape(t, outcome, action, control);
    TurnRecordKeeps(s, TurnReport(s, outcome, action, control));
  }

  // ---- what a record says -----------------------------------------------------------------

  lemma {:induction false} FinishExtends(t: Turn, outcome: Option<TurnOutcome>, action: Option<ControlAction>, control: Option<ControlOutcome>)
    requires WellFormed(t)
    ensures t.records <= FinalizeTurn(t, outcome, action, control).records
  {
    if !t.done {
      SweepRecords(t, t.open, SweepOutcome(outcome));
    }
  }

  /** No record is ever taken back. */
  lemma {:induction false} RecordsStay(ops: seq<Operation>, i: nat)
    requires i <= |ops| && Run(ops).Some?
    ensures Run(ops[..i]).Some? && Run(ops[..i]).value.records <= Run(ops).value.records
  {
    if i == |ops| {
      assert ops[..i] == ops;
    } else {
      var front, op := ops[..|ops| - 1], ops[|ops| - 1];
      RecordsStay(front, i);
      assert front[..i] == ops[..i];
      if op.Finish? {
        FinishExtends(Run(front).value, op.turn, op.action, op.control);
      }
    }
  }

  /** A child's first report is recorded for good as it was made, or as failed when it is not in the vocabulary. */
  lemma {:induction false} ReportRecorded(ops: seq<Operation>, m: nat, id: string)
    requires Run(ops).Some? && Reports(ops, m, id)
    ensures
      var said := ops[m].outcome;
      ItemRecord(ops[m].child, if said.ItemUnrecognised? then ItemFailed else said) in Run(ops).value.records
  {
    var t := Run(ops[..m]).value;
    assert ops[..m + 1][..m] == ops[..m];
    RecordsStay(ops, m + 1);
    var after := Run(ops[..m + 1]).value;
    assert after == FinalizeChild(t, ops[m].child, ops[m].outcome);
    assert after.records[|t.records|] == ItemRecord(ops[m].child, Known(ops[m].outcome));
  }
}
