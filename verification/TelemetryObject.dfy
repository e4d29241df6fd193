/** The turn recorder as it updates itself in place; a child recorder is the handle `CreateChild` returns. */
module TelemetryObject {
  import opened Base
  import opened Telemetry
  import opened TelemetryTurn

  class AppTurnRecorder {
    var ids: seq<string>
    var finalized: seq<bool>
    var open: seq<nat>
    var counters: map<Counter, nat>
    var dispatched: nat
    var done: bool
    var records: seq<Record>

    ghost function View(): Turn
      reads this
    {
      Turn(ids, finalized, open, counters, dispatched, done, records)
    }

    ghost predicate Valid()
      reads this
    {
      WellFormed(View())
    }

    constructor ()
      ensures View() == Fresh && Valid()
    {
      ids, finalized, open, counters, dispatched, done, records := [], [], [], Zero, 0, false, [];
      new;
      FreshBalanced();
    }

    method CreateChild(id: string) returns (child: nat)
      requires Valid()
      modifies this
      ensures Valid() && View() == NewChild(old(View()), id) && child == |old(ids)|
    {
      child := |ids|;
      var taken := exists i :: 0 <= i < |open| && ids[open[i]] == id;
      ids, finalized := ids + [id], finalized + [false];
      if !taken {
        open := open + [child];
      }
    }

    /** The child's own latch, its record, and its attribution to the turn. */
    method ReportChild(child: nat, outcome: ItemOutcome)
      requires Valid() && child < |ids|
      modifies this
      ensures Valid() && View() == FinalizeChild(old(View()), child, outcome)
    {
      FinalizeChildFormed(View(), child, outcome);
      if finalized[child] {
        return;
      }
      var known := Known(outcome);
      var counter := CounterFor(known);
      CounterListed(counter);
      finalized := finalized[child := true];
      records := records + [ItemRecord(child, known)];
      open := Pop(ids, open, ids[child]);
      counters := counters[counter := counters[counter] + 1];
      dispatched := dispatched + 1;
    }

    method Finalize(outcome: Option<TurnOutcome>, action: Option<ControlAction>, control: Option<ControlOutcome>)
      requires Valid()
      modifies this
      ensures Valid() && View() == FinalizeTurn(old(View()), outcome, action, control)
    {
      if done {
        return;
      }
      ghost var before := View();
      var targets, swept := open, SweepOutcome(outcome);
      var i := 0;
      while i < |targets|
        invariant 0 <= i <= |targets| && Valid() && ids == before.ids
        invariant Sweep(View(), targets[i..], swept) == Sweep(before, targets, swept)
      {
        assert targets[i..][0] == targets[i] && targets[i..][1..] == targets[i + 1..];
        ReportChild(targets[i], swept);
        i := i + 1;
      }
      var report := TurnReport(Turn(ids, finalized, open, counters, dispatched, done, records), outcome, action, control);
      done := true;
      if Accepts(report) {
        records := records + [report];
      }
    }
  }
}
