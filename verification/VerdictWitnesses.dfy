/** Why the verdict asks for both: neither field majorities nor a majority of clean repeats is enough alone. */
module VerdictWitnesses {
  import opened Base
  import opened Voting
  import opened Verdict
  import opened VerdictTheorems

  function Judged(v: Judge): Turn {
    Turn("q", TurnOk, Some(v), None, false, None, None, None, None, None, None, false)
  }

  function Row(first: Judge, second: Judge, third: Judge): Cell {
    Cell("p", "s", CellOk, Some([Judged(first), Judged(second), Judged(third)]), None)
  }

  /** Repeats that all completed with their assertions holding and no budget enforced: the judges' majority decides. */
  lemma {:induction false} JudgesDecide(column: seq<Turn>, verdicts: seq<Judge>, budget: Budget)
    requires |column| == |verdicts| >= 2 && AssertionsHold(column)
    requires forall i :: 0 <= i < |column| ==> column[i].status.TurnOk? && column[i].verdict == Some(verdicts[i]) && !column[i].enforced
    ensures CleanTurn(AggregateTurn(column, budget)) <==> StrictMajority(multiset(verdicts)[Yes], |verdicts|)
  {
    JudgesDecideField(column, verdicts, budget);
    SummaryCleanByField(column, budget);
  }

  lemma {:induction false} JudgesDecideField(column: seq<Turn>, verdicts: seq<Judge>, budget: Budget)
    requires |column| == |verdicts| >= 2 && AssertionsHold(column)
    requires forall i :: 0 <= i < |column| ==> column[i].status.TurnOk? && column[i].verdict == Some(verdicts[i]) && !column[i].enforced
    ensures CleanByField(column, budget) <==> StrictMajority(multiset(verdicts)[Yes], |verdicts|)
  {
    OnlyJudges(column, budget);
    PresentAll(Map((t: Turn) => t.verdict, column), verdicts);
  }

  /** Only the judges are left to decide. */
  lemma {:induction false} OnlyJudges(column: seq<Turn>, budget: Budget)
    requires column != [] && AssertionsHold(column)
    requires forall i :: 0 <= i < |column| ==> column[i].status.TurnOk? && !column[i].enforced
    ensures CleanByField(column, budget) <==>
            Verdicts(column) == [] || StrictMajority(multiset(Verdicts(column))[Yes], |Verdicts(column)|)
  {
    OkTurnsAll(column);
    AllStatusesOk(column);
    NoneUnevaluated(column);
    NoAssertionFails(column);
  }

  lemma {:induction false} PresentAll<T>(values: seq<Option<T>>, unwrapped: seq<T>)
    requires |values| == |unwrapped| && forall i :: 0 <= i < |values| ==> values[i] == Some(unwrapped[i])
    ensures Present(values) == unwrapped
  {
    if values != [] {
      PresentAll(values[..|values| - 1], unwrapped[..|values| - 1]);
      assert unwrapped == unwrapped[..|values| - 1] + [unwrapped[|values| - 1]];
    }
  }

  lemma {:induction false} CountOfThree(a: Judge, b: Judge, c: Judge)
    ensures multiset([a, b, c])[Yes] == (if a.Yes? then 1 else 0) + (if b.Yes? then 1 else 0) + (if c.Yes? then 1 else 0)
  {
    assert multiset([a, b, c]) == multiset{a, b, c};
  }

  /** Two of three judged yes: the summary of the turn is clean. */
  lemma {:induction false} TwoOfThree(repeats: seq<Cell>, i: nat, a: Judge, b: Judge, c: Judge, budget: Budget)
    requires (a.Yes? && b.Yes?) || (a.Yes? && c.Yes?) || (b.Yes? && c.Yes?)
    requires TurnAt(repeats, i) == [Judged(a), Judged(b), Judged(c)]
    ensures CleanTurn(AggregateTurn(TurnAt(repeats, i), budget))
  {
    CountOfThree(a, b, c);
    JudgesDecide([Judged(a), Judged(b), Judged(c)], [a, b, c], budget);
  }

  /** Three repeats, each failing a different turn: every field of the summary carries a clean majority and
      the summary is clean, yet no repeat was, and the verdict is not a pass. */
  lemma {:induction false} FieldMajoritiesAreNotEnough(budget: Budget)
    ensures
      var repeats := [Row(No, Yes, Yes), Row(Yes, No, Yes), Row(Yes, Yes, No)];
      var summary := AggregateCell("p", "s", repeats, budget);
      && summary.Summarised? && CleanCell(summary.cell)
      && CleanCount(repeats) == 0 && !Passes(summary.cell)
  {
    var repeats := [Row(No, Yes, Yes), Row(Yes, No, Yes), Row(Yes, Yes, No)];
    CleanSummary(repeats, budget);
    NoneClean(repeats);
  }

  lemma {:induction false} NoneClean(repeats: seq<Cell>)
    requires |repeats| == 3 && forall i :: 0 <= i < 3 ==> i < |TurnsOf(repeats[i])| && !CleanTurn(TurnsOf(repeats[i])[i])
    ensures CleanCount(repeats) == 0
  {
    assert forall i :: 0 <= i < 3 ==> !CleanCell(repeats[i]);
    assert Map(CleanCell, repeats) == [false, false, false];
  }

  function Fails(repeat: nat, turn: nat): Judge {
    if repeat == turn then No else Yes
  }

  lemma {:induction false} DiagonalColumn(repeats: seq<Cell>, i: nat, budget: Budget)
    requires |repeats| == 3 && i < 3
    requires forall r :: 0 <= r < 3 ==> |TurnsOf(repeats[r])| == 3 && TurnsOf(repeats[r])[i] == Judged(Fails(r, i))
    ensures CleanTurn(AggregateTurn(TurnAt(repeats, i), budget))
  {
    assert TurnAt(repeats, i) == [Judged(Fails(0, i)), Judged(Fails(1, i)), Judged(Fails(2, i))];
    TwoOfThree(repeats, i, Fails(0, i), Fails(1, i), Fails(2, i), budget);
  }

  lemma {:induction false} CleanSummary(repeats: seq<Cell>, budget: Budget)
    requires repeats == [Row(No, Yes, Yes), Row(Yes, No, Yes), Row(Yes, Yes, No)]
    ensures AggregateCell("p", "s", repeats, budget).Summarised?
    ensures CleanCell(AggregateCell("p", "s", repeats, budget).cell)
  {
    forall i | 0 <= i < 3 ensures CleanTurn(AggregateTurn(TurnAt(repeats, i), budget)) {
      DiagonalColumn(repeats, i, budget);
    }
    CleanColumnsSummarise("p", "s", repeats, 3, budget);
  }

  const Unjudged := Judged(Yes).(verdict := None)

  function OneTurn(t: Turn): Cell {
    Cell("p", "s", CellOk, Some([t]), None)
  }

  /** Nor is a clean majority of repeats: two clean repeats that were not judged and one judged no. Only the judged
      turn votes on the verdict, so the summary fails although two of three repeats were clean end to end. */
  lemma {:induction false} CleanMajorityIsNotEnough(budget: Budget)
    ensures
      var repeats := [OneTurn(Unjudged), OneTurn(Unjudged), OneTurn(Judged(No))];
      var summary := AggregateCell("p", "s", repeats, budget);
      Raw(repeats) && CleanCount(repeats) == 2 && summary.Summarised? && !Passes(summary.cell)
  {
    var repeats := [OneTurn(Unjudged), OneTurn(Unjudged), OneTurn(Judged(No))];
    assert CleanCell(repeats[0]) && CleanCell(repeats[1]);
    assert !CleanCell(repeats[2]) by {
      assert !CleanTurn(TurnsOf(repeats[2])[0]);
    }
    assert Map(CleanCell, repeats) == [true, true, false];
    CellVerdict("p", "s", repeats, budget);
    OutvotedColumn(repeats, budget);
  }

  lemma {:induction false} OutvotedColumn(repeats: seq<Cell>, budget: Budget)
    requires repeats == [OneTurn(Unjudged), OneTurn(Unjudged), OneTurn(Judged(No))]
    ensures LongestTurns(repeats) == 1 && !ColumnClean(TurnAt(repeats, 0), budget)
  {
    EqualLengths(repeats, 1);
    assert TurnAt(repeats, 0) == [Unjudged, Unjudged, Judged(No)];
    OneNoVerdict([Unjudged, Unjudged, Judged(No)]);
  }

  lemma {:induction false} OneNoVerdict(column: seq<Turn>)
    requires |column| == 3 && (forall i :: 0 <= i < 3 ==> column[i].status.TurnOk?)
    requires column[0].verdict.None? && column[1].verdict.None? && column[2].verdict == Some(No)
    ensures Verdicts(OkTurns(column)) == [No] && multiset([No])[Yes] == 0
  {
    OkTurnsAll(column);
    var none: Option<Judge> := None;
    assert Map((t: Turn) => t.verdict, column) == [] + [none] + [none] + [Some(No)];
    PresentStep([], none);
    PresentStep([] + [none], none);
    PresentStep([] + [none] + [none], Some(No));
  }
}
