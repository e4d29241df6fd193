/** What a verdict over repeated cells guarantees, and what it does not. */
module VerdictTheorems {
  import opened Base
  import opened Voting
  import opened Verdict

  predicate StrictMajority(n: nat, of: nat) {
    n * 2 > of
  }

  lemma {:induction false} PrioritiesComplete(t: TurnStatus, c: CellStatus, j: Judge)
    ensures t in TurnPriority && c in CellPriority && j in JudgePriority
  {
    assert TurnPriority[0] == TurnProviderError && TurnPriority[1] == TurnTimeout && TurnPriority[2] == TurnSetupError;
    assert TurnPriority[3] == TurnError && TurnPriority[4] == TurnSkipped && TurnPriority[5] == TurnOk;
    assert CellPriority[0] == CellProviderError && CellPriority[1] == CellTimeout && CellPriority[2] == CellSetupError;
    assert CellPriority[3] == CellTurnError && CellPriority[4] == CellManifestRejected && CellPriority[5] == CellOk;
    assert JudgePriority[0] == JudgeError && JudgePriority[1] == No && JudgePriority[2] == Continue && JudgePriority[3] == Yes;
  }

  lemma {:induction false} AllPrioritiesComplete()
    ensures forall t: TurnStatus :: t in TurnPriority
    ensures forall c: CellStatus :: c in CellPriority
    ensures forall j: Judge :: j in JudgePriority
  {
    forall t: TurnStatus ensures t in TurnPriority {
      PrioritiesComplete(t, CellOk, Yes);
    }
    forall c: CellStatus ensures c in CellPriority {
      PrioritiesComplete(TurnOk, c, Yes);
    }
    forall j: Judge ensures j in JudgePriority {
      PrioritiesComplete(TurnOk, CellOk, j);
    }
  }

  function Statuses(repeats: seq<Turn>): seq<TurnStatus> {
    Map((t: Turn) => t.status, repeats)
  }

  /** The assertion was never checked, or passed more often than it failed. */
  predicate NotOutvoted(results: seq<Option<bool>>) {
    multiset(results)[Some(false)] == 0 || multiset(results)[Some(true)] > multiset(results)[Some(false)]
  }

  lemma {:induction false} VoteFailsIfOutvoted(results: seq<Option<bool>>)
    ensures MajorityBool(results) != Some(false) <==> NotOutvoted(results)
  {
    MajorityBoolMeaning(results);
  }

  function RoutingTimes(turns: seq<Turn>): seq<Option<real>> {
    Map((t: Turn) => t.routingMs, turns)
  }

  function TotalTimes(turns: seq<Turn>): seq<Option<real>> {
    Map((t: Turn) => t.totalMs, turns)
  }

  /** The recorded latencies add up to more than the budget allows that many turns, for routing or in total. */
  predicate OverBudget(turns: seq<Turn>, budget: Budget) {
    || ExceedsOnAverage(RoutingTimes(turns), budget.maxRoutingSeconds * 1000.0)
    || ExceedsOnAverage(TotalTimes(turns), budget.maxLatencySeconds * 1000.0)
  }

  lemma {:induction false} MeanBudget(turns: seq<Turn>, budget: Budget)
    ensures BudgetExceeded(MeanRouting(turns), MeanTotal(turns), budget) == Some(true) <==> OverBudget(turns, budget)
  {
    AverageExceeds(RoutingTimes(turns), budget.maxRoutingSeconds * 1000.0);
    AverageExceeds(TotalTimes(turns), budget.maxLatencySeconds * 1000.0);
  }

  /** The summary of a turn, field by field: a strict majority of repeats completed, a strict majority of the
      judged ones said yes, no assertion lost its vote, and the mean latencies keep an enforced budget. */
  predicate CleanByField(repeats: seq<Turn>, budget: Budget) {
    var ok := OkTurns(repeats);
    && StrictMajority(multiset(Statuses(repeats))[TurnOk], |repeats|)
    && (Verdicts(ok) == [] || StrictMajority(multiset(Verdicts(ok))[Yes], |Verdicts(ok)|))
    && NotOutvoted(Map((t: Turn) => t.actionPass, ok))
    && NotOutvoted(Map((t: Turn) => t.presencePass, ok))
    && NotOutvoted(Map((t: Turn) => t.citationsPass, ok))
    && !(ok != [] && StrictMajority(UnevaluatedCount(ok), |ok|))
    && !((exists i :: 0 <= i < |repeats| && repeats[i].enforced) && OverBudget(ok, budget))
  }

  /** A summarised turn is clean exactly when every field carries its own majority. */
  lemma {:induction false} SummaryCleanByField(repeats: seq<Turn>, budget: Budget)
    requires |repeats| >= 2
    ensures CleanTurn(AggregateTurn(repeats, budget)) <==> CleanByField(repeats, budget)
  {
    AllPrioritiesComplete();
    var statuses, verdicts := Statuses(repeats), Verdicts(OkTurns(repeats));
    VoteFailsIfOutvoted(Map((t: Turn) => t.actionPass, OkTurns(repeats)));
    VoteFailsIfOutvoted(Map((t: Turn) => t.presencePass, OkTurns(repeats)));
    VoteFailsIfOutvoted(Map((t: Turn) => t.citationsPass, OkTurns(repeats)));
    MeanBudget(OkTurns(repeats), budget);
    assert AggregateTurn(repeats, budget).status == Vote(statuses, TurnPriority, TurnOk);
    VoteTheorem(statuses, TurnPriority, TurnOk);
    if verdicts != [] {
      VoteTheorem(verdicts, JudgePriority, Yes);
    }
  }

  /** What a summary publishes beside its votes: the first query that is not empty, whether any repeat's budget was
      enforced, and whether the completed repeats went over it. */
  lemma {:induction false} SummaryPublishes(repeats: seq<Turn>, budget: Budget)
    requires |repeats| >= 2
    ensures
      var s := AggregateTurn(repeats, budget);
      && s.query == FirstQuery(repeats)
      && (s.enforced <==> exists i :: 0 <= i < |repeats| && repeats[i].enforced)
      && (s.exceeded == Some(true) <==> OverBudget(OkTurns(repeats), budget))
      && (s.exceeded.None? <==> s.routingMs.None? && s.totalMs.None?)
  {
    MeanBudget(OkTurns(repeats), budget);
  }

  /** A single repeat is published as it was. */
  lemma {:induction false} SingleSummary(t: Turn, budget: Budget)
    ensures AggregateTurn([t], budget) == t
  {
    assert [t][0] == t;
  }

  /** The published latencies are the means of the completed repeats'. */
  lemma {:induction false} SummaryMeans(repeats: seq<Turn>, budget: Budget)
    requires |repeats| >= 2
    ensures MeanOf(AggregateTurn(repeats, budget).routingMs, RoutingTimes(OkTurns(repeats)))
    ensures MeanOf(AggregateTurn(repeats, budget).totalMs, TotalTimes(OkTurns(repeats)))
    ensures MeanOf(AggregateTurn(repeats, budget).searchMs, SearchTimes(OkTurns(repeats)))
  {
    AverageIsMean(RoutingTimes(OkTurns(repeats)));
    AverageIsMean(TotalTimes(OkTurns(repeats)));
    AverageIsMean(SearchTimes(OkTurns(repeats)));
  }

  lemma {:induction false} AverageIsMean(values: seq<Option<real>>)
    ensures MeanOf(Average(values), values)
  {
    AverageMeaning(values);
  }

  function SearchTimes(turns: seq<Turn>): seq<Option<real>> {
    Map((t: Turn) => t.searchMs, turns)
  }

  /** The mean of the values present, if any are. */
  predicate MeanOf(mean: Option<real>, values: seq<Option<real>>) {
    && (mean.Some? <==> exists i :: 0 <= i < |values| && values[i].Some?)
    && (mean.Some? ==> mean.value * CountPresent(values) as real == Total(values))
  }

  lemma {:induction false} FirstQueryMeaning(turns: seq<Turn>)
    ensures FirstQuery(turns) == "" <==> forall i :: 0 <= i < |turns| ==> turns[i].query == ""
    ensures FirstQuery(turns) != "" ==>
              exists i :: 0 <= i < |turns| && turns[i].query == FirstQuery(turns) && forall j :: 0 <= j < i ==> turns[j].query == ""
  {
    if turns != [] && turns[0].query == "" {
      var rest := turns[1..];
      FirstQueryMeaning(rest);
      assert forall i :: 0 < i < |turns| ==> turns[i] == rest[i - 1];
      if FirstQuery(rest) != "" {
        var i :| 0 <= i < |rest| && rest[i].query == FirstQuery(rest) && forall j :: 0 <= j < i ==> rest[j].query == "";
        assert turns[i + 1].query == FirstQuery(turns);
      } else {
        assert forall i :: 0 <= i < |rest| ==> rest[i] == turns[i + 1];
      }
    }
  }

  // ---- clean turns and means --------------------------------------------------------------

  /** What the producer of a turn records: a measured turn carries the pair's enforcement and the budget check
      of its own latencies; an unmeasured one carries neither. */
  predicate Recorded(t: Turn, enforce: bool, budget: Budget) {
    if t.routingMs.None? && t.totalMs.None? then !t.enforced
    else t.enforced == enforce && t.exceeded == BudgetExceeded(t.routingMs, t.totalMs, budget)
  }

  lemma {:induction false} OkTurnsAll(turns: seq<Turn>)
    requires forall i :: 0 <= i < |turns| ==> turns[i].status.TurnOk?
    ensures OkTurns(turns) == turns
  {
    if turns != [] {
      OkTurnsAll(turns[..|turns| - 1]);
      assert turns == turns[..|turns| - 1] + [turns[|turns| - 1]];
    }
  }

  /** If no repeat broke an enforced budget, the means do not either. */
  lemma {:induction false} MeanKeepsBudget(repeats: seq<Turn>, enforce: bool, budget: Budget)
    requires forall i :: 0 <= i < |repeats| ==> CleanTurn(repeats[i]) && Recorded(repeats[i], enforce, budget)
    ensures !((exists i :: 0 <= i < |repeats| && repeats[i].enforced) && OverBudget(repeats, budget))
  {
    MeanBudget(repeats, budget);
    if i :| 0 <= i < |repeats| && repeats[i].enforced {
      var routing, total := Map((t: Turn) => t.routingMs, repeats), Map((t: Turn) => t.totalMs, repeats);
      forall v | Some(v) in routing ensures v <= budget.maxRoutingSeconds * 1000.0 {
        var j :| 0 <= j < |routing| && routing[j] == Some(v);
        assert repeats[j].routingMs == Some(v);
      }
      forall v | Some(v) in total ensures v <= budget.maxLatencySeconds * 1000.0 {
        var j :| 0 <= j < |total| && total[j] == Some(v);
        assert repeats[j].totalMs == Some(v);
      }
      AverageBound(routing, budget.maxRoutingSeconds * 1000.0);
      AverageBound(total, budget.maxLatencySeconds * 1000.0);
    }
  }

  lemma {:induction false} AllYes(repeats: seq<Turn>)
    requires CleanTurns(repeats)
    ensures forall v :: v in Verdicts(repeats) ==> v == Yes
  {
    var recorded := Map((t: Turn) => t.verdict, repeats);
    PresentMeaning(recorded);
    forall v | v in Verdicts(repeats) ensures v == Yes {
      var j :| 0 <= j < |recorded| && recorded[j] == Some(v);
      assert CleanTurn(repeats[j]);
    }
  }

  /** Every assertion of every turn that ran passed. */
  predicate AssertionsHold(turns: seq<Turn>) {
    forall i :: 0 <= i < |turns| ==>
      && !turns[i].unevaluated
      && turns[i].actionPass != Some(false) && turns[i].presencePass != Some(false) && turns[i].citationsPass != Some(false)
  }

  lemma {:induction false} NoneUnevaluated(repeats: seq<Turn>)
    requires AssertionsHold(repeats)
    ensures UnevaluatedCount(repeats) == 0
  {
    var flags := Map((t: Turn) => t.unevaluated, repeats);
    forall f | f in flags ensures f == false {
      var j :| 0 <= j < |flags| && flags[j] == f;
    }
    assert true !in flags;
  }

  lemma {:induction false} NoAssertionFails(repeats: seq<Turn>)
    requires AssertionsHold(repeats)
    ensures NotOutvoted(Map((t: Turn) => t.actionPass, repeats))
    ensures NotOutvoted(Map((t: Turn) => t.presencePass, repeats))
    ensures NotOutvoted(Map((t: Turn) => t.citationsPass, repeats))
  {
    assert Some(false) !in Map((t: Turn) => t.actionPass, repeats);
    assert Some(false) !in Map((t: Turn) => t.presencePass, repeats);
    assert Some(false) !in Map((t: Turn) => t.citationsPass, repeats);
  }

  lemma {:induction false} AllStatusesOk(repeats: seq<Turn>)
    requires forall i :: 0 <= i < |repeats| ==> repeats[i].status.TurnOk?
    ensures multiset(Statuses(repeats))[TurnOk] == |repeats|
  {
    var statuses := Statuses(repeats);
    assert forall s :: s in statuses ==> s == TurnOk;
    AllEqualCount(statuses, TurnOk);
  }

  lemma {:induction false} EqualLengths(repeats: seq<Cell>, n: nat)
    requires repeats != [] && forall i :: 0 <= i < |repeats| ==> |TurnsOf(repeats[i])| == n
    ensures LongestTurns(repeats) == n
  {
    if |repeats| > 1 {
      EqualLengths(repeats[1..], n);
    }
  }

  /** The columns of a summary reach exactly as far as the longest repeat. */
  lemma {:induction false} LongestMeaning(repeats: seq<Cell>)
    ensures forall i :: 0 <= i < |repeats| ==> |TurnsOf(repeats[i])| <= LongestTurns(repeats)
    ensures repeats != [] ==> exists i :: 0 <= i < |repeats| && |TurnsOf(repeats[i])| == LongestTurns(repeats)
  {
    if repeats != [] {
      var rest := repeats[1..];
      LongestMeaning(rest);
      assert forall i :: 0 < i < |repeats| ==> repeats[i] == rest[i - 1];
      if |TurnsOf(repeats[0])| < LongestTurns(repeats) {
        assert LongestTurns(repeats) == LongestTurns(rest);
        assert rest != [];
        var i :| 0 <= i < |rest| && |TurnsOf(rest[i])| == LongestTurns(rest);
        assert repeats[i + 1] == rest[i];
      }
    }
  }

  /** Raw repeats that all completed, over the same number of turns: the summary is clean if each turn's is. */
  lemma {:induction false} CleanColumnsSummarise(pair: string, scenario: string, repeats: seq<Cell>, n: nat, budget: Budget)
    requires |repeats| >= 2
    requires forall i :: 0 <= i < |repeats| ==> repeats[i].repeats.None? && repeats[i].status.CellOk? && |TurnsOf(repeats[i])| == n
    requires forall i :: 0 <= i < n ==> CleanTurn(AggregateTurn(TurnAt(repeats, i), budget))
    ensures AggregateCell(pair, scenario, repeats, budget).Summarised?
    ensures CleanCell(AggregateCell(pair, scenario, repeats, budget).cell)
    ensures AggregateCell(pair, scenario, repeats, budget).cell.repeats == Some(repeats)
  {
    EqualLengths(repeats, n);
    AllPrioritiesComplete();
    var statuses := Map((c: Cell) => c.status, repeats);
    assert forall s :: s in statuses ==> s == CellOk;
    AllEqualCount(statuses, CellOk);
    VoteTheorem(statuses, CellPriority, CellOk);
  }

  // ---- the verdict, read off the raw repeats ----------------------------------------------

  /** A single repeat is judged as it stands, several by the majority of each field. */
  predicate ColumnClean(column: seq<Turn>, budget: Budget) {
    if |column| == 1 then CleanTurn(column[0]) else CleanByField(column, budget)
  }

  function CellStatuses(repeats: seq<Cell>): seq<CellStatus> {
    Map((c: Cell) => c.status, repeats)
  }

  /** What the raw repeats of one cell must show: a strict majority completed, every turn that some repeat reached
      is clean over all of them, missing turns counting as skipped, and a strict majority was clean end to end. */
  predicate RunClean(repeats: seq<Cell>, budget: Budget) {
    && StrictMajority(multiset(CellStatuses(repeats))[CellOk], |repeats|)
    && (forall i :: 0 <= i < LongestTurns(repeats) ==> ColumnClean(TurnAt(repeats, i), budget))
    && StrictMajority(CleanCount(repeats), |repeats|)
  }

  /** What a cell's summary carries beside its votes: its own labels, a turn for every position some repeat reached, and
      the raw repeats. One repeat is its own summary; none, or repeats of repeats, are refused. */
  lemma {:induction false} CellPublishes(pair: string, scenario: string, repeats: seq<Cell>, budget: Budget)
    ensures
      var summary := AggregateCell(pair, scenario, repeats, budget);
      && (summary.Nested? <==> exists i :: 0 <= i < |repeats| && repeats[i].repeats.Some?)
      && (summary.NoRepeats? <==> repeats == [])
      && (Raw(repeats) && |repeats| == 1 ==> summary == Summarised(repeats[0]))
      && (Raw(repeats) && |repeats| > 1 ==>
            && summary.Summarised? && summary.cell.pair == pair && summary.cell.scenario == scenario
            && summary.cell.repeats == Some(repeats) && |TurnsOf(summary.cell)| == LongestTurns(repeats))
  {
  }

  /** Repeats as the runner produces them: some, and none that holds repeats of its own. */
  predicate Raw(repeats: seq<Cell>) {
    repeats != [] && forall i :: 0 <= i < |repeats| ==> repeats[i].repeats.None?
  }

  lemma {:induction false} OneRepeatVerdict(repeats: seq<Cell>, budget: Budget)
    requires Raw(repeats) && |repeats| == 1
    ensures Passes(repeats[0]) <==> RunClean(repeats, budget)
  {
    var c := repeats[0];
    assert CellStatuses(repeats) == [c.status] && Map(CleanCell, repeats) == [CleanCell(c)];
    assert LongestTurns(repeats[1..]) == 0 && LongestTurns(repeats) == |TurnsOf(c)|;
    forall i | 0 <= i < |TurnsOf(c)| ensures TurnAt(repeats, i) == [TurnsOf(c)[i]] {
    }
    assert multiset([c.status]) == multiset{c.status} && multiset([CleanCell(c)]) == multiset{CleanCell(c)};
    OneFlag(CleanCell(c));
    assert CleanTurns(TurnsOf(c)) <==> forall i :: 0 <= i < |TurnsOf(c)| ==> ColumnClean(TurnAt(repeats, i), budget);
  }

  lemma {:induction false} OneFlag(b: bool)
    ensures multiset([b])[true] == if b then 1 else 0
  {
    if b {
      assert [b] == [true];
    } else {
      assert [b] == [false];
    }
  }

  lemma {:induction false} SeveralRepeatsVerdict(pair: string, scenario: string, repeats: seq<Cell>, budget: Budget)
    requires Raw(repeats) && |repeats| > 1
    ensures
      var summary := AggregateCell(pair, scenario, repeats, budget);
      summary.Summarised? && (Passes(summary.cell) <==> RunClean(repeats, budget))
  {
    var cell, n := AggregateCell(pair, scenario, repeats, budget).cell, LongestTurns(repeats);
    AllPrioritiesComplete();
    VoteTheorem(CellStatuses(repeats), CellPriority, CellOk);
    assert cell.status == Vote(CellStatuses(repeats), CellPriority, CellOk);
    forall i | 0 <= i < n ensures CleanTurn(TurnsOf(cell)[i]) <==> ColumnClean(TurnAt(repeats, i), budget) {
      SummaryCleanByField(TurnAt(repeats, i), budget);
    }
  }

  /** One summarised cell passes exactly when its raw repeats show it, whatever their lengths. */
  lemma {:induction false} CellVerdict(pair: string, scenario: string, repeats: seq<Cell>, budget: Budget)
    requires Raw(repeats)
    ensures
      var summary := AggregateCell(pair, scenario, repeats, budget);
      summary.Summarised? && (Passes(summary.cell) <==> RunClean(repeats, budget))
  {
    if |repeats| == 1 {
      OneRepeatVerdict(repeats, budget);
    } else {
      SeveralRepeatsVerdict(pair, scenario, repeats, budget);
    }
  }

  datatype CellRun = CellRun(pair: string, scenario: string, repeats: seq<Cell>)

  /** The cells a run reports, each summarised from its repeats. */
  function Outcomes(runs: seq<CellRun>, budget: Budget): seq<Cell>
    requires forall i :: 0 <= i < |runs| ==> AggregateCell(runs[i].pair, runs[i].scenario, runs[i].repeats, budget).Summarised?
  {
    seq(|runs|, i requires 0 <= i < |runs| => AggregateCell(runs[i].pair, runs[i].scenario, runs[i].repeats, budget).cell)
  }

  lemma {:induction false} AllSummarised(runs: seq<CellRun>, budget: Budget)
    requires forall i :: 0 <= i < |runs| ==> Raw(runs[i].repeats)
    ensures forall i :: 0 <= i < |runs| ==> AggregateCell(runs[i].pair, runs[i].scenario, runs[i].repeats, budget).Summarised?
  {
    forall i | 0 <= i < |runs| ensures AggregateCell(runs[i].pair, runs[i].scenario, runs[i].repeats, budget).Summarised? {
      CellVerdict(runs[i].pair, runs[i].scenario, runs[i].repeats, budget);
    }
  }

  /** The verdict theorem: the verdict over the summaries of any raw repeats, of equal length or not, has no reason
      to fail exactly when the raw repeats of every cell show what `RunClean` asks; in particular a strict majority
      of them was clean end to end. */
  lemma {:induction false} VerdictTheorem(runs: seq<CellRun>, budget: Budget)
    requires forall i :: 0 <= i < |runs| ==> Raw(runs[i].repeats)
    ensures forall i :: 0 <= i < |runs| ==> AggregateCell(runs[i].pair, runs[i].scenario, runs[i].repeats, budget).Summarised?
    ensures VerdictReasons(Outcomes(runs, budget)) == [] <==> forall i :: 0 <= i < |runs| ==> RunClean(runs[i].repeats, budget)
  {
    AllSummarised(runs, budget);
    var cells := Outcomes(runs, budget);
    PassesMeansNoReason(cells);
    forall i | 0 <= i < |runs| ensures Passes(cells[i]) <==> RunClean(runs[i].repeats, budget) {
      CellVerdict(runs[i].pair, runs[i].scenario, runs[i].repeats, budget);
    }
  }

  // ---- all repeats clean ------------------------------------------------------------------

  lemma {:induction false} OkTurnsMembers(turns: seq<Turn>)
    ensures forall t :: t in OkTurns(turns) <==> t in turns && t.status.TurnOk?
  {
    if turns != [] {
      OkTurnsMembers(turns[..|turns| - 1]);
      assert turns == turns[..|turns| - 1] + [turns[|turns| - 1]];
    }
  }

  /** Every turn of the column either ran clean or was never reached. */
  predicate CleanOrSkipped(column: seq<Turn>, enforce: bool, budget: Budget) {
    forall i :: 0 <= i < |column| ==> column[i] == Skipped || (CleanTurn(column[i]) && Recorded(column[i], enforce, budget))
  }

  /** Then only how many reached it can keep the column from being clean. */
  lemma {:induction false} CleanColumnExactly(column: seq<Turn>, enforce: bool, budget: Budget)
    requires CleanOrSkipped(column, enforce, budget)
    ensures CleanByField(column, budget) <==> StrictMajority(multiset(Statuses(column))[TurnOk], |column|)
  {
    var ok := OkTurns(column);
    OkTurnsMembers(column);
    forall i | 0 <= i < |ok| ensures CleanTurn(ok[i]) && Recorded(ok[i], enforce, budget) {
      assert ok[i] in column;
    }
    AllYes(ok);
    AllEqualCount(Verdicts(ok), Yes);
    NoneUnevaluated(ok);
    NoAssertionFails(ok);
    MeanKeepsBudget(ok, enforce, budget);
    if i :| 0 <= i < |column| && column[i].enforced {
      assert column[i] in ok;
    }
  }

  /** How many repeats have a turn `i`. */
  function Reaching(repeats: seq<Cell>, i: nat): nat {
    if repeats == [] then 0
    else Reaching(repeats[..|repeats| - 1], i) + if i < |TurnsOf(repeats[|repeats| - 1])| then 1 else 0
  }

  predicate MostReach(repeats: seq<Cell>, i: nat) {
    StrictMajority(Reaching(repeats, i), |repeats|)
  }

  /** Every turn that some repeat has is had by a strict majority of them. */
  predicate ReachedByMost(repeats: seq<Cell>) {
    forall i :: 0 <= i < LongestTurns(repeats) ==> MostReach(repeats, i)
  }

  lemma {:induction false} ReachingCounts(repeats: seq<Cell>, i: nat)
    requires forall r :: 0 <= r < |repeats| && i < |TurnsOf(repeats[r])| ==> TurnsOf(repeats[r])[i].status.TurnOk?
    ensures multiset(Statuses(TurnAt(repeats, i)))[TurnOk] == Reaching(repeats, i)
  {
    if repeats != [] {
      var front, last := repeats[..|repeats| - 1], repeats[|repeats| - 1];
      ReachingCounts(front, i);
      var turn := if i < |TurnsOf(last)| then TurnsOf(last)[i] else Skipped;
      assert Statuses(TurnAt(repeats, i)) == Statuses(TurnAt(front, i)) + [turn.status];
    }
  }

  lemma {:induction false} ReachingAll(repeats: seq<Cell>, i: nat)
    requires forall r :: 0 <= r < |repeats| ==> i < |TurnsOf(repeats[r])|
    ensures Reaching(repeats, i) == |repeats|
  {
    if repeats != [] {
      ReachingAll(repeats[..|repeats| - 1], i);
    }
  }

  predicate AllClean(repeats: seq<Cell>, enforce: bool, budget: Budget) {
    forall r :: 0 <= r < |repeats| ==>
      CleanCell(repeats[r]) && forall i :: 0 <= i < |TurnsOf(repeats[r])| ==> Recorded(TurnsOf(repeats[r])[i], enforce, budget)
  }

  lemma {:induction false} CleanColumn(repeats: seq<Cell>, i: nat, enforce: bool, budget: Budget)
    requires AllClean(repeats, enforce, budget) && |repeats| > 1
    ensures ColumnClean(TurnAt(repeats, i), budget) <==> MostReach(repeats, i)
  {
    var column := TurnAt(repeats, i);
    forall r | 0 <= r < |column| ensures column[r] == Skipped || (CleanTurn(column[r]) && Recorded(column[r], enforce, budget)) {
      assert CleanCell(repeats[r]);
    }
    ReachingCounts(repeats, i);
    CleanColumnExactly(column, enforce, budget);
  }

  lemma {:induction false} AllCleanCounts(repeats: seq<Cell>, enforce: bool, budget: Budget)
    requires AllClean(repeats, enforce, budget)
    ensures multiset(CellStatuses(repeats))[CellOk] == |repeats| && CleanCount(repeats) == |repeats|
  {
    var statuses, clean := CellStatuses(repeats), Map(CleanCell, repeats);
    assert forall s :: s in statuses ==> s == CellOk;
    assert forall c :: c in clean ==> c == true;
    AllEqualCount(statuses, CellOk);
    AllEqualCount(clean, true);
  }

  /** The completeness theorem: repeats of one pair that all ran clean pass exactly when there is one, or every turn
      that some repeat reached was reached by a strict majority of them. */
  lemma {:induction false} AllCleanExactly(pair: string, scenario: string, repeats: seq<Cell>, enforce: bool, budget: Budget)
    requires Raw(repeats) && AllClean(repeats, enforce, budget)
    ensures
      var summary := AggregateCell(pair, scenario, repeats, budget);
      && summary.Summarised?
      && (Passes(summary.cell) <==>
            |repeats| == 1 || ReachedByMost(repeats))
  {
    CellVerdict(pair, scenario, repeats, budget);
    AllCleanCounts(repeats, enforce, budget);
    CleanColumns(repeats, enforce, budget);
  }

  lemma {:induction false} CleanColumns(repeats: seq<Cell>, enforce: bool, budget: Budget)
    requires AllClean(repeats, enforce, budget) && repeats != []
    ensures (forall i :: 0 <= i < LongestTurns(repeats) ==> ColumnClean(TurnAt(repeats, i), budget)) <==>
            |repeats| == 1 || ReachedByMost(repeats)
  {
    if |repeats| > 1 {
      forall i | 0 <= i < LongestTurns(repeats)
        ensures ColumnClean(TurnAt(repeats, i), budget) <==> MostReach(repeats, i)
      {
        CleanColumn(repeats, i, enforce, budget);
      }
    } else {
      CleanCellColumns(repeats, budget);
    }
  }

  lemma {:induction false} CleanCellColumns(repeats: seq<Cell>, budget: Budget)
    requires |repeats| == 1 && CleanCell(repeats[0])
    ensures forall i :: 0 <= i < LongestTurns(repeats) ==> ColumnClean(TurnAt(repeats, i), budget)
  {
    assert LongestTurns(repeats[1..]) == 0 && LongestTurns(repeats) == |TurnsOf(repeats[0])|;
    forall i | 0 <= i < LongestTurns(repeats) ensures ColumnClean(TurnAt(repeats, i), budget) {
      assert TurnAt(repeats, i) == [TurnsOf(repeats[0])[i]];
    }
  }

  /** Repeats of equal length that all ran clean always pass. */
  lemma {:induction false} AllCleanPasses(pair: string, scenario: string, repeats: seq<Cell>, n: nat, enforce: bool, budget: Budget)
    requires Raw(repeats) && AllClean(repeats, enforce, budget)
    requires forall i :: 0 <= i < |repeats| ==> |TurnsOf(repeats[i])| == n
    ensures AggregateCell(pair, scenario, repeats, budget).Summarised?
    ensures Passes(AggregateCell(pair, scenario, repeats, budget).cell)
  {
    AllCleanExactly(pair, scenario, repeats, enforce, budget);
    EqualLengths(repeats, n);
    forall i | 0 <= i < n ensures Reaching(repeats, i) == |repeats| {
      ReachingAll(repeats, i);
    }
  }
}
