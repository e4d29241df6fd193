/**
 The verdict over an evaluation run: repeats of one cell are summarised field by field, and the run passes
 only if the summary is clean and a strict majority of the raw repeats was clean end to end.
 */
module Verdict {
  import opened Base
  import opened Voting

  datatype TurnStatus = TurnOk | TurnProviderError | TurnTimeout | TurnSetupError | TurnError | TurnSkipped

  datatype CellStatus = CellOk | CellProviderError | CellTimeout | CellSetupError | CellTurnError | CellManifestRejected

  datatype Judge = Yes | No | Continue | JudgeError

  const TurnPriority: seq<TurnStatus> := [TurnProviderError, TurnTimeout, TurnSetupError, TurnError, TurnSkipped, TurnOk]
  const CellPriority: seq<CellStatus> :=
    [CellProviderError, CellTimeout, CellSetupError, CellTurnError, CellManifestRejected, CellOk]
  const JudgePriority: seq<Judge> := [JudgeError, No, Continue, Yes]

  /** `unevaluated`: a requested action assertion never ran. Latencies in milliseconds. */
  datatype Turn = Turn(
    query: string, status: TurnStatus, verdict: Option<Judge>, actionPass: Option<bool>, unevaluated: bool,
    citationsPass: Option<bool>, presencePass: Option<bool>,
    routingMs: Option<real>, searchMs: Option<real>, totalMs: Option<real>,
    exceeded: Option<bool>, enforced: bool)

  datatype Cell = Cell(pair: string, scenario: string, status: CellStatus, turns: Option<seq<Turn>>, repeats: Option<seq<Cell>>)

  datatype Budget = Budget(maxRoutingSeconds: real, maxLatencySeconds: real)

  const Skipped := Turn("", TurnSkipped, None, None, false, None, None, None, None, None, None, false)

  // ---- one turn over its repeats ----------------------------------------------------------

  function BudgetExceeded(routingMs: Option<real>, totalMs: Option<real>, budget: Budget): Option<bool> {
    if routingMs.None? && totalMs.None? then None
    else Some((routingMs.Some? && routingMs.value > budget.maxRoutingSeconds * 1000.0) ||
              (totalMs.Some? && totalMs.value > budget.maxLatencySeconds * 1000.0))
  }

  function Map<S, T>(f: S -> T, values: seq<S>): seq<T> {
    seq(|values|, i requires 0 <= i < |values| => f(values[i]))
  }

  function OkTurns(turns: seq<Turn>): seq<Turn> {
    if turns == [] then []
    else OkTurns(turns[..|turns| - 1]) + if turns[|turns| - 1].status.TurnOk? then [turns[|turns| - 1]] else []
  }

  function FirstQuery(turns: seq<Turn>): string {
    if turns == [] then "" else if turns[0].query != "" then turns[0].query else FirstQuery(turns[1..])
  }

  function UnevaluatedCount(turns: seq<Turn>): nat {
    multiset(Map((t: Turn) => t.unevaluated, turns))[true]
  }

  function Verdicts(turns: seq<Turn>): seq<Judge> {
    Present(Map((t: Turn) => t.verdict, turns))
  }

  function MeanRouting(turns: seq<Turn>): Option<real> {
    Average(Map((t: Turn) => t.routingMs, turns))
  }

  function MeanTotal(turns: seq<Turn>): Option<real> {
    Average(Map((t: Turn) => t.totalMs, turns))
  }

  /** A single repeat is its own summary. */
  function AggregateTurn(repeats: seq<Turn>, budget: Budget): Turn
    requires repeats != []
  {
    if |repeats| == 1 then repeats[0]
    else
      var ok := OkTurns(repeats);
      var verdicts := Verdicts(ok);
      Turn(
        FirstQuery(repeats),
        Vote(Map((t: Turn) => t.status, repeats), TurnPriority, TurnOk),
        if verdicts == [] then None else Some(Vote(verdicts, JudgePriority, Yes)),
        MajorityBool(Map((t: Turn) => t.actionPass, ok)),
        ok != [] && UnevaluatedCount(ok) * 2 > |ok|,
        MajorityBool(Map((t: Turn) => t.citationsPass, ok)),
        MajorityBool(Map((t: Turn) => t.presencePass, ok)),
        MeanRouting(ok), Average(Map((t: Turn) => t.searchMs, ok)), MeanTotal(ok),
        BudgetExceeded(MeanRouting(ok), MeanTotal(ok), budget),
        exists i :: 0 <= i < |repeats| && repeats[i].enforced)
  }

  // ---- one cell over its repeats ----------------------------------------------------------

  function TurnsOf(c: Cell): seq<Turn> {
    if c.turns.Some? then c.turns.value else []
  }

  function LongestTurns(repeats: seq<Cell>): nat {
    if repeats == [] then 0
    else
      var rest := LongestTurns(repeats[1..]);
      if rest < |TurnsOf(repeats[0])| then |TurnsOf(repeats[0])| else rest
  }

  /** Turn `i` of every repeat, a skipped turn standing in where a repeat came up short. */
  function TurnAt(repeats: seq<Cell>, i: nat): seq<Turn> {
    seq(|repeats|, j requires 0 <= j < |repeats| => if i < |TurnsOf(repeats[j])| then TurnsOf(repeats[j])[i] else Skipped)
  }

  datatype Summary = Summarised(cell: Cell) | Nested | NoRepeats

  function AggregateCell(pair: string, scenario: string, repeats: seq<Cell>, budget: Budget): Summary {
    if exists i :: 0 <= i < |repeats| && repeats[i].repeats.Some? then Nested
    else if repeats == [] then NoRepeats
    else if |repeats| == 1 then Summarised(repeats[0])
    else
      var turns := seq(LongestTurns(repeats), i requires 0 <= i < LongestTurns(repeats) => AggregateTurn(TurnAt(repeats, i), budget));
      Summarised(Cell(pair, scenario, Vote(Map((c: Cell) => c.status, repeats), CellPriority, CellOk), Some(turns), Some(repeats)))
  }

  // ---- failure reasons --------------------------------------------------------------------

  datatype Reason =
    | CellInfra(cell: CellStatus)
    | TurnInfra(turn: TurnStatus)
    | JudgeFailed
    | JudgeSaid(verdict: Judge)
    | ActionFailed
    | ActionUnevaluated
    | PresenceFailed
    | CitationsFailed
    | BudgetBroken
    | NoCleanMajority(clean: nat, of: nat)

  function Flag(failed: bool, reason: Reason): seq<Reason> {
    if failed then [reason] else []
  }

  function JudgeReasons(t: Turn): seq<Reason> {
    if t.verdict == Some(JudgeError) then [JudgeFailed]
    else Flag(t.verdict == Some(No) || t.verdict == Some(Continue), if t.verdict.Some? then JudgeSaid(t.verdict.value) else JudgeFailed)
  }

  function TurnReasons(t: Turn): seq<Reason> {
    if !t.status.TurnOk? then [TurnInfra(t.status)]
    else
      JudgeReasons(t) +
      Flag(t.actionPass == Some(false), ActionFailed) +
      Flag(t.unevaluated, ActionUnevaluated) +
      Flag(t.presencePass == Some(false), PresenceFailed) +
      Flag(t.citationsPass == Some(false), CitationsFailed) +
      Flag(t.enforced && t.exceeded == Some(true), BudgetBroken)
  }

  function AllTurnReasons(turns: seq<Turn>): seq<Reason> {
    if turns == [] then [] else AllTurnReasons(turns[..|turns| - 1]) + TurnReasons(turns[|turns| - 1])
  }

  lemma {:induction false} Associative(a: seq<Reason>, b: seq<Reason>, c: seq<Reason>)
    ensures (a + b) + c == a + (b + c)
  {
  }

  lemma {:induction false} AllTurnReasonsStep(turns: seq<Turn>, i: nat)
    requires i < |turns|
    ensures AllTurnReasons(turns[..i + 1]) == AllTurnReasons(turns[..i]) + TurnReasons(turns[i])
  {
    assert turns[..i + 1][..i] == turns[..i];
  }

  function CellReasons(c: Cell): seq<Reason> {
    Flag(!c.status.CellOk?, CellInfra(c.status)) + AllTurnReasons(TurnsOf(c))
  }

  method CellFailureReasons(c: Cell) returns (reasons: seq<Reason>)
    ensures reasons == CellReasons(c)
    ensures reasons == [] <==> CleanCell(c)
  {
    var infra := Flag(!c.status.CellOk?, CellInfra(c.status));
    var turns := TurnsOf(c);
    reasons := infra;
    var i := 0;
    while i < |turns|
      invariant 0 <= i <= |turns|
      invariant reasons == infra + AllTurnReasons(turns[..i])
    {
      var own := TurnFailureReasons(turns[i]);
      AllTurnReasonsStep(turns, i);
      Associative(infra, AllTurnReasons(turns[..i]), own);
      reasons := reasons + own;
      i := i + 1;
    }
    assert turns[..i] == turns;
    CleanMeansNoReason(c);
  }

  /** What a reason says about a turn: only that it did not complete, or which check of a completed one failed. */
  predicate Applies(t: Turn, r: Reason) {
    match r
    case TurnInfra(status) => !t.status.TurnOk? && status == t.status
    case JudgeFailed => t.status.TurnOk? && t.verdict == Some(JudgeError)
    case JudgeSaid(verdict) => t.status.TurnOk? && t.verdict == Some(verdict) && (verdict.No? || verdict.Continue?)
    case ActionFailed => t.status.TurnOk? && t.actionPass == Some(false)
    case ActionUnevaluated => t.status.TurnOk? && t.unevaluated
    case PresenceFailed => t.status.TurnOk? && t.presencePass == Some(false)
    case CitationsFailed => t.status.TurnOk? && t.citationsPass == Some(false)
    case BudgetBroken => t.status.TurnOk? && t.enforced && t.exceeded == Some(true)
    case CellInfra(_) => false
    case NoCleanMajority(_, _) => false
  }

  lemma {:induction false} InEither(r: Reason, a: seq<Reason>, b: seq<Reason>)
    ensures r in a + b <==> r in a || r in b
  {
  }

  lemma {:induction false} JudgeReasonsApply(t: Turn, r: Reason)
    requires t.status.TurnOk?
    ensures r in JudgeReasons(t) <==> (r.JudgeFailed? || r.JudgeSaid?) && Applies(t, r)
  {
  }

  /** A turn's reasons are exactly those that apply to it. */
  lemma {:induction false} ReasonApplies(t: Turn, r: Reason)
    ensures r in TurnReasons(t) <==> Applies(t, r)
  {
    if t.status.TurnOk? {
      var judge, action, skipped := JudgeReasons(t), Flag(t.actionPass == Some(false), ActionFailed), Flag(t.unevaluated, ActionUnevaluated);
      var presence, citations := Flag(t.presencePass == Some(false), PresenceFailed), Flag(t.citationsPass == Some(false), CitationsFailed);
      var budget := Flag(t.enforced && t.exceeded == Some(true), BudgetBroken);
      JudgeReasonsApply(t, r);
      InEither(r, judge, action);
      InEither(r, judge + action, skipped);
      InEither(r, judge + action + skipped, presence);
      InEither(r, judge + action + skipped + presence, citations);
      InEither(r, judge + action + skipped + presence + citations, budget);
    }
  }

  /** One pass of the loop: exactly the reasons that apply to the turn, none exactly when it is clean. */
  method TurnFailureReasons(t: Turn) returns (reasons: seq<Reason>)
    ensures reasons == TurnReasons(t)
    ensures forall r :: r in reasons <==> Applies(t, r)
    ensures reasons == [] <==> CleanTurn(t)
  {
    forall r ensures r in TurnReasons(t) <==> Applies(t, r) {
      ReasonApplies(t, r);
    }
    TurnReasonsEmpty(t);
    if !t.status.TurnOk? {
      return [TurnInfra(t.status)];
    }
    reasons := JudgeReasons(t);
    reasons := reasons + Flag(t.actionPass == Some(false), ActionFailed);
    reasons := reasons + Flag(t.unevaluated, ActionUnevaluated);
    reasons := reasons + Flag(t.presencePass == Some(false), PresenceFailed);
    reasons := reasons + Flag(t.citationsPass == Some(false), CitationsFailed);
    reasons := reasons + Flag(t.enforced && t.exceeded == Some(true), BudgetBroken);
  }

  // ---- what clean means -------------------------------------------------------------------

  predicate CleanTurn(t: Turn) {
    && t.status.TurnOk?
    && (t.verdict.None? || t.verdict == Some(Yes))
    && t.actionPass != Some(false) && t.presencePass != Some(false) && t.citationsPass != Some(false)
    && !t.unevaluated
    && !(t.enforced && t.exceeded == Some(true))
  }

  predicate CleanTurns(turns: seq<Turn>) {
    forall i :: 0 <= i < |turns| ==> CleanTurn(turns[i])
  }

  predicate CleanCell(c: Cell) {
    c.status.CellOk? && CleanTurns(TurnsOf(c))
  }

  lemma {:induction false} TurnReasonsEmpty(t: Turn)
    ensures TurnReasons(t) == [] <==> CleanTurn(t)
  {
    assert JudgeReasons(t) == [] <==> t.verdict.None? || t.verdict == Some(Yes) by {
      if t.verdict.Some? && t.verdict != Some(Yes) {
        var v := t.verdict.value;
        assert v.JudgeError? || v.No? || v.Continue?;
        assert |JudgeReasons(t)| == 1;
      }
    }
    if t.status.TurnOk? {
      assert |TurnReasons(t)| ==
             |JudgeReasons(t)| + |Flag(t.actionPass == Some(false), ActionFailed)| +
             |Flag(t.unevaluated, ActionUnevaluated)| + |Flag(t.presencePass == Some(false), PresenceFailed)| +
             |Flag(t.citationsPass == Some(false), CitationsFailed)| +
             |Flag(t.enforced && t.exceeded == Some(true), BudgetBroken)|;
    }
  }

  lemma {:induction false} CleanTurnsStep(turns: seq<Turn>)
    requires turns != []
    ensures CleanTurns(turns) <==> CleanTurns(turns[..|turns| - 1]) && CleanTurn(turns[|turns| - 1])
  {
    var front, last := turns[..|turns| - 1], turns[|turns| - 1];
    assert turns == front + [last];
    assert forall i :: 0 <= i < |front| ==> front[i] == turns[i];
  }

  lemma {:induction false} BothEmpty(a: seq<Reason>, b: seq<Reason>)
    ensures a + b == [] <==> a == [] && b == []
  {
    assert |a + b| == |a| + |b|;
  }

  lemma {:induction false} CleanTurnsNoReasons(turns: seq<Turn>)
    ensures AllTurnReasons(turns) == [] <==> CleanTurns(turns)
  {
    if turns != [] {
      var front, last := turns[..|turns| - 1], turns[|turns| - 1];
      CleanTurnsNoReasons(front);
      TurnReasonsEmpty(last);
      BothEmpty(AllTurnReasons(front), TurnReasons(last));
      CleanTurnsStep(turns);
    }
  }

  lemma {:induction false} CleanMeansNoReason(c: Cell)
    ensures CellReasons(c) == [] <==> CleanCell(c)
  {
    CleanTurnsNoReasons(TurnsOf(c));
  }

  // ---- the verdict ------------------------------------------------------------------------

  function CleanCount(repeats: seq<Cell>): nat {
    multiset(Map(CleanCell, repeats))[true]
  }

  function VerdictReasons(outcomes: seq<Cell>): seq<Reason> {
    if outcomes == [] then []
    else
      var cell := outcomes[|outcomes| - 1];
      VerdictReasons(outcomes[..|outcomes| - 1]) + (RepeatReasons(cell) + CellReasons(cell))
  }

  /** The cell passes: its own fields are clean, and so was a strict majority of the repeats behind it. */
  predicate Passes(c: Cell) {
    CleanCell(c) && (c.repeats.Some? ==> CleanCount(c.repeats.value) * 2 > |c.repeats.value|)
  }

  lemma {:induction false} CleanCountStep(front: seq<Cell>, last: Cell)
    ensures CleanCount(front + [last]) == CleanCount(front) + if CleanCell(last) then 1 else 0
  {
    var flags := Map(CleanCell, front);
    assert Map(CleanCell, front + [last]) == flags + [CleanCell(last)];
    assert multiset(flags + [CleanCell(last)]) == multiset(flags) + multiset{CleanCell(last)};
    if CleanCell(last) {
      assert multiset{CleanCell(last)}[true] == 1;
    } else {
      assert multiset{CleanCell(last)}[true] == 0;
    }
  }

  method CountClean(repeats: seq<Cell>) returns (n: nat)
    ensures n == CleanCount(repeats)
  {
    n := 0;
    for i := 0 to |repeats|
      invariant n == CleanCount(repeats[..i])
    {
      CleanCountStep(repeats[..i], repeats[i]);
      assert repeats[..i + 1] == repeats[..i] + [repeats[i]];
      var reasons := CellFailureReasons(repeats[i]);
      if reasons == [] {
        n := n + 1;
      }
    }
    assert repeats[..|repeats|] == repeats;
  }

  /** The run passes exactly when every cell does. */
  method ComputePassFail(outcomes: seq<Cell>) returns (pass: bool, reasons: seq<Reason>)
    ensures reasons == VerdictReasons(outcomes)
    ensures pass <==> AllPass(outcomes)
  {
    reasons := [];
    for i := 0 to |outcomes|
      invariant reasons == VerdictReasons(outcomes[..i])
    {
      assert outcomes[..i + 1][..i] == outcomes[..i];
      var cell := outcomes[i];
      ghost var before := reasons;
      if cell.repeats.Some? {
        var clean := CountClean(cell.repeats.value);
        if clean * 2 <= |cell.repeats.value| {
          reasons := reasons + [NoCleanMajority(clean, |cell.repeats.value|)];
        }
      }
      assert reasons == before + RepeatReasons(cell);
      var own := CellFailureReasons(cell);
      Associative(before, RepeatReasons(cell), own);
      reasons := reasons + own;
    }
    assert outcomes[..|outcomes|] == outcomes;
    pass := reasons == [];
    PassesMeansNoReason(outcomes);
  }

  function RepeatReasons(c: Cell): seq<Reason> {
    if c.repeats.Some? && CleanCount(c.repeats.value) * 2 <= |c.repeats.value|
    then [NoCleanMajority(CleanCount(c.repeats.value), |c.repeats.value|)] else []
  }

  lemma {:induction false} PassesCellReasons(c: Cell)
    ensures RepeatReasons(c) == [] && CellReasons(c) == [] <==> Passes(c)
  {
    CleanMeansNoReason(c);
  }

  predicate AllPass(outcomes: seq<Cell>) {
    forall i :: 0 <= i < |outcomes| ==> Passes(outcomes[i])
  }

  lemma {:induction false} AllPassStep(outcomes: seq<Cell>)
    requires outcomes != []
    ensures AllPass(outcomes) <==> AllPass(outcomes[..|outcomes| - 1]) && Passes(outcomes[|outcomes| - 1])
  {
    var front, last := outcomes[..|outcomes| - 1], outcomes[|outcomes| - 1];
    assert outcomes == front + [last];
    assert forall i :: 0 <= i < |front| ==> front[i] == outcomes[i];
  }

  lemma {:induction false} PassesMeansNoReason(outcomes: seq<Cell>)
    ensures VerdictReasons(outcomes) == [] <==> AllPass(outcomes)
  {
    if outcomes != [] {
      var front, last := outcomes[..|outcomes| - 1], outcomes[|outcomes| - 1];
      PassesMeansNoReason(front);
      PassesCellReasons(last);
      BothEmpty(RepeatReasons(last), CellReasons(last));
      BothEmpty(VerdictReasons(front), RepeatReasons(last) + CellReasons(last));
      AllPassStep(outcomes);
    }
  }
}
