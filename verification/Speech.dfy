/** The speech-delivery rank machine: which progress reports an utterance accepts, over any run. */
module Speech {
  import opened Base

  datatype Delivery =
    | Displayed | Queued | Started | SynthesisEnded | Paused | Resumed
    | DeliveryUnknown | DeliveryCompleted | Interrupted | InterruptedByReconnect

  predicate Terminal(d: Delivery) {
    d.DeliveryCompleted? || d.DeliveryUnknown? || d.Interrupted? || d.InterruptedByReconnect?
  }

  /** `Paused` ranks with the end of synthesis, above `Resumed`, which ranks with `Started`. */
  function Rank(d: Delivery): nat {
    match d
    case Displayed => 0
    case Queued => 1
    case Started => 2
    case Resumed => 2
    case SynthesisEnded => 3
    case Paused => 3
    case DeliveryUnknown => 5
    case DeliveryCompleted => 6
    case Interrupted => 7
    case InterruptedByReconnect => 8
  }

  datatype Progress = Progress(result: string, item: string, run: string, utterance: string, state: Delivery, epoch: Option<nat>)

  datatype Report = Report(progress: Progress, allowStaleReconnect: bool)

  /** `history` keeps every accepted report of an utterance, oldest first. */
  datatype State = State(activeEpoch: Option<nat>, speech: map<string, Progress>, history: map<string, seq<Progress>>)

  /** A connection is active and the report does not come from it. */
  predicate Fenced(s: State, r: Report) {
    s.activeEpoch.Some? && !r.allowStaleReconnect && r.progress.epoch != s.activeEpoch
  }

  predicate Follows(previous: Progress, next: Progress) {
    !Terminal(previous.state) && Rank(previous.state) <= Rank(next.state)
  }

  predicate Accepted(s: State, r: Report) {
    var u := r.progress.utterance;
    !Fenced(s, r) && (u in s.speech ==> Follows(s.speech[u], r.progress))
  }

  function HistoryOf(s: State, u: string): seq<Progress> {
    if u in s.history then s.history[u] else []
  }

  function Record(s: State, r: Report): State {
    if !Accepted(s, r) then s
    else
      var u := r.progress.utterance;
      s.(speech := s.speech[u := r.progress], history := s.history[u := HistoryOf(s, u) + [r.progress]])
  }

  datatype Operation = Promote(epoch: Option<nat>) | Apply(report: Report)

  function Run(s: State, ops: seq<Operation>): State {
    if ops == [] then s
    else
      var before := Run(s, ops[..|ops| - 1]);
      match ops[|ops| - 1]
      case Promote(epoch) => before.(activeEpoch := epoch)
      case Apply(report) => Record(before, report)
  }

  /** The current progress is the end of the history, and each entry follows the one before it. */
  predicate Valid(s: State) {
    && s.speech.Keys == s.history.Keys
    && forall u :: u in s.history ==>
         && s.history[u] != [] && s.speech[u] == s.history[u][|s.history[u]| - 1]
         && forall i :: 0 < i < |s.history[u]| ==> Follows(s.history[u][i - 1], s.history[u][i])
  }

  lemma {:induction false} RecordValid(s: State, r: Report)
    requires Valid(s)
    ensures Valid(Record(s, r))
  {
    if Accepted(s, r) {
      var n, u := Record(s, r), r.progress.utterance;
      forall x | x in n.history
        ensures n.history[x] != [] && n.speech[x] == n.history[x][|n.history[x]| - 1]
        ensures forall i :: 0 < i < |n.history[x]| ==> Follows(n.history[x][i - 1], n.history[x][i])
      {
        if x == u {
          assert n.history[x] == HistoryOf(s, u) + [r.progress];
        }
      }
    }
  }

  lemma {:induction false} RunValid(s: State, ops: seq<Operation>)
    requires Valid(s)
    ensures Valid(Run(s, ops))
  {
    if ops != [] {
      var front, op := ops[..|ops| - 1], ops[|ops| - 1];
      RunValid(s, front);
      if op.Apply? {
        RecordValid(Run(s, front), op.report);
      }
    }
  }

  lemma {:induction false} RanksAscend(h: seq<Progress>, i: nat, j: nat)
    requires i < j < |h| && forall k :: 0 < k < |h| ==> Follows(h[k - 1], h[k])
    ensures !Terminal(h[i].state) && Rank(h[i].state) <= Rank(h[j].state)
    decreases j - i
  {
    assert Follows(h[i + 1 - 1], h[i + 1]);
    if i + 1 < j {
      RanksAscend(h, i + 1, j);
    }
  }

  /** Over any run, an utterance's accepted progress never falls in rank, and a terminal outcome is never
      followed by anything: duplicate and late reports cannot replace it. */
  lemma {:induction false} ProgressTheorem(s: State, ops: seq<Operation>, u: string, i: nat, j: nat)
    requires Valid(s) && u in Run(s, ops).history && i < j < |Run(s, ops).history[u]|
    ensures
      var h := Run(s, ops).history[u];
      !Terminal(h[i].state) && Rank(h[i].state) <= Rank(h[j].state)
  {
    RunValid(s, ops);
    RanksAscend(Run(s, ops).history[u], i, j);
  }

  /** A paused utterance never records as resumed: the rank table lets only another utterance resume it. */
  lemma {:induction false} PausedNeverResumes(s: State, ops: seq<Operation>, u: string, i: nat, j: nat)
    requires Valid(s) && u in Run(s, ops).history && i < j < |Run(s, ops).history[u]|
    requires Run(s, ops).history[u][i].state.Paused?
    ensures
      var next := Run(s, ops).history[u][j].state;
      !next.Resumed? && !next.Started? && (next.Paused? || next.SynthesisEnded? || Terminal(next))
  {
    ProgressTheorem(s, ops, u, i, j);
  }

  /** Who may report: anyone while no connection is active, the active connection itself, and a reconnect that says so;
      nobody else. */
  lemma {:induction false} FenceMeaning(s: State, r: Report)
    ensures Fenced(s, r) <==>
            s.activeEpoch.Some? && !r.allowStaleReconnect && (r.progress.epoch.None? || r.progress.epoch.value != s.activeEpoch.value)
    ensures s.activeEpoch.None? || r.allowStaleReconnect || r.progress.epoch == s.activeEpoch ==> !Fenced(s, r)
  {
  }

  /** An admitted report opens its utterance, or carries it on when it is still open and the rank does not fall: then it
      becomes the progress in force and the end of the history. Any other report changes nothing. */
  lemma {:induction false} RecordMeaning(s: State, r: Report)
    ensures
      var u, n := r.progress.utterance, Record(s, r);
      if !Fenced(s, r) && (u in s.speech ==> !Terminal(s.speech[u].state) && Rank(s.speech[u].state) <= Rank(r.progress.state))
      then u in n.speech && n.speech[u] == r.progress && HistoryOf(n, u) == HistoryOf(s, u) + [r.progress] &&
           forall x :: x != u ==> HistoryOf(n, x) == HistoryOf(s, x) && (x in n.speech <==> x in s.speech)
      else n == s
  {
  }

  /** The ranks in words: displayed before queued before started or resumed before synthesis ended or paused, and every
      terminal outcome after all of them. */
  lemma {:induction false} RankMeaning(d: Delivery, e: Delivery)
    ensures Rank(Displayed) < Rank(Queued) < Rank(Started) == Rank(Resumed) < Rank(SynthesisEnded) == Rank(Paused)
    ensures !Terminal(d) && Terminal(e) ==> Rank(d) < Rank(e)
    ensures Terminal(d) <==> !(d.Displayed? || d.Queued? || d.Started? || d.Resumed? || d.SynthesisEnded? || d.Paused?)
  {
  }

  lemma {:induction false} TerminalStays(s: State, ops: seq<Operation>, u: string)
    requires u in s.speech && Terminal(s.speech[u].state)
    ensures u in Run(s, ops).speech && Run(s, ops).speech[u] == s.speech[u]
  {
    if ops != [] {
      TerminalStays(s, ops[..|ops| - 1], u);
    }
  }

  /** Whatever came before, a terminal report of an utterance that is still open is recorded unless it is fenced
      off, and whatever comes after, it stays the utterance's outcome. */
  lemma {:induction false} TerminalTheorem(s: State, before: seq<Operation>, r: Report, after: seq<Operation>)
    requires Terminal(r.progress.state) && !Fenced(Run(s, before), r)
    ensures
      var u := r.progress.utterance;
      var met := Run(s, before);
      var end := Run(Record(met, r), after);
      && u in end.speech && Terminal(end.speech[u].state)
      && end.speech[u] == if u in met.speech && Terminal(met.speech[u].state) then met.speech[u] else r.progress
  {
    TerminalStays(Record(Run(s, before), r), after, r.progress.utterance);
  }

  class SpeechLog {
    var activeEpoch: Option<nat>
    var speech: map<string, Progress>
    var history: map<string, seq<Progress>>

    ghost function View(): State
      reads this
    {
      State(activeEpoch, speech, history)
    }

    constructor ()
      ensures View() == State(None, map[], map[]) && Valid(View())
    {
      activeEpoch, speech, history := None, map[], map[];
    }

    /** Returns the progress now in force, or the report itself when it is fenced off and none is. */
    method SpeechProgress(r: Report) returns (current: Progress, emitted: bool)
      modifies this
      ensures View() == Record(old(View()), r)
      ensures emitted == Accepted(old(View()), r)
      ensures current == if r.progress.utterance in speech then speech[r.progress.utterance] else r.progress
    {
      var u := r.progress.utterance;
      if activeEpoch.Some? && !r.allowStaleReconnect && (r.progress.epoch.None? || r.progress.epoch != activeEpoch) {
        return if u in speech then speech[u] else r.progress, false;
      }
      if u in speech && Terminal(speech[u].state) {
        return speech[u], false;
      }
      if u in speech && Rank(r.progress.state) < Rank(speech[u].state) {
        return speech[u], false;
      }
      speech := speech[u := r.progress];
      history := history[u := (if u in history then history[u] else []) + [r.progress]];
      return r.progress, true;
    }
  }
}
