/**
 The work-status contract: the states a delegated child moves through, and the join of a child set into
 the one state its parent shows.
 */
module WorkStatus {
  import opened Base

  datatype WorkState = Routing | Searching | Background | ResultReady | Failed | Cancelled

  datatype TerminalReason = MissingWorker | RetentionRejected

  predicate Terminal(s: WorkState) {
    s.ResultReady? || s.Failed? || s.Cancelled?
  }

  function Successors(s: WorkState): set<WorkState> {
    match s
    case Routing => {Searching, Failed, Cancelled}
    case Searching => {Background, ResultReady, Failed, Cancelled}
    case Background => {ResultReady, Failed, Cancelled}
    case _ => {}
  }

  const ColdStart: set<WorkState> := {Routing, Searching, Background, ResultReady, Failed}

  predicate LegalTransition(previous: Option<WorkState>, s: WorkState) {
    if previous.None? then s in ColdStart
    else if previous.value == s then false
    else s in Successors(previous.value)
  }

  /** What the transition table promises: no work starts cancelled, every live state can fail or be cancelled, nothing
      leaves a terminal state or repeats its own, a result needs a search, and the way to it leads forward only. */
  lemma {:induction false} TransitionMeaning(s: WorkState, t: WorkState)
    ensures LegalTransition(None, t) <==> t != Cancelled
    ensures !Terminal(s) ==> LegalTransition(Some(s), Failed) && LegalTransition(Some(s), Cancelled)
    ensures Terminal(s) || s == t ==> !LegalTransition(Some(s), t)
    ensures LegalTransition(Some(s), ResultReady) <==> s == Searching || s == Background
    ensures LegalTransition(Some(s), Searching) <==> s == Routing
    ensures LegalTransition(Some(s), Background) <==> s == Searching
    ensures !LegalTransition(Some(s), Routing)
  {
  }

  datatype Child = Child(item: string, worker: Option<string>, state: WorkState, reason: Option<TerminalReason>)

  /** Children in the order they were first reported. */
  type Children = seq<Child>

  predicate AnyIn(children: Children, s: WorkState) {
    exists i :: 0 <= i < |children| && children[i].state == s
  }

  predicate AllTerminal(children: Children) {
    forall i :: 0 <= i < |children| ==> Terminal(children[i].state)
  }

  /** The reason of the first failed child that has one. */
  function FirstReason(children: Children): Option<TerminalReason> {
    if children == [] then None
    else if children[0].state.Failed? && children[0].reason.Some? then children[0].reason
    else FirstReason(children[1..])
  }

  function Aggregate(children: Children): WorkState {
    if AnyIn(children, Routing) then Routing
    else if AnyIn(children, Searching) then Searching
    else if !AllTerminal(children) then Background
    else if AnyIn(children, Failed) then Failed
    else if forall i :: 0 <= i < |children| ==> children[i].state.Cancelled? then Cancelled
    else ResultReady
  }

  function AggregateReason(children: Children): Option<TerminalReason> {
    if Aggregate(children).Failed? then FirstReason(children) else None
  }

  function Find(children: Children, item: string): Option<Child> {
    if children == [] then None
    else if children[0].item == item then Some(children[0])
    else Find(children[1..], item)
  }

  /** Overwrite a known child in place, or append a new one. */
  function Upsert(children: Children, child: Child): Children {
    if children == [] then [child]
    else if children[0].item == child.item then [child] + children[1..]
    else [children[0]] + Upsert(children[1..], child)
  }

  /** The state furthest from its end wins: routing, then searching, then background. A parent is terminal exactly when
      every child is, and then names the outcome that dominates: failed over everything, cancelled only when unanimous. */
  lemma {:induction false} AggregateMeaning(children: Children)
    requires children != []
    ensures Aggregate(children).Routing? <==> AnyIn(children, Routing)
    ensures Aggregate(children).Searching? <==> AnyIn(children, Searching) && !AnyIn(children, Routing)
    ensures Aggregate(children).Background? <==>
              AnyIn(children, Background) && !AnyIn(children, Routing) && !AnyIn(children, Searching)
    ensures Terminal(Aggregate(children)) <==> AllTerminal(children)
    ensures Aggregate(children).Failed? <==> AllTerminal(children) && AnyIn(children, Failed)
    ensures Aggregate(children).Cancelled? <==> forall i :: 0 <= i < |children| ==> children[i].state.Cancelled?
    ensures Aggregate(children).ResultReady? <==>
              AllTerminal(children) && !AnyIn(children, Failed) && AnyIn(children, ResultReady)
    ensures AnyIn(children, Aggregate(children))
  {
    if AllTerminal(children) && !AnyIn(children, Failed) {
      if i :| 0 <= i < |children| && !children[i].state.Cancelled? {
        assert children[i].state.ResultReady? by {
          assert Terminal(children[i].state) && children[i].state != Failed;
        }
        assert AnyIn(children, ResultReady);
      } else {
        assert children[0].state == Cancelled;
      }
    }
    if AnyIn(children, Routing) {
      var i :| 0 <= i < |children| && children[i].state == Routing;
    } else if AnyIn(children, Searching) {
      var i :| 0 <= i < |children| && children[i].state == Searching;
    } else if !AllTerminal(children) {
      var i :| 0 <= i < |children| && !Terminal(children[i].state);
      assert children[i].state == Background;
    }
  }

  /** The reported reason is that of the first failed child that has one, and none means there is none. */
  lemma {:induction false} ReasonMeaning(children: Children)
    ensures
      var r := FirstReason(children);
      && (r.None? <==> forall i :: 0 <= i < |children| && children[i].state.Failed? ==> children[i].reason.None?)
      && (r.Some? ==> exists i :: 0 <= i < |children| && children[i].state.Failed? && children[i].reason == r &&
                        forall j :: 0 <= j < i && children[j].state.Failed? ==> children[j].reason.None?)
  {
    if children != [] && !(children[0].state.Failed? && children[0].reason.Some?) {
      var rest := children[1..];
      ReasonMeaning(rest);
      assert forall i :: 0 < i < |children| ==> children[i] == rest[i - 1];
      if FirstReason(rest).Some? {
        var i :| 0 <= i < |rest| && rest[i].state.Failed? && rest[i].reason == FirstReason(rest) &&
                 forall j :: 0 <= j < i && rest[j].state.Failed? ==> rest[j].reason.None?;
        assert children[i + 1] == rest[i];
      } else {
        assert forall i :: 0 <= i < |rest| ==> rest[i] == children[i + 1];
      }
    }
  }

  lemma {:induction false} UpsertFinds(children: Children, child: Child)
    ensures Upsert(children, child) != []
    ensures Find(Upsert(children, child), child.item) == Some(child)
    ensures forall item :: item != child.item ==> Find(Upsert(children, child), item) == Find(children, item)
  {
    if children != [] && children[0].item != child.item {
      UpsertFinds(children[1..], child);
    }
  }
}
