/**
 The ancestor search of the release check: is some job that the gate transitively needs missing or switchable?
 */
module ReleaseGraph {
  import opened Base

  /** One entry of a `needs` list; only strings name jobs. */
  datatype Item = Name(name: string) | NotAString

  datatype Needs = Single(name: string) | Many(items: seq<Item>) | NoNeeds

  /** A job's value in the workflow: anything but a mapping counts as missing. */
  datatype Job = Mapping(needs: Needs, hasIf: bool) | NotAMapping

  type Jobs = map<string, Job>

  function Items(n: Needs): seq<Item> {
    match n
    case Single(name) => [Name(name)]
    case Many(items) => items
    case NoNeeds => []
  }

  function NeedsOf(jobs: Jobs, job: string): seq<Item> {
    if job in jobs && jobs[job].Mapping? then Items(jobs[job].needs) else []
  }

  /** `job` needs `ancestor` directly. */
  predicate Edge(jobs: Jobs, job: string, ancestor: string) {
    Name(ancestor) in NeedsOf(jobs, job)
  }

  /** A walk along `needs` edges. */
  predicate Walk(jobs: Jobs, path: seq<string>) {
    |path| >= 1 && forall i :: 0 < i < |path| ==> Edge(jobs, path[i - 1], path[i])
  }

  /** Reached from `job` by one or more edges. */
  ghost predicate Reachable(jobs: Jobs, job: string, ancestor: string) {
    exists path :: IsPath(jobs, job, ancestor, path)
  }

  predicate IsPath(jobs: Jobs, job: string, ancestor: string, path: seq<string>) {
    Walk(jobs, path) && |path| >= 2 && path[0] == job && path[|path| - 1] == ancestor
  }

  predicate Offender(jobs: Jobs, name: string) {
    name !in jobs || !jobs[name].Mapping? || jobs[name].hasIf
  }

  lemma {:induction false} ReachableStep(jobs: Jobs, job: string, via: string, name: string)
    requires via == job || Reachable(jobs, job, via)
    requires Edge(jobs, via, name)
    ensures Reachable(jobs, job, name)
  {
    var path := [job];
    if Reachable(jobs, job, via) {
      path :| IsPath(jobs, job, via, path);
    }
    assert IsPath(jobs, job, name, path + [name]);
  }

  /** A set closed under `needs` that holds the direct needs of `job` holds everything reachable from it. */
  lemma {:induction false} ClosedHoldsPath(jobs: Jobs, job: string, seen: set<string>, path: seq<string>)
    requires Walk(jobs, path) && path[0] == job && |path| >= 2
    requires forall n :: Edge(jobs, job, n) ==> n in seen
    requires forall m, n :: m in seen && Edge(jobs, m, n) ==> n in seen
    ensures path[|path| - 1] in seen
  {
    var last := |path| - 1;
    assert Edge(jobs, path[last - 1], path[last]);
    if last > 1 {
      var front := path[..last];
      ClosedHoldsPath(jobs, job, seen, front);
    }
  }

  /** Every name any job lists, so that the search has only so much to see. */
  function Named(items: seq<Item>): set<string> {
    set i | 0 <= i < |items| && items[i].Name? :: items[i].name
  }

  function AllNamed(jobs: Jobs): set<string> {
    set job, n | job in jobs && n in Named(NeedsOf(jobs, job)) :: n
  }

  lemma {:induction false} EdgeNamed(jobs: Jobs, job: string, name: string)
    requires Edge(jobs, job, name)
    ensures name in AllNamed(jobs)
  {
    var i :| 0 <= i < |NeedsOf(jobs, job)| && NeedsOf(jobs, job)[i] == Name(name);
    assert name in Named(NeedsOf(jobs, job));
  }

  /** What the scan of one job's list has established after `i` entries. */
  ghost predicate Scanned(jobs: Jobs, job: string, current: string, i: nat, seen: set<string>, pending: seq<string>) {
    && i <= |NeedsOf(jobs, current)|
    && (current == job || current in seen)
    && (forall n :: n in seen ==> Reachable(jobs, job, n) && !Offender(jobs, n) && n in AllNamed(jobs))
    && (forall n :: n in pending ==> n == job || n in seen)
    && (forall j :: 0 <= j < i && NeedsOf(jobs, current)[j].Name? ==> NeedsOf(jobs, current)[j].name in seen)
    && (forall m, n :: (m == job || m in seen) && m !in pending && m != current && Edge(jobs, m, n) ==> n in seen)
  }

  /** Between two scans: every job not pending has all of its needs seen. */
  ghost predicate Searched(jobs: Jobs, job: string, seen: set<string>, pending: seq<string>) {
    && (forall n :: n in seen ==> Reachable(jobs, job, n) && !Offender(jobs, n) && n in AllNamed(jobs))
    && (forall n :: n in pending ==> n == job || n in seen)
    && (forall m, n :: (m == job || m in seen) && m !in pending && Edge(jobs, m, n) ==> n in seen)
  }

  /** An edge is a `needs` that is the name itself or a list holding it, of a job that is a mapping. */
  lemma {:induction false} EdgeMeaning(jobs: Jobs, job: string, ancestor: string)
    ensures Edge(jobs, job, ancestor) <==>
            && job in jobs && jobs[job].Mapping?
            && (jobs[job].needs == Single(ancestor) || (jobs[job].needs.Many? && Name(ancestor) in jobs[job].needs.items))
  {
  }

  /** The search theorem: for every job graph, cycles included, the search ends; it returns nothing exactly when
      every job reachable by one or more edges exists and is unconditional, and a returned name is a reachable
      offender. */
  method ConditionalNeedsAncestor(jobs: Jobs, job: string) returns (found: Option<string>)
    ensures found.None? <==> forall n :: Reachable(jobs, job, n) ==> n in jobs && jobs[n].Mapping? && !jobs[n].hasIf
    ensures found.Some? ==>
              Reachable(jobs, job, found.value) && (found.value in jobs && jobs[found.value].Mapping? ==> jobs[found.value].hasIf)
  {
    var seen: set<string> := {};
    var pending := [job];
    while pending != []
      invariant Searched(jobs, job, seen, pending)
      decreases AllNamed(jobs) - seen, |pending|
    {
      ghost var pending0 := pending;
      var current := pending[|pending| - 1];
      pending := pending[..|pending| - 1];
      assert pending + [current] == pending0;
      var offender: Option<string>;
      offender, seen, pending := ScanNeeds(jobs, job, current, seen, pending);
      if offender.Some? {
        return offender;
      }
    }
    forall n | Reachable(jobs, job, n) ensures !Offender(jobs, n) {
      var path :| IsPath(jobs, job, n, path);
      ClosedHoldsPath(jobs, job, seen, path);
    }
    found := None;
  }

  /** One job taken off the worklist. */
  method ScanNeeds(jobs: Jobs, job: string, current: string, seen0: set<string>, pending0: seq<string>)
    returns (offender: Option<string>, seen: set<string>, pending: seq<string>)
    requires Searched(jobs, job, seen0, pending0 + [current])
    ensures offender.Some? ==> Reachable(jobs, job, offender.value) && Offender(jobs, offender.value)
    ensures offender.None? ==> Searched(jobs, job, seen, pending)
    ensures offender.None? ==> seen0 <= seen && (seen == seen0 ==> pending == pending0)
    ensures offender.None? ==> seen <= AllNamed(jobs)
  {
    seen, pending, offender := seen0, pending0, None;
    var needs := NeedsOf(jobs, current);
    var i := 0;
    while i < |needs|
      invariant 0 <= i <= |needs| && offender.None?
      invariant Scanned(jobs, job, current, i, seen, pending)
      invariant seen0 <= seen && (seen == seen0 ==> pending == pending0)
    {
      if needs[i].Name? && needs[i].name !in seen {
        var name := needs[i].name;
        assert Edge(jobs, current, name);
        ReachableStep(jobs, job, current, name);
        EdgeNamed(jobs, current, name);
        seen := seen + {name};
        if Offender(jobs, name) {
          return Some(name), seen, pending;
        }
        pending := pending + [name];
      }
      i := i + 1;
    }
    forall n | Edge(jobs, current, n) ensures n in seen {
      var j :| 0 <= j < |needs| && needs[j] == Name(n);
    }
  }
}
