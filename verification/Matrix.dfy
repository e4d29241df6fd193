/** Keeping the first element of each key. */
module FirstOfEach {

  function Kept<T, K(==)>(key: T -> K, xs: seq<T>): seq<T> {
    if xs == [] then []
    else
      var front, last := xs[..|xs| - 1], xs[|xs| - 1];
      Kept(key, front) + if Seen(key, front, key(last)) then [] else [last]
  }

  predicate Seen<T, K(==)>(key: T -> K, xs: seq<T>, k: K) {
    exists i :: 0 <= i < |xs| && key(xs[i]) == k
  }

  predicate Distinct<T, K(==)>(key: T -> K, xs: seq<T>) {
    forall i, j :: 0 <= i < j < |xs| ==> key(xs[i]) != key(xs[j])
  }

  predicate Covers<T, K(==)>(key: T -> K, kept: seq<T>, xs: seq<T>) {
    forall i :: 0 <= i < |xs| ==> Seen(key, kept, key(xs[i]))
  }

  /** Members of the input, one per key, and no key lost. */
  lemma {:induction false} KeptMeaning<T, K>(key: T -> K, xs: seq<T>)
    ensures Distinct(key, Kept(key, xs)) && Covers(key, Kept(key, xs), xs)
    ensures forall j :: 0 <= j < |Kept(key, xs)| ==> Kept(key, xs)[j] in xs
  {
    if xs != [] {
      var front, last := xs[..|xs| - 1], xs[|xs| - 1];
      KeptMeaning(key, front);
      assert xs == front + [last];
      var before, kept := Kept(key, front), Kept(key, xs);
      assert forall j :: 0 <= j < |before| ==> kept[j] == before[j];
      forall k | Seen(key, front, k) ensures Seen(key, kept, k) {
        var i :| 0 <= i < |front| && key(front[i]) == k;
        assert Seen(key, before, k);
        var j :| 0 <= j < |before| && key(before[j]) == k;
        assert key(kept[j]) == k;
      }
      if !Seen(key, front, key(last)) {
        assert kept[|before|] == last;
        forall j | 0 <= j < |before| ensures key(before[j]) != key(last) {
          assert before[j] in front;
        }
      }
      forall i | 0 <= i < |xs| ensures Seen(key, kept, key(xs[i])) {
        if i < |front| {
          assert Seen(key, front, key(front[i]));
        }
      }
    }
  }

  predicate IsFirst<T, K(==)>(key: T -> K, xs: seq<T>, i: nat)
    requires i < |xs|
  {
    forall m :: 0 <= m < i ==> key(xs[m]) != key(xs[i])
  }

  /** Each element kept is the first of its key. */
  lemma {:induction false} KeptIsFirst<T, K>(key: T -> K, xs: seq<T>, j: nat) returns (i: nat)
    requires j < |Kept(key, xs)|
    ensures i < |xs| && Kept(key, xs)[j] == xs[i] && IsFirst(key, xs, i)
  {
    var front, last := xs[..|xs| - 1], xs[|xs| - 1];
    assert xs == front + [last];
    if j < |Kept(key, front)| {
      i := KeptIsFirst(key, front, j);
      assert forall m :: 0 <= m <= i ==> front[m] == xs[m];
    } else {
      i := |xs| - 1;
      assert forall m :: 0 <= m < i ==> xs[m] == front[m];
    }
  }

  lemma {:induction false} KeptAll<T, K>(key: T -> K, xs: seq<T>)
    requires Distinct(key, xs)
    ensures Kept(key, xs) == xs
  {
    if xs != [] {
      KeptAll(key, xs[..|xs| - 1]);
      assert xs == xs[..|xs| - 1] + [xs[|xs| - 1]];
    }
  }

  lemma {:induction false} KeptStep<T, K>(key: T -> K, front: seq<T>, last: T)
    ensures Kept(key, front + [last]) == Kept(key, front) + if Seen(key, front, key(last)) then [] else [last]
  {
    assert (front + [last])[..|front|] == front;
  }

  /** A batch whose keys were all seen adds nothing. */
  lemma {:induction false} KeptAppendSeen<T, K>(key: T -> K, a: seq<T>, b: seq<T>)
    requires forall i :: 0 <= i < |b| ==> Seen(key, a, key(b[i]))
    ensures Kept(key, a + b) == Kept(key, a)
  {
    if b == [] {
      assert a + b == a;
    } else {
      var front, last := b[..|b| - 1], b[|b| - 1];
      KeptAppendSeen(key, a, front);
      assert (a + b)[..|a + b| - 1] == a + front && (a + b)[|a + b| - 1] == last;
      var i :| 0 <= i < |a| && key(a[i]) == key(last);
      assert key((a + front)[i]) == key(last);
    }
  }

  lemma {:induction false} SeenAppend<T, K>(key: T -> K, a: seq<T>, b: seq<T>, k: K)
    ensures Seen(key, a + b, k) <==> Seen(key, a, k) || Seen(key, b, k)
  {
    if Seen(key, a, k) {
      var i :| 0 <= i < |a| && key(a[i]) == k;
      assert key((a + b)[i]) == k;
    }
    if Seen(key, b, k) {
      var i :| 0 <= i < |b| && key(b[i]) == k;
      assert key((a + b)[|a| + i]) == k;
    }
  }

  /** A batch whose keys are all new is kept as it would be alone. */
  lemma {:induction false} KeptAppendFresh<T, K>(key: T -> K, a: seq<T>, b: seq<T>)
    requires forall i :: 0 <= i < |b| ==> !Seen(key, a, key(b[i]))
    ensures Kept(key, a + b) == Kept(key, a) + Kept(key, b)
  {
    if b == [] {
      assert a + b == a;
    } else {
      var front, last := b[..|b| - 1], b[|b| - 1];
      KeptAppendFresh(key, a, front);
      assert (a + b)[..|a + b| - 1] == a + front && (a + b)[|a + b| - 1] == last;
      SeenAppend(key, a, front, key(last));
    }
  }

  /** Elements of one key carry the same flag. */
  predicate FlagsAgree<T, K(==)>(key: T -> K, flag: T -> bool, xs: seq<T>) {
    forall i, j :: 0 <= i < j < |xs| && key(xs[i]) == key(xs[j]) ==> flag(xs[i]) == flag(xs[j])
  }

  /** `seen` holds the flag of every key among the first `i` elements, and nothing else. */
  predicate Remembers<T, K(==)>(key: T -> K, flag: T -> bool, xs: seq<T>, i: nat, seen: map<K, bool>)
    requires i <= |xs|
  {
    && (forall j :: 0 <= j < i ==> key(xs[j]) in seen && seen[key(xs[j])] == flag(xs[j]))
    && (forall k :: k in seen ==> Seen(key, xs[..i], k))
  }

  lemma {:induction false} RemembersSeen<T, K>(key: T -> K, flag: T -> bool, xs: seq<T>, i: nat, seen: map<K, bool>, k: K)
    requires i <= |xs| && Remembers(key, flag, xs, i, seen)
    ensures k in seen <==> Seen(key, xs[..i], k)
  {
    if Seen(key, xs[..i], k) {
      var j :| 0 <= j < i && key(xs[..i][j]) == k;
      assert xs[..i][j] == xs[j];
    }
  }

  lemma {:induction false} RemembersAll<T, K>(key: T -> K, flag: T -> bool, xs: seq<T>, seen: map<K, bool>)
    requires Remembers(key, flag, xs, |xs|, seen)
    ensures FlagsAgree(key, flag, xs)
  {
  }

  lemma {:induction false} RemembersOther<T, K>(key: T -> K, flag: T -> bool, xs: seq<T>, i: nat, seen: map<K, bool>)
    requires i < |xs| && Remembers(key, flag, xs, i, seen) && key(xs[i]) in seen && seen[key(xs[i])] != flag(xs[i])
    ensures !FlagsAgree(key, flag, xs)
  {
    assert Seen(key, xs[..i], key(xs[i]));
    var j :| 0 <= j < i && key(xs[..i][j]) == key(xs[i]);
    assert xs[..i][j] == xs[j];
  }

  lemma {:induction false} RemembersMore<T, K>(key: T -> K, flag: T -> bool, xs: seq<T>, i: nat, seen: map<K, bool>)
    requires i < |xs| && Remembers(key, flag, xs, i, seen)
    requires key(xs[i]) in seen ==> seen[key(xs[i])] == flag(xs[i])
    ensures Remembers(key, flag, xs, i + 1, seen[key(xs[i]) := flag(xs[i])])
  {
    SeenGrows(key, xs, i);
  }

  /** The scan: remember the flag of each key's first element, refuse a later one that differs. */
  method KeepFirst<T, K(==)>(key: T -> K, flag: T -> bool, xs: seq<T>) returns (agreed: bool, unique: seq<T>)
    ensures agreed == FlagsAgree(key, flag, xs)
    ensures agreed ==> unique == Kept(key, xs)
  {
    var seen: map<K, bool> := map[];
    unique := [];
    var i := 0;
    while i < |xs|
      invariant 0 <= i <= |xs|
      invariant unique == Kept(key, xs[..i])
      invariant Remembers(key, flag, xs, i, seen)
    {
      var k := key(xs[i]);
      assert xs[..i + 1] == xs[..i] + [xs[i]];
      KeptStep(key, xs[..i], xs[i]);
      RemembersSeen(key, flag, xs, i, seen, k);
      if k in seen {
        if seen[k] != flag(xs[i]) {
          RemembersOther(key, flag, xs, i, seen);
          return false, [];
        }
        assert seen == seen[k := flag(xs[i])];
      } else {
        unique := unique + [xs[i]];
      }
      RemembersMore(key, flag, xs, i, seen);
      seen := seen[k := flag(xs[i])];
      i := i + 1;
    }
    assert xs[..i] == xs;
    RemembersAll(key, flag, xs, seen);
    agreed := true;
  }

  lemma {:induction false} SeenGrows<T, K>(key: T -> K, xs: seq<T>, i: nat)
    requires i < |xs|
    ensures forall k :: Seen(key, xs[..i + 1], k) <==> Seen(key, xs[..i], k) || key(xs[i]) == k
  {
    forall k ensures Seen(key, xs[..i + 1], k) <==> Seen(key, xs[..i], k) || key(xs[i]) == k {
      if Seen(key, xs[..i], k) {
        var j :| 0 <= j < i && key(xs[..i][j]) == k;
        assert key(xs[..i + 1][j]) == k;
      } else if key(xs[i]) == k {
        assert key(xs[..i + 1][i]) == k;
      }
    }
  }

  predicate ExactlyOne<T>(flag: T -> bool, xs: seq<T>) {
    exists i :: 0 <= i < |xs| && flag(xs[i]) && forall j :: 0 <= j < |xs| && j != i ==> !flag(xs[j])
  }

  /** A flag that marks exactly one key, present in the input, marks exactly one element kept. */
  lemma {:induction false} OneKeyOnce<T, K>(key: T -> K, flag: T -> bool, xs: seq<T>, b: nat)
    requires b < |xs| && forall i :: 0 <= i < |xs| ==> (flag(xs[i]) <==> key(xs[i]) == key(xs[b]))
    ensures ExactlyOne(flag, Kept(key, xs))
  {
    KeptMeaning(key, xs);
    var kept := Kept(key, xs);
    assert Seen(key, kept, key(xs[b]));
    var i :| 0 <= i < |kept| && key(kept[i]) == key(xs[b]);
    forall j | 0 <= j < |kept| ensures flag(kept[j]) <==> key(kept[j]) == key(xs[b]) {
      var m :| 0 <= m < |xs| && xs[m] == kept[j];
    }
    assert flag(kept[i]);
    assert forall j :: 0 <= j < |kept| && j != i ==> key(kept[j]) != key(kept[i]);
  }
}

/**
 The cells of a comparison run: candidate pairs, deduplicated by the wire request they send, with exactly one
 pair whose latency budget is enforced.
 */
module Matrix {
  import opened Base
  import opened FirstOfEach

  datatype Role = Router | Worker

  datatype Candidate = Candidate(name: string, role: Role, model: string, effort: Option<string>)

  datatype WireKey = WireKey(model: string, effort: Option<string>)

  /** Only the router resolves an unset effort, by the model's name. */
  function Wire(c: Candidate): WireKey {
    if c.role.Router? && c.effort.None? && "gpt-5" <= c.model then WireKey(c.model, Some("minimal"))
    else WireKey(c.model, c.effort)
  }

  /** The model is sent as it is; so is an effort that was set. An unset one stays unset, except that a router of the
      gpt-5 family sends `minimal`. */
  lemma {:induction false} WireMeaning(c: Candidate)
    ensures Wire(c).model == c.model
    ensures c.effort.Some? ==> Wire(c).effort == c.effort
    ensures c.effort.None? && c.role.Worker? ==> Wire(c).effort.None?
    ensures c.effort.None? && c.role.Router? ==>
              Wire(c).effort == if |c.model| >= 5 && c.model[..5] == "gpt-5" then Some("minimal") else None
  {
    if |c.model| >= 5 && c.model[..5] == "gpt-5" {
      assert "gpt-5" <= c.model;
    }
    if "gpt-5" <= c.model {
      assert c.model[..5] == "gpt-5";
    }
  }

  datatype RunPair = RunPair(router: Candidate, worker: Candidate, enforce: bool)

  function CellKey(p: RunPair): (WireKey, WireKey) {
    (Wire(p.router), Wire(p.worker))
  }

  const Separator := "/worker="

  function Label(p: RunPair): string {
    "router=" + p.router.name + Separator + p.worker.name
  }

  // ---- deduplication ----------------------------------------------------------------------

  /** Pairs that send the same request agree on whether its budget is enforced. */
  predicate Agree(pairs: seq<RunPair>) {
    FlagsAgree(CellKey, (p: RunPair) => p.enforce, pairs)
  }

  predicate DistinctLabels(pairs: seq<RunPair>) {
    forall i, j :: 0 <= i < j < |pairs| ==> Label(pairs[i]) != Label(pairs[j])
  }

  datatype Deduped = Unique(pairs: seq<RunPair>) | EnforcementDisagrees | LabelsCollide

  function KeptPairs(pairs: seq<RunPair>): seq<RunPair> {
    Kept(CellKey, pairs)
  }

  method DedupePairs(pairs: seq<RunPair>) returns (r: Deduped)
    ensures r.EnforcementDisagrees? <==> !Agree(pairs)
    ensures Agree(pairs) ==> r == if DistinctLabels(KeptPairs(pairs)) then Unique(KeptPairs(pairs)) else LabelsCollide
  {
    var agreed, unique := KeepFirst(CellKey, (p: RunPair) => p.enforce, pairs);
    if !agreed {
      return EnforcementDisagrees;
    }
    if exists a, b :: 0 <= a < b < |unique| && Label(unique[a]) == Label(unique[b]) {
      return LabelsCollide;
    }
    r := Unique(unique);
  }

  // ---- the two matrices -------------------------------------------------------------------

  /** A registry: the historical baseline of each role and the further candidates. */
  datatype Registry = Registry(router: Candidate, routers: seq<Candidate>, worker: Candidate, workers: seq<Candidate>)

  function AllRouters(g: Registry): seq<Candidate> {
    [g.router] + g.routers
  }

  function AllWorkers(g: Registry): seq<Candidate> {
    [g.worker] + g.workers
  }

  predicate IsBaseline(g: Registry, router: Candidate, worker: Candidate) {
    Wire(router) == Wire(g.router) && Wire(worker) == Wire(g.worker)
  }

  function Pair(g: Registry, router: Candidate, worker: Candidate): RunPair {
    RunPair(router, worker, IsBaseline(g, router, worker))
  }

  /** One router under every worker, in order. */
  function Row(g: Registry, router: Candidate, workers: seq<Candidate>): seq<RunPair> {
    seq(|workers|, i requires 0 <= i < |workers| => Pair(g, router, workers[i]))
  }

  /** One worker under every router, in order. */
  function Column(g: Registry, routers: seq<Candidate>, worker: Candidate): seq<RunPair> {
    seq(|routers|, i requires 0 <= i < |routers| => Pair(g, routers[i], worker))
  }

  function SweepInput(g: Registry): seq<RunPair> {
    [RunPair(g.router, g.worker, true)] + Column(g, g.routers, g.worker) + Row(g, g.router, g.workers)
  }

  /** Every worker under the first router, then under the next, and so on. */
  function Product(g: Registry, routers: seq<Candidate>, workers: seq<Candidate>): seq<RunPair> {
    if routers == [] then []
    else Product(g, routers[..|routers| - 1], workers) + Row(g, routers[|routers| - 1], workers)
  }

  function MatrixInput(g: Registry): seq<RunPair> {
    Product(g, AllRouters(g), AllWorkers(g))
  }

  /** One pair per wire cell, every wire cell of the input covered, exactly one budget enforced. */
  ghost predicate CoversOnce(pairs: seq<RunPair>, input: seq<RunPair>) {
    && Distinct(CellKey, pairs) && Covers(CellKey, pairs, input)
    && ExactlyOne((p: RunPair) => p.enforce, pairs)
  }

  /** The budget is enforced exactly on the historical baseline's wire cell. */
  predicate EnforcesBaseline(g: Registry, pairs: seq<RunPair>) {
    forall i :: 0 <= i < |pairs| ==> (pairs[i].enforce <==> CellKey(pairs[i]) == (Wire(g.router), Wire(g.worker)))
  }

  method DefaultSweepPairs(g: Registry) returns (r: Deduped)
    ensures !r.EnforcementDisagrees?
    ensures r == if DistinctLabels(KeptPairs(SweepInput(g))) then Unique(KeptPairs(SweepInput(g))) else LabelsCollide
    ensures r.Unique? ==> CoversOnce(r.pairs, SweepInput(g)) && EnforcesBaseline(g, r.pairs)
  {
    SweepPairsBuilt(g);
    BuiltAgree(g, SweepInput(g));
    MatrixTheorem(g, SweepInput(g));
    r := DedupePairs(SweepInput(g));
  }

  method FullMatrixPairs(g: Registry) returns (r: Deduped)
    ensures !r.EnforcementDisagrees?
    ensures r == if DistinctLabels(KeptPairs(MatrixInput(g))) then Unique(KeptPairs(MatrixInput(g))) else LabelsCollide
    ensures r.Unique? ==> CoversOnce(r.pairs, MatrixInput(g)) && EnforcesBaseline(g, r.pairs)
    ensures r.Unique? ==> forall a, b :: a in AllRouters(g) && b in AllWorkers(g) ==> Seen(CellKey, r.pairs, (Wire(a), Wire(b)))
  {
    MatrixPairsBuilt(g, AllRouters(g));
    BuiltAgree(g, MatrixInput(g));
    MatrixTheorem(g, MatrixInput(g));
    forall a, b | a in AllRouters(g) && b in AllWorkers(g) ensures Seen(CellKey, KeptPairs(MatrixInput(g)), (Wire(a), Wire(b))) {
      EveryCombinationCovered(g, a, b);
    }
    r := DedupePairs(MatrixInput(g));
  }

  lemma {:induction false} EveryCombinationCovered(g: Registry, a: Candidate, b: Candidate)
    requires a in AllRouters(g) && b in AllWorkers(g)
    ensures Seen(CellKey, KeptPairs(MatrixInput(g)), (Wire(a), Wire(b)))
  {
    MatrixPairsBuilt(g, AllRouters(g));
    KeptMeaning(CellKey, MatrixInput(g));
    var i :| 0 <= i < |MatrixInput(g)| && MatrixInput(g)[i] == Pair(g, a, b);
    assert CellKey(MatrixInput(g)[i]) == (Wire(a), Wire(b));
  }

  /** Every pair is built by the one enforcement rule, from candidates of the registry. */
  predicate Built(g: Registry, pairs: seq<RunPair>) {
    forall i :: 0 <= i < |pairs| ==>
      && pairs[i] == Pair(g, pairs[i].router, pairs[i].worker)
      && pairs[i].router in AllRouters(g) && pairs[i].worker in AllWorkers(g)
  }

  lemma {:induction false} SweepPairsBuilt(g: Registry)
    ensures Built(g, SweepInput(g)) && Pair(g, g.router, g.worker) in SweepInput(g)
  {
    assert AllRouters(g)[0] == g.router && AllWorkers(g)[0] == g.worker;
    assert SweepInput(g)[0] == Pair(g, g.router, g.worker);
  }

  /** The full matrix holds every combination and nothing else. */
  lemma {:induction false} MatrixPairsBuilt(g: Registry, routers: seq<Candidate>)
    requires forall r :: r in routers ==> r in AllRouters(g)
    ensures Built(g, Product(g, routers, AllWorkers(g)))
    ensures forall r, w :: r in routers && w in AllWorkers(g) ==> Pair(g, r, w) in Product(g, routers, AllWorkers(g))
    ensures routers == AllRouters(g) ==> Pair(g, g.router, g.worker) in MatrixInput(g)
  {
    assert AllRouters(g)[0] == g.router && AllWorkers(g)[0] == g.worker;
    if routers != [] {
      var front, last := routers[..|routers| - 1], routers[|routers| - 1];
      assert routers == front + [last];
      MatrixPairsBuilt(g, front);
      var row := Row(g, last, AllWorkers(g));
      forall r, w | r in routers && w in AllWorkers(g) ensures Pair(g, r, w) in Product(g, routers, AllWorkers(g)) {
        if r !in front {
          var i :| 0 <= i < |AllWorkers(g)| && AllWorkers(g)[i] == w;
          assert row[i] == Pair(g, r, w);
        }
      }
    }
  }

  /** Enforcement is a function of the wire request, so it can never disagree. */
  lemma {:induction false} BuiltAgree(g: Registry, pairs: seq<RunPair>)
    requires Built(g, pairs)
    ensures Agree(pairs)
  {
    forall i, j | 0 <= i < j < |pairs| && CellKey(pairs[i]) == CellKey(pairs[j]) ensures pairs[i].enforce == pairs[j].enforce {
      assert pairs[i] == Pair(g, pairs[i].router, pairs[i].worker);
      assert pairs[j] == Pair(g, pairs[j].router, pairs[j].worker);
    }
  }

  /** Deduplicated pairs of either matrix: one per wire cell, every wire cell covered, exactly one enforced. */
  lemma {:induction false} MatrixTheorem(g: Registry, pairs: seq<RunPair>)
    requires Built(g, pairs) && Pair(g, g.router, g.worker) in pairs
    ensures CoversOnce(KeptPairs(pairs), pairs) && EnforcesBaseline(g, KeptPairs(pairs))
  {
    KeptMeaning(CellKey, pairs);
    var baseline := Pair(g, g.router, g.worker);
    forall i | 0 <= i < |pairs| ensures pairs[i].enforce <==> CellKey(pairs[i]) == CellKey(baseline) {
      assert pairs[i] == Pair(g, pairs[i].router, pairs[i].worker);
    }
    forall j | 0 <= j < |KeptPairs(pairs)| ensures KeptPairs(pairs)[j] in pairs {
    }
    var b :| 0 <= b < |pairs| && pairs[b] == baseline;
    OneKeyOnce(CellKey, (p: RunPair) => p.enforce, pairs, b);
  }
}
