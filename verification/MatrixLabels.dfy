/**
 When two cells of a comparison run can share a report label although every candidate has its own name: the
 label is a concatenation, and a name may contain the separator.
 */
module MatrixLabels {
  import opened Base
  import opened FirstOfEach
  import opened Matrix
  import opened MatrixKept

  function Joined(r: string, w: string): string {
    r + Separator + w
  }

  /** The text between the two readings of one label, when the second router name is the longer one. */
  function Middle(r1: string, r2: string): string
    requires |r1| + |Separator| <= |r2|
  {
    r2[|r1| + |Separator|..]
  }

  /** The longer router name swallows the separator and the head of the other worker name. */
  predicate Ambiguous(r1: string, w1: string, r2: string, w2: string) {
    && |r1| + |Separator| <= |r2|
    && r2 == Joined(r1, Middle(r1, r2))
    && w1 == Joined(Middle(r1, r2), w2)
  }

  lemma {:induction false} SeparatorSelfOverlapFree(d: nat)
    requires 0 < d < |Separator|
    ensures Separator[d] != Separator[0]
  {
    assert Separator == ['/', 'w', 'o', 'r', 'k', 'e', 'r', '='];
  }

  lemma {:induction false} JoinedIndex(r: string, w: string, i: nat)
    requires i < |Joined(r, w)|
    ensures Joined(r, w)[i] ==
            if i < |r| then r[i] else if i < |r| + |Separator| then Separator[i - |r|] else w[i - |r| - |Separator|]
  {
  }

  /** One text splits two ways only by swallowing a separator. */
  lemma {:induction false} SplitTwice(r1: string, w1: string, r2: string, w2: string)
    requires Joined(r1, w1) == Joined(r2, w2) && |r1| <= |r2|
    ensures (r1 == r2 && w1 == w2) || Ambiguous(r1, w1, r2, w2)
  {
    var s, d, n := Joined(r1, w1), |r2| - |r1|, |Separator|;
    assert s[..|r1|] == r1 && s[|r1| + n..] == w1;
    assert s[..|r2|] == r2 && s[|r2| + n..] == w2;
    if 0 < d < n {
      JoinedIndex(r1, w1, |r2|);
      JoinedIndex(r2, w2, |r2|);
      SeparatorSelfOverlapFree(d);
      assert false;
    } else if n <= d {
      assert s[|r1|..|r1| + n] == Separator;
      var x := Middle(r1, r2);
      assert x == s[|r1| + n..|r2|];
      assert r2 == Joined(r1, x);
      assert s[|r2|..|r2| + n] == Separator;
      assert w1 == s[|r1| + n..|r2|] + s[|r2|..|r2| + n] + s[|r2| + n..];
    }
  }

  /** Two pairs render the same label exactly when their names agree or one reading is ambiguous. */
  lemma {:induction false} LabelsEqual(p: RunPair, q: RunPair)
    ensures Label(p) == Label(q) <==>
            || (p.router.name == q.router.name && p.worker.name == q.worker.name)
            || Ambiguous(p.router.name, p.worker.name, q.router.name, q.worker.name)
            || Ambiguous(q.router.name, q.worker.name, p.router.name, p.worker.name)
  {
    var r1, w1, r2, w2 := p.router.name, p.worker.name, q.router.name, q.worker.name;
    assert Label(p) == "router=" + Joined(r1, w1) && Label(q) == "router=" + Joined(r2, w2);
    assert Label(p)[7..] == Joined(r1, w1) && Label(q)[7..] == Joined(r2, w2);
    if Label(p) == Label(q) {
      if |r1| <= |r2| {
        SplitTwice(r1, w1, r2, w2);
      } else {
        SplitTwice(r2, w2, r1, w1);
      }
    }
    AmbiguousJoins(r1, w1, r2, w2);
    AmbiguousJoins(r2, w2, r1, w1);
  }

  lemma {:induction false} AmbiguousJoins(r1: string, w1: string, r2: string, w2: string)
    ensures Ambiguous(r1, w1, r2, w2) ==> Joined(r1, w1) == Joined(r2, w2)
  {
    if Ambiguous(r1, w1, r2, w2) {
      var x := Middle(r1, r2);
      assert r1 + Separator + (x + Separator + w2) == (r1 + Separator + x) + Separator + w2;
    }
  }

  predicate UniqueNames(cs: seq<Candidate>) {
    forall i, j :: 0 <= i < j < |cs| ==> cs[i].name != cs[j].name
  }

  /** No combination of the names is ambiguous; true whenever no name contains the separator. */
  predicate ClearNames(routers: seq<Candidate>, workers: seq<Candidate>) {
    forall r1, w1, r2, w2 {:trigger Ambiguous(r1.name, w1.name, r2.name, w2.name)} ::
      r1 in routers && r2 in routers && w1 in workers && w2 in workers ==>
        !Ambiguous(r1.name, w1.name, r2.name, w2.name)
  }

  /** No other router beside the baseline worker reads like the baseline router beside another worker. */
  predicate ClearSweep(g: Registry, routers: seq<Candidate>, workers: seq<Candidate>) {
    forall r, w :: r in routers && w in workers ==>
      && !Ambiguous(r.name, g.worker.name, g.router.name, w.name)
      && !Ambiguous(g.router.name, w.name, r.name, g.worker.name)
  }

  lemma {:induction false} SameNameSame(cs: seq<Candidate>, a: Candidate, b: Candidate)
    requires UniqueNames(cs) && a in cs && b in cs && a.name == b.name
    ensures a == b
  {
    var i :| 0 <= i < |cs| && cs[i] == a;
    var j :| 0 <= j < |cs| && cs[j] == b;
    assert i == j;
  }

  lemma {:induction false} SameWireSame(cs: seq<Candidate>, a: Candidate, b: Candidate)
    requires Distinct(Wire, cs) && a in cs && b in cs && Wire(a) == Wire(b)
    ensures a == b
  {
    var i :| 0 <= i < |cs| && cs[i] == a;
    var j :| 0 <= j < |cs| && cs[j] == b;
    assert i == j;
  }

  // ---- labels of deduplicated pairs -------------------------------------------------------

  /** A label names one wire cell. */
  predicate LabelsIdentify(pairs: seq<RunPair>) {
    forall p, q :: p in pairs && q in pairs && Label(p) == Label(q) ==> CellKey(p) == CellKey(q)
  }

  lemma {:induction false} DistinctMeansIdentify(pairs: seq<RunPair>)
    requires Distinct(CellKey, pairs)
    ensures DistinctLabels(pairs) <==> LabelsIdentify(pairs)
  {
    if DistinctLabels(pairs) {
      forall p, q | p in pairs && q in pairs && Label(p) == Label(q) ensures CellKey(p) == CellKey(q) {
        var i :| 0 <= i < |pairs| && pairs[i] == p;
        var j :| 0 <= j < |pairs| && pairs[j] == q;
        assert i == j;
      }
    }
  }

  lemma {:induction false} ProductMember(g: Registry, routers: seq<Candidate>, workers: seq<Candidate>, p: RunPair)
    ensures p in Product(g, routers, workers) <==> p.router in routers && p.worker in workers && p == Pair(g, p.router, p.worker)
  {
    if routers != [] {
      var front, last := routers[..|routers| - 1], routers[|routers| - 1];
      ProductMember(g, front, workers, p);
      RowMember(g, last, workers, p);
      assert routers == front + [last];
    }
  }

  lemma {:induction false} RowMember(g: Registry, r: Candidate, workers: seq<Candidate>, p: RunPair)
    ensures p in Row(g, r, workers) <==> p.router == r && p.worker in workers && p == Pair(g, r, p.worker)
  {
    if p.router == r && p.worker in workers && p == Pair(g, r, p.worker) {
      var i :| 0 <= i < |workers| && workers[i] == p.worker;
      assert Row(g, r, workers)[i] == p;
    }
  }

  lemma {:induction false} ColumnMember(g: Registry, routers: seq<Candidate>, w: Candidate, p: RunPair)
    ensures p in Column(g, routers, w) <==> p.router in routers && p.worker == w && p == Pair(g, p.router, w)
  {
    if p.router in routers && p.worker == w && p == Pair(g, p.router, w) {
      var i :| 0 <= i < |routers| && routers[i] == p.router;
      assert Column(g, routers, w)[i] == p;
    }
  }

  lemma {:induction false} KeptSides(g: Registry)
    ensures Distinct(Wire, Routers(g)) && Distinct(Wire, Workers(g)) && g.router in Routers(g) && g.worker in Workers(g)
    ensures Workers(g) != [] && Workers(g)[0] == g.worker
  {
    KeptMeaning(Wire, AllRouters(g));
    KeptMeaning(Wire, AllWorkers(g));
    SweepKept(g);
    assert Routers(g)[0] in Routers(g) && Workers(g)[0] in Workers(g);
  }

  /** Two pairs of kept candidates share a label without sharing a cell only if two names are equal or ambiguous. */
  lemma {:induction false} SharedLabel(g: Registry, p: RunPair, q: RunPair)
    requires p.router in Routers(g) && q.router in Routers(g) && p.worker in Workers(g) && q.worker in Workers(g)
    requires UniqueNames(Routers(g)) && UniqueNames(Workers(g)) && Label(p) == Label(q)
    requires !Ambiguous(p.router.name, p.worker.name, q.router.name, q.worker.name)
    requires !Ambiguous(q.router.name, q.worker.name, p.router.name, p.worker.name)
    ensures CellKey(p) == CellKey(q)
  {
    LabelsEqual(p, q);
    SameNameSame(Routers(g), p.router, q.router);
    SameNameSame(Workers(g), p.worker, q.worker);
  }

  /** Pairs of kept candidates in one cell are one pair, and one pair is never ambiguous. */
  lemma {:induction false} OneCellOnePair(g: Registry, p: RunPair, q: RunPair)
    requires p.router in Routers(g) && q.router in Routers(g) && p.worker in Workers(g) && q.worker in Workers(g)
    requires CellKey(p) == CellKey(q)
    ensures p.router == q.router && p.worker == q.worker
    ensures !Ambiguous(p.router.name, p.worker.name, q.router.name, q.worker.name)
  {
    KeptSides(g);
    SameWireSame(Routers(g), p.router, q.router);
    SameWireSame(Workers(g), p.worker, q.worker);
  }

  /** If labels identify cells, kept candidates that appear beside a common partner have names of their own. */
  lemma {:induction false} NamesFollow(g: Registry, pairs: seq<RunPair>)
    requires LabelsIdentify(pairs)
    requires forall r :: r in Routers(g) ==> Pair(g, r, g.worker) in pairs
    requires forall w :: w in Workers(g) ==> Pair(g, g.router, w) in pairs
    ensures UniqueNames(Routers(g)) && UniqueNames(Workers(g))
  {
    KeptSides(g);
    var rs, ws := Routers(g), Workers(g);
    forall i, j | 0 <= i < j < |rs| ensures rs[i].name != rs[j].name {
      assert rs[i] in rs && rs[j] in rs && Wire(rs[i]) != Wire(rs[j]);
      assert Pair(g, rs[i], g.worker) in pairs && Pair(g, rs[j], g.worker) in pairs;
    }
    forall i, j | 0 <= i < j < |ws| ensures ws[i].name != ws[j].name {
      assert ws[i] in ws && ws[j] in ws && Wire(ws[i]) != Wire(ws[j]);
      assert Pair(g, g.router, ws[i]) in pairs && Pair(g, g.router, ws[j]) in pairs;
    }
  }

  /** If labels identify cells, no two of the pairs are ambiguous. */
  lemma {:induction false} NotAmbiguous(g: Registry, pairs: seq<RunPair>, p: RunPair, q: RunPair)
    requires LabelsIdentify(pairs) && p in pairs && q in pairs
    requires p.router in Routers(g) && q.router in Routers(g) && p.worker in Workers(g) && q.worker in Workers(g)
    ensures !Ambiguous(p.router.name, p.worker.name, q.router.name, q.worker.name)
  {
    if Ambiguous(p.router.name, p.worker.name, q.router.name, q.worker.name) {
      LabelsEqual(p, q);
      OneCellOnePair(g, p, q);
      assert false;
    }
  }

  // ---- when the matrices build ------------------------------------------------------------

  lemma {:induction false} ProductHolds(g: Registry, r: Candidate, w: Candidate)
    requires r in Routers(g) && w in Workers(g)
    ensures Pair(g, r, w) in Product(g, Routers(g), Workers(g))
  {
    ProductMember(g, Routers(g), Workers(g), Pair(g, r, w));
  }

  lemma {:induction false} FullMatrixIsClear(g: Registry)
    requires LabelsIdentify(Product(g, Routers(g), Workers(g)))
    ensures UniqueNames(Routers(g)) && UniqueNames(Workers(g)) && ClearNames(Routers(g), Workers(g))
  {
    KeptSides(g);
    var rs, ws, pairs := Routers(g), Workers(g), Product(g, Routers(g), Workers(g));
    forall r | r in rs ensures Pair(g, r, g.worker) in pairs {
      ProductHolds(g, r, g.worker);
    }
    forall w | w in ws ensures Pair(g, g.router, w) in pairs {
      ProductHolds(g, g.router, w);
    }
    NamesFollow(g, pairs);
    forall r1, w1, r2, w2 | r1 in rs && r2 in rs && w1 in ws && w2 in ws ensures !Ambiguous(r1.name, w1.name, r2.name, w2.name) {
      ProductHolds(g, r1, w1);
      ProductHolds(g, r2, w2);
      NotAmbiguous(g, pairs, Pair(g, r1, w1), Pair(g, r2, w2));
    }
  }

  lemma {:induction false} ClearMatrixIdentifies(g: Registry)
    requires UniqueNames(Routers(g)) && UniqueNames(Workers(g)) && ClearNames(Routers(g), Workers(g))
    ensures LabelsIdentify(Product(g, Routers(g), Workers(g)))
  {
    var rs, ws, pairs := Routers(g), Workers(g), Product(g, Routers(g), Workers(g));
    forall p, q | p in pairs && q in pairs && Label(p) == Label(q) ensures CellKey(p) == CellKey(q) {
      ProductMember(g, rs, ws, p);
      ProductMember(g, rs, ws, q);
      SharedLabel(g, p, q);
    }
  }

  /** The full matrix builds if and only if the candidates that survive deduplication have names of their own and no
      combination of those names is ambiguous. For any registry. */
  lemma {:induction false} FullMatrixExactly(g: Registry)
    ensures DistinctLabels(KeptPairs(MatrixInput(g))) <==>
            UniqueNames(Routers(g)) && UniqueNames(Workers(g)) && ClearNames(Routers(g), Workers(g))
  {
    KeptMeaning(CellKey, MatrixInput(g));
    FullMatrixKept(g);
    DistinctMeansIdentify(KeptPairs(MatrixInput(g)));
    if DistinctLabels(KeptPairs(MatrixInput(g))) {
      FullMatrixIsClear(g);
    }
    if UniqueNames(Routers(g)) && UniqueNames(Workers(g)) && ClearNames(Routers(g), Workers(g)) {
      ClearMatrixIdentifies(g);
    }
  }

  /** The sweep's pairs: every kept router beside the baseline worker, and the baseline router beside every kept worker. */
  lemma {:induction false} SweepMember(g: Registry, p: RunPair)
    ensures p in KeptPairs(SweepInput(g)) <==>
            && p == Pair(g, p.router, p.worker)
            && ((p.router in Routers(g) && p.worker == g.worker) || (p.router == g.router && p.worker in Workers(g)))
  {
    SweepKept(g);
    var ws := Workers(g);
    ColumnMember(g, Routers(g), g.worker, p);
    RowMember(g, g.router, ws[1..], p);
    assert ws == [g.worker] + ws[1..];
    assert Routers(g)[0] in Routers(g);
  }

  /** Two pairs of the sweep are ambiguous only across its two halves. */
  lemma {:induction false} SweepClash(g: Registry, p: RunPair, q: RunPair)
    requires p in KeptPairs(SweepInput(g)) && q in KeptPairs(SweepInput(g))
    requires ClearSweep(g, Routers(g), Workers(g))
    ensures !Ambiguous(p.router.name, p.worker.name, q.router.name, q.worker.name)
  {
    SweepMember(g, p);
    SweepMember(g, q);
    KeptSides(g);
  }

  lemma {:induction false} SweepIdentifies(g: Registry)
    ensures LabelsIdentify(KeptPairs(SweepInput(g))) <==>
            UniqueNames(Routers(g)) && UniqueNames(Workers(g)) && ClearSweep(g, Routers(g), Workers(g))
  {
    KeptSides(g);
    var rs, ws, pairs := Routers(g), Workers(g), KeptPairs(SweepInput(g));
    forall r | r in rs ensures Pair(g, r, g.worker) in pairs {
      SweepMember(g, Pair(g, r, g.worker));
    }
    forall w | w in ws ensures Pair(g, g.router, w) in pairs {
      SweepMember(g, Pair(g, g.router, w));
    }
    if LabelsIdentify(pairs) {
      NamesFollow(g, pairs);
      forall r, w | r in rs && w in ws
        ensures !Ambiguous(r.name, g.worker.name, g.router.name, w.name)
        ensures !Ambiguous(g.router.name, w.name, r.name, g.worker.name)
      {
        NotAmbiguous(g, pairs, Pair(g, r, g.worker), Pair(g, g.router, w));
        NotAmbiguous(g, pairs, Pair(g, g.router, w), Pair(g, r, g.worker));
      }
    }
    if UniqueNames(rs) && UniqueNames(ws) && ClearSweep(g, rs, ws) {
      ClearSweepIdentifies(g);
    }
  }

  lemma {:induction false} ClearSweepIdentifies(g: Registry)
    requires UniqueNames(Routers(g)) && UniqueNames(Workers(g)) && ClearSweep(g, Routers(g), Workers(g))
    ensures LabelsIdentify(KeptPairs(SweepInput(g)))
  {
    KeptSides(g);
    var pairs := KeptPairs(SweepInput(g));
    forall p, q | p in pairs && q in pairs && Label(p) == Label(q) ensures CellKey(p) == CellKey(q) {
      SweepMember(g, p);
      SweepMember(g, q);
      SweepClash(g, p, q);
      SweepClash(g, q, p);
      SharedLabel(g, p, q);
    }
  }

  /** The sweep builds if and only if the surviving candidates have names of their own and no router beside the baseline
      worker reads like the baseline router beside another worker. For any registry. */
  lemma {:induction false} SweepExactly(g: Registry)
    ensures DistinctLabels(KeptPairs(SweepInput(g))) <==>
            UniqueNames(Routers(g)) && UniqueNames(Workers(g)) && ClearSweep(g, Routers(g), Workers(g))
  {
    KeptMeaning(CellKey, SweepInput(g));
    DistinctMeansIdentify(KeptPairs(SweepInput(g)));
    SweepIdentifies(g);
  }

  lemma {:induction false} UniqueSurvivors(cs: seq<Candidate>)
    requires UniqueNames(cs)
    ensures UniqueNames(Kept(Wire, cs)) && forall c :: c in Kept(Wire, cs) ==> c in cs
  {
    KeptMeaning(Wire, cs);
    var kept := Kept(Wire, cs);
    forall i, j | 0 <= i < j < |kept| ensures kept[i].name != kept[j].name {
      assert Wire(kept[i]) != Wire(kept[j]);
      if kept[i].name == kept[j].name {
        SameNameSame(cs, kept[i], kept[j]);
        assert false;
      }
    }
  }

  /** With unique names none of which is ambiguous, neither matrix builder can fail. */
  lemma {:induction false} BuildersSucceed(g: Registry)
    requires UniqueNames(AllRouters(g)) && UniqueNames(AllWorkers(g)) && ClearNames(AllRouters(g), AllWorkers(g))
    ensures DistinctLabels(KeptPairs(MatrixInput(g))) && DistinctLabels(KeptPairs(SweepInput(g)))
  {
    UniqueSurvivors(AllRouters(g));
    UniqueSurvivors(AllWorkers(g));
    assert g.router == AllRouters(g)[0] && g.worker == AllWorkers(g)[0];
    FullMatrixExactly(g);
    SweepExactly(g);
    assert ClearNames(Routers(g), Workers(g));
    KeptSides(g);
  }

  /** One router and one worker whose names clash across the baseline keep either matrix from being built. */
  lemma {:induction false} ClashFails(g: Registry, r: Candidate, w: Candidate)
    requires r in Routers(g) && w in Workers(g) && Ambiguous(g.router.name, w.name, r.name, g.worker.name)
    ensures !DistinctLabels(KeptPairs(MatrixInput(g))) && !DistinctLabels(KeptPairs(SweepInput(g)))
  {
    KeptSides(g);
    FullMatrixExactly(g);
    SweepExactly(g);
  }

  lemma {:induction false} TwoNames(a: Candidate, b: Candidate)
    requires a.name != b.name && Wire(a) != Wire(b)
    ensures UniqueNames([a] + [b]) && Distinct(Wire, [a] + [b]) && b in Kept(Wire, [a] + [b])
  {
    KeptAll(Wire, [a] + [b]);
    assert ([a] + [b])[1] == b;
  }

  lemma {:induction false} NamesClash()
    ensures Ambiguous("a", "b/worker=c", "a/worker=b", "c") && "a" != "a/worker=b" && "c" != "b/worker=c"
  {
    assert Middle("a", "a/worker=b") == "b";
    assert |"a"| != |"a/worker=b"| && |"c"| != |"b/worker=c"|;
  }

  /** Two candidates of each role with names and requests of their own. */
  const Colliding := Registry(
    Candidate("a", Router, "m", Some("low")), [Candidate("a/worker=b", Router, "m", Some("high"))],
    Candidate("c", Worker, "m", Some("low")), [Candidate("b/worker=c", Worker, "m", Some("high"))])

  /** Unique names and unique requests alone are not enough: a registry on which neither matrix can be built. */
  lemma {:induction false} UniqueNamesCanCollide()
    ensures UniqueNames(AllRouters(Colliding)) && UniqueNames(AllWorkers(Colliding))
    ensures Distinct(Wire, AllRouters(Colliding)) && Distinct(Wire, AllWorkers(Colliding))
    ensures !DistinctLabels(KeptPairs(MatrixInput(Colliding))) && !DistinctLabels(KeptPairs(SweepInput(Colliding)))
  {
    var g := Colliding;
    var r, w := g.routers[0], g.workers[0];
    NamesClash();
    assert "low"[0] != "high"[0];
    assert g.routers == [r] && g.workers == [w];
    TwoNames(g.router, r);
    TwoNames(g.worker, w);
    ClashFails(g, r, w);
  }
}
