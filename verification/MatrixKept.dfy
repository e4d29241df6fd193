/**
 What deduplication leaves of the two matrices: the full matrix of the first candidate of each wire request, and
 the sweep over the same candidates, both in the original order.
 */
module MatrixKept {
  import opened Base
  import opened FirstOfEach
  import opened Matrix

  function Routers(g: Registry): seq<Candidate> {
    Kept(Wire, AllRouters(g))
  }

  function Workers(g: Registry): seq<Candidate> {
    Kept(Wire, AllWorkers(g))
  }

  lemma {:induction false} RowSeen(g: Registry, r: Candidate, workers: seq<Candidate>, k: WireKey)
    ensures Seen(CellKey, Row(g, r, workers), (Wire(r), k)) <==> Seen(Wire, workers, k)
    ensures forall q :: q != Wire(r) ==> !Seen(CellKey, Row(g, r, workers), (q, k))
  {
    var row := Row(g, r, workers);
    assert forall i :: 0 <= i < |row| ==> CellKey(row[i]) == (Wire(r), Wire(workers[i]));
  }

  lemma {:induction false} ColumnSeen(g: Registry, routers: seq<Candidate>, w: Candidate, k: WireKey, q: WireKey)
    ensures Seen(CellKey, Column(g, routers, w), (k, q)) <==> Seen(Wire, routers, k) && q == Wire(w)
  {
    var column := Column(g, routers, w);
    assert forall i :: 0 <= i < |column| ==> CellKey(column[i]) == (Wire(routers[i]), Wire(w));
  }

  lemma {:induction false} RowKept(g: Registry, r: Candidate, workers: seq<Candidate>)
    ensures Kept(CellKey, Row(g, r, workers)) == Row(g, r, Kept(Wire, workers))
  {
    if workers != [] {
      var front, last := workers[..|workers| - 1], workers[|workers| - 1];
      RowKept(g, r, front);
      RowSeen(g, r, front, Wire(last));
      assert Row(g, r, workers)[..|front|] == Row(g, r, front);
    }
  }

  lemma {:induction false} ColumnKept(g: Registry, routers: seq<Candidate>, w: Candidate)
    ensures Kept(CellKey, Column(g, routers, w)) == Column(g, Kept(Wire, routers), w)
  {
    if routers != [] {
      var front, last := routers[..|routers| - 1], routers[|routers| - 1];
      ColumnKept(g, front, w);
      ColumnSeen(g, front, w, Wire(last), Wire(w));
      assert Column(g, routers, w)[..|front|] == Column(g, front, w);
    }
  }

  lemma {:induction false} ProductSeen(g: Registry, routers: seq<Candidate>, workers: seq<Candidate>, k: WireKey, q: WireKey)
    ensures Seen(CellKey, Product(g, routers, workers), (k, q)) <==> Seen(Wire, routers, k) && Seen(Wire, workers, q)
  {
    if routers != [] {
      var front, last := routers[..|routers| - 1], routers[|routers| - 1];
      ProductSeen(g, front, workers, k, q);
      SeenAppend(CellKey, Product(g, front, workers), Row(g, last, workers), (k, q));
      RowSeen(g, last, workers, q);
      assert routers == front + [last];
      SeenAppend(Wire, front, [last], k);
      assert Seen(Wire, [last], k) <==> Wire(last) == k by {
        assert [last][0] == last;
      }
    }
  }

  lemma {:induction false} ProductStep(g: Registry, front: seq<Candidate>, last: Candidate, workers: seq<Candidate>)
    ensures Product(g, front + [last], workers) == Product(g, front, workers) + Row(g, last, workers)
  {
    assert (front + [last])[..|front|] == front;
  }

  /** A further router adds its row, or nothing when its request was there before. */
  lemma {:induction false} RowAdded(g: Registry, front: seq<Candidate>, last: Candidate, workers: seq<Candidate>)
    ensures Kept(CellKey, Product(g, front, workers) + Row(g, last, workers)) ==
            Kept(CellKey, Product(g, front, workers)) +
            if Seen(Wire, front, Wire(last)) then [] else Row(g, last, Kept(Wire, workers))
  {
    var before, row := Product(g, front, workers), Row(g, last, workers);
    RowKept(g, last, workers);
    forall i | 0 <= i < |row| ensures Seen(CellKey, before, CellKey(row[i])) <==> Seen(Wire, front, Wire(last)) {
      ProductSeen(g, front, workers, Wire(last), Wire(workers[i]));
      assert Seen(Wire, workers, Wire(workers[i]));
    }
    if Seen(Wire, front, Wire(last)) {
      KeptAppendSeen(CellKey, before, row);
    } else {
      KeptAppendFresh(CellKey, before, row);
    }
  }

  /** Deduplicating a product is the product of the deduplicated sides. */
  lemma {:induction false} ProductKept(g: Registry, routers: seq<Candidate>, workers: seq<Candidate>)
    ensures Kept(CellKey, Product(g, routers, workers)) == Product(g, Kept(Wire, routers), Kept(Wire, workers))
  {
    if routers != [] {
      var front, last := routers[..|routers| - 1], routers[|routers| - 1];
      assert routers == front + [last];
      ProductKept(g, front, workers);
      RowAdded(g, front, last, workers);
      ProductStep(g, front, last, workers);
      KeptStep(Wire, front, last);
      ProductStep(g, Kept(Wire, front), last, Kept(Wire, workers));
      assert Kept(Wire, front) + [] == Kept(Wire, front);
    }
  }

  /** What the full matrix keeps. */
  lemma {:induction false} FullMatrixKept(g: Registry)
    ensures KeptPairs(MatrixInput(g)) == Product(g, Routers(g), Workers(g))
  {
    ProductKept(g, AllRouters(g), AllWorkers(g));
  }

  lemma {:induction false} KeptHead<T, K>(key: T -> K, first: T, rest: seq<T>)
    ensures Kept(key, [first] + rest) != [] && Kept(key, [first] + rest)[0] == first
  {
    if rest == [] {
      assert [first] + rest == [first] && [first][..0] == [];
    } else {
      KeptHead(key, first, rest[..|rest| - 1]);
      assert ([first] + rest)[..|rest|] == [first] + rest[..|rest| - 1];
    }
  }

  lemma {:induction false} SweepSplit(g: Registry)
    ensures SweepInput(g) == Column(g, AllRouters(g), g.worker) + Row(g, g.router, g.workers)
  {
    assert Column(g, AllRouters(g), g.worker) == [Pair(g, g.router, g.worker)] + Column(g, g.routers, g.worker);
  }

  /** The sweep's second half repeats a wire request exactly when the workers before it do, the baseline included. */
  lemma {:induction false} SweepRowSeen(g: Registry, workers: seq<Candidate>, k: WireKey)
    ensures Seen(CellKey, Column(g, AllRouters(g), g.worker) + Row(g, g.router, workers), (Wire(g.router), k)) <==>
            Seen(Wire, [g.worker] + workers, k)
  {
    ColumnSeen(g, AllRouters(g), g.worker, Wire(g.router), k);
    assert Seen(Wire, AllRouters(g), Wire(g.router)) by {
      assert AllRouters(g)[0] == g.router;
    }
    RowSeen(g, g.router, workers, k);
    SeenAppend(CellKey, Column(g, AllRouters(g), g.worker), Row(g, g.router, workers), (Wire(g.router), k));
    SeenAppend(Wire, [g.worker], workers, k);
    assert Seen(Wire, [g.worker], k) <==> Wire(g.worker) == k by {
      assert [g.worker][0] == g.worker;
    }
  }

  /** The sweep's pairs once the workers up to some point have been kept. */
  function SweepOf(g: Registry, kept: seq<Candidate>): seq<RunPair>
    requires kept != []
  {
    Column(g, Routers(g), g.worker) + Row(g, g.router, kept[1..])
  }

  lemma {:induction false} SweepOfStep(g: Registry, kept: seq<Candidate>, last: Candidate)
    requires kept != []
    ensures SweepOf(g, kept + [last]) == SweepOf(g, kept) + [Pair(g, g.router, last)]
  {
    assert (kept + [last])[1..] == kept[1..] + [last];
    assert Row(g, g.router, kept[1..] + [last]) == Row(g, g.router, kept[1..]) + [Pair(g, g.router, last)];
  }

  function SweepUpTo(g: Registry, workers: seq<Candidate>): seq<RunPair> {
    Column(g, AllRouters(g), g.worker) + Row(g, g.router, workers)
  }

  lemma {:induction false} SweepUpToStep(g: Registry, front: seq<Candidate>, last: Candidate)
    ensures SweepUpTo(g, front + [last]) == SweepUpTo(g, front) + [Pair(g, g.router, last)]
    ensures [g.worker] + (front + [last]) == [g.worker] + front + [last]
  {
    assert Row(g, g.router, front + [last]) == Row(g, g.router, front) + [Pair(g, g.router, last)];
  }

  lemma {:induction false} SweepGrows(g: Registry, front: seq<Candidate>, last: Candidate)
    requires Kept(Wire, [g.worker] + front) != []
    requires Kept(CellKey, SweepUpTo(g, front)) == SweepOf(g, Kept(Wire, [g.worker] + front))
    ensures Kept(Wire, [g.worker] + front + [last]) != []
    ensures Kept(CellKey, SweepUpTo(g, front) + [Pair(g, g.router, last)]) == SweepOf(g, Kept(Wire, [g.worker] + front + [last]))
  {
    var input, workers, pair := SweepUpTo(g, front), [g.worker] + front, Pair(g, g.router, last);
    KeptStep(CellKey, input, pair);
    KeptStep(Wire, workers, last);
    SweepRowSeen(g, front, Wire(last));
    assert Seen(CellKey, input, CellKey(pair)) <==> Seen(Wire, workers, Wire(last));
    if Seen(Wire, workers, Wire(last)) {
      assert Kept(Wire, workers + [last]) == Kept(Wire, workers);
    } else {
      assert Kept(Wire, workers + [last]) == Kept(Wire, workers) + [last];
      SweepOfStep(g, Kept(Wire, workers), last);
    }
  }

  lemma {:induction false} SweepRowKept(g: Registry, workers: seq<Candidate>)
    ensures Kept(Wire, [g.worker] + workers) != []
    ensures Kept(CellKey, SweepUpTo(g, workers)) == SweepOf(g, Kept(Wire, [g.worker] + workers))
  {
    if workers == [] {
      SweepStart(g);
      assert [g.worker] + workers == [g.worker];
    } else {
      var front, last := workers[..|workers| - 1], workers[|workers| - 1];
      SweepRowKept(g, front);
      SweepGrows(g, front, last);
      SweepUpToStep(g, front, last);
      assert workers == front + [last];
    }
  }

  lemma {:induction false} SweepStart(g: Registry)
    ensures Kept(Wire, [g.worker]) == [g.worker]
    ensures Kept(CellKey, SweepUpTo(g, [])) == SweepOf(g, [g.worker])
  {
    ColumnKept(g, AllRouters(g), g.worker);
    assert [g.worker][..0] == [];
    assert SweepUpTo(g, []) == Column(g, AllRouters(g), g.worker);
    assert SweepOf(g, [g.worker]) == Column(g, Routers(g), g.worker);
  }

  /** What the sweep keeps. */
  lemma {:induction false} SweepKept(g: Registry)
    ensures Workers(g) != [] && Workers(g)[0] == g.worker && Routers(g) != [] && Routers(g)[0] == g.router
    ensures KeptPairs(SweepInput(g)) == Column(g, Routers(g), g.worker) + Row(g, g.router, Workers(g)[1..])
  {
    SweepSplit(g);
    SweepRowKept(g, g.workers);
    KeptHead(Wire, g.worker, g.workers);
    KeptHead(Wire, g.router, g.routers);
  }
}
