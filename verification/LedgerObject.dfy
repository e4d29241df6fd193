/** The ledger as the session object updates it in place, proved against the functions on its value. */
module LedgerObject {
  import opened Base
  import opened WorkStatus
  import opened WorkLedger

  class WorkStatusLedger {
    var children: map<Key, Children>
    var order: seq<Key>
    var parents: map<Key, Record>
    var sequence: map<Key, nat>
    var tombstones: set<Key>
    var restored: set<Key>
    var clocks: map<Key, real>

    function View(): Ledger
      reads this
    {
      Ledger(children, order, parents, sequence, tombstones, restored, clocks)
    }

    constructor ()
      ensures View() == Empty
    {
      children, order, parents, sequence, tombstones, restored, clocks := map[], [], map[], map[], {}, {}, map[];
    }

    constructor FromWire(statuses: seq<Status>, now: real)
      ensures View() == FromSnapshot(statuses, now)
    {
      children, order, parents, sequence, tombstones, restored, clocks := map[], [], map[], map[], {}, {}, map[];
      new;
      var i := 0;
      while i < |statuses|
        invariant 0 <= i <= |statuses|
        invariant View() == FromSnapshot(statuses[..i], now)
      {
        assert statuses[..i + 1][..i] == statuses[..i];
        RestoreStatus(statuses[i], now);
        i := i + 1;
      }
      assert statuses[..i] == statuses;
    }

    method RestoreStatus(s: Status, now: real)
      modifies this
      ensures View() == RestoreOne(old(View()), s, now)
    {
      if s.key !in children {
        children := children[s.key := []];
      } else {
        assert children == children[s.key := children[s.key]];
      }
      sequence := sequence[s.key := s.sequence];
      if s.key !in parents {
        order := order + [s.key];
      }
      parents := parents[s.key := Record(s.state, s.sequence, s.reason, if Terminal(s.state) then Some(now) else None)];
      restored := restored + {s.key};
      clocks := clocks[s.key := now];
    }

    method ForgetKey(k: Key)
      modifies this
      ensures View() == Forget(old(View()), k)
    {
      children, clocks, order := children - {k}, clocks - {k}, Remove(order, k);
      if k in parents && Terminal(parents[k].state) {
        tombstones := tombstones + {k};
      }
      parents := parents - {k};
    }

    method OldestKey(protect: Key) returns (oldest: Option<Key>)
      ensures oldest == Oldest(View(), protect, order)
    {
      oldest := None;
      var i := 0;
      while i < |order|
        invariant 0 <= i <= |order|
        invariant oldest == Oldest(View(), protect, order[..i])
      {
        assert order[..i + 1][..i] == order[..i];
        var k := order[i];
        if Candidate(View(), protect, k) {
          if oldest.None? || Stamp(View(), k).value < Stamp(View(), oldest.value).value {
            oldest := Some(k);
          }
        }
        i := i + 1;
      }
      assert order[..i] == order;
    }

    method EvictOverflow(protect: Key)
      modifies this
      ensures View() == Evict(old(View()), protect)
    {
      while |parents| > MAX_KEYS
        invariant Evict(View(), protect) == Evict(old(View()), protect)
        decreases |parents|
      {
        var oldest := OldestKey(protect);
        if oldest.None? {
          return;
        }
        ForgetShrinks(View(), oldest.value);
        ForgetKey(oldest.value);
      }
    }

    method PruneExpired(now: real)
      modifies this
      ensures View() == Prune(old(View()), now)
    {
      var expired := [];
      var i := 0;
      while i < |order|
        invariant 0 <= i <= |order|
        invariant View() == old(View())
        invariant expired == ExpiredKeys(View(), order[..i], now)
      {
        assert order[..i + 1][..i] == order[..i];
        if Expired(View(), order[i], now) {
          expired := expired + [order[i]];
        }
        i := i + 1;
      }
      assert order[..i] == order;
      i := 0;
      while i < |expired|
        invariant 0 <= i <= |expired|
        invariant View() == ForgetAll(old(View()), expired[..i])
      {
        assert expired[..i + 1][..i] == expired[..i];
        ForgetKey(expired[i]);
        i := i + 1;
      }
      assert expired[..i] == expired;
    }

    method ReaggregateParent(k: Key, now: real) returns (out: Outcome)
      modifies this
      ensures Step(View(), out) == Reaggregate(old(View()), k, now)
    {
      var kids := if k in children then children[k] else [];
      if kids == [] {
        return Quiet;
      }
      var state := Aggregate(kids);
      if k !in parents && k in tombstones {
        children := children - {k};
        return Quiet;
      }
      if k in parents && parents[k].state == state {
        return Quiet;
      }
      if k in parents && Terminal(parents[k].state) {
        return Quiet;
      }
      if k in restored && Terminal(state) {
        if k !in parents {
          children := children - {k};
        }
        return Quiet;
      }
      out := WriteRecord(k, kids, now);
      EvictOverflow(k);
    }

    /** The next number, the aggregate and its clock, written over whatever record was there. */
    method WriteRecord(k: Key, kids: Children, now: real) returns (out: Outcome)
      requires kids == ChildrenOf(View(), k)
      modifies this
      ensures View() == Written(old(View()), k, now)
      ensures out == Emitted(Status(k, Aggregate(kids), Counter(old(View()), k) + 1, AggregateReason(kids)))
    {
      var state, reason := Aggregate(kids), AggregateReason(kids);
      var next := (if k in sequence then sequence[k] else 0) + 1;
      sequence := sequence[k := next];
      if k in restored && k !in clocks {
        clocks := clocks[k := now];
      }
      if k !in parents {
        order := order + [k];
      }
      parents := parents[k := Record(state, next, reason, if Terminal(state) then Some(now) else None)];
      out := Emitted(Status(k, state, next, reason));
    }

    method SetChildStatus(r: Report, now: real) returns (out: Outcome)
      modifies this
      ensures Step(View(), out) == SetChild(old(View()), r, now)
    {
      var k := KeyOf(r);
      var known := if k in children then children[k] else [];
      var previous := Find(known, r.item);
      if !LegalTransition(if previous.Some? then Some(previous.value.state) else None, r.state) {
        return Quiet;
      }
      children := children[k := known];
      if !WellFormed(r) {
        return Raised;
      }
      children := children[k := Upsert(known, Child(r.item, r.worker, r.state, r.reason))];
      assert View() == WithChild(old(View()), r);
      out := ReaggregateParent(k, now);
    }
  }
}
