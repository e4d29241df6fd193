/**
 The work-status ledger of a session: children, the parent aggregates clients see, and what outlives a
 record once it is dropped: its event counter, its terminal tombstone and the mark of a restored key.
 */
module WorkLedger {
  import opened Base
  import opened WorkStatus

  const MAX_KEYS := 256
  const TTL := 300.0

  datatype Key = Key(epoch: Option<nat>, turn: string, parent: string)

  datatype Record = Record(state: WorkState, sequence: nat, reason: Option<TerminalReason>, terminalAt: Option<real>)

  /** `order` lists the keys of `parents` in insertion order. `restored` are the keys rehydrated from a
      snapshot, whose child set is known to be incomplete; `clocks` are their retention clocks. */
  datatype Ledger = Ledger(
    children: map<Key, Children>, order: seq<Key>, parents: map<Key, Record>, sequence: map<Key, nat>,
    tombstones: set<Key>, restored: set<Key>, clocks: map<Key, real>)

  const Empty := Ledger(map[], [], map[], map[], {}, {}, map[])

  /** One `work_status` event: the parent aggregate as clients receive it. */
  datatype Status = Status(key: Key, state: WorkState, sequence: nat, reason: Option<TerminalReason>)

  function Counter(l: Ledger, k: Key): nat {
    if k in l.sequence then l.sequence[k] else 0
  }

  function ChildrenOf(l: Ledger, k: Key): Children {
    if k in l.children then l.children[k] else []
  }

  // ---- dropping records -------------------------------------------------------------------

  function Remove(keys: seq<Key>, k: Key): seq<Key> {
    if keys == [] then []
    else Remove(keys[..|keys| - 1], k) + if keys[|keys| - 1] == k then [] else [keys[|keys| - 1]]
  }

  function Forget(l: Ledger, k: Key): Ledger {
    l.(children := l.children - {k}, clocks := l.clocks - {k},
       order := Remove(l.order, k), parents := l.parents - {k},
       tombstones := l.tombstones + if k in l.parents && Terminal(l.parents[k].state) then {k} else {})
  }

  /** When the key's retention clock started, or none while it must not expire. */
  function Stamp(l: Ledger, k: Key): Option<real> {
    if k !in l.parents then None
    else if l.parents[k].terminalAt.Some? then l.parents[k].terminalAt
    else if k in l.clocks then Some(l.clocks[k])
    else None
  }

  predicate Candidate(l: Ledger, protect: Key, k: Key) {
    k in l.parents && k != protect && Stamp(l, k).Some?
  }

  /** The first candidate of `keys` with the smallest stamp. */
  function Oldest(l: Ledger, protect: Key, keys: seq<Key>): (r: Option<Key>)
    ensures r.Some? ==> Candidate(l, protect, r.value)
  {
    if keys == [] then None
    else
      var last := keys[|keys| - 1];
      var best := Oldest(l, protect, keys[..|keys| - 1]);
      if !Candidate(l, protect, last) then best
      else if best.None? || Stamp(l, last).value < Stamp(l, best.value).value then Some(last)
      else best
  }

  function Evict(l: Ledger, protect: Key): Ledger
    decreases |l.parents|
  {
    if |l.parents| <= MAX_KEYS then l
    else
      var victim := Oldest(l, protect, l.order);
      if victim.None? then l
      else
        ForgetShrinks(l, victim.value);
        Evict(Forget(l, victim.value), protect)
  }

  lemma {:induction false} ForgetShrinks(l: Ledger, k: Key)
    requires k in l.parents
    ensures |Forget(l, k).parents| == |l.parents| - 1
  {
    assert l.parents.Keys == (l.parents - {k}).Keys + {k};
    assert |l.parents.Keys| == |l.parents| && |(l.parents - {k}).Keys| == |l.parents - {k}|;
  }

  predicate Expired(l: Ledger, k: Key, now: real) {
    Stamp(l, k).Some? && now - Stamp(l, k).value >= TTL
  }

  function ExpiredKeys(l: Ledger, keys: seq<Key>, now: real): seq<Key> {
    if keys == [] then []
    else ExpiredKeys(l, keys[..|keys| - 1], now) +
         if Expired(l, keys[|keys| - 1], now) then [keys[|keys| - 1]] else []
  }

  function ForgetAll(l: Ledger, keys: seq<Key>): Ledger {
    if keys == [] then l else Forget(ForgetAll(l, keys[..|keys| - 1]), keys[|keys| - 1])
  }

  function Prune(l: Ledger, now: real): Ledger {
    ForgetAll(l, ExpiredKeys(l, l.order, now))
  }

  // ---- reporting a child ------------------------------------------------------------------

  datatype Report = Report(
    turn: string, item: string, parent: Option<string>, worker: Option<string>, state: WorkState,
    epoch: Option<nat>, reason: Option<TerminalReason>)

  /** An absent or empty parent falls back to the work item itself. */
  function KeyOf(r: Report): Key {
    Key(r.epoch, r.turn, if r.parent.Some? && r.parent.value != "" then r.parent.value else r.item)
  }

  /** Reports share a key exactly when they agree on epoch, turn and parent, where an absent or empty parent stands for
      the work item itself: siblings meet under their parent, and a lone item is its own. */
  lemma {:induction false} KeyMeaning(a: Report, b: Report)
    ensures a.parent.Some? && a.parent.value != "" ==> KeyOf(a) == Key(a.epoch, a.turn, a.parent.value)
    ensures a.parent.None? || a.parent.value == "" ==> KeyOf(a) == Key(a.epoch, a.turn, a.item)
    ensures a.parent.Some? && a.parent == b.parent && a.parent.value != "" ==>
              (KeyOf(a) == KeyOf(b) <==> a.epoch == b.epoch && a.turn == b.turn)
    ensures a.parent.None? && b.parent.None? ==>
              (KeyOf(a) == KeyOf(b) <==> a.epoch == b.epoch && a.turn == b.turn && a.item == b.item)
  {
  }

  /** What the child's own record accepts: a non-empty turn, and a reason only alongside `Failed`. */
  predicate WellFormed(r: Report) {
    r.turn != "" && (r.reason.Some? ==> r.state.Failed?)
  }

  predicate Legal(l: Ledger, r: Report) {
    var known := Find(ChildrenOf(l, KeyOf(r)), r.item);
    LegalTransition(if known.Some? then Some(known.value.state) else None, r.state)
  }

  /** A malformed report raises, after the key's child map has been created. */
  datatype Outcome = Quiet | Emitted(status: Status) | Raised

  datatype Step = Step(ledger: Ledger, outcome: Outcome)

  /** The parent record rewritten from the current children, before the cap is enforced. */
  function Written(l: Ledger, k: Key, now: real): Ledger {
    var state := Aggregate(ChildrenOf(l, k));
    var next := Counter(l, k) + 1;
    l.(sequence := l.sequence[k := next],
       clocks := if k in l.restored && k !in l.clocks then l.clocks[k := now] else l.clocks,
       order := if k in l.parents then l.order else l.order + [k],
       parents := l.parents[k := Record(state, next, AggregateReason(ChildrenOf(l, k)), if Terminal(state) then Some(now) else None)])
  }

  function WriteParent(l: Ledger, k: Key, now: real): Step {
    var children := ChildrenOf(l, k);
    Step(Evict(Written(l, k, now), k), Emitted(Status(k, Aggregate(children), Counter(l, k) + 1, AggregateReason(children))))
  }

  function Reaggregate(l: Ledger, k: Key, now: real): Step {
    var children := ChildrenOf(l, k);
    if children == [] then Step(l, Quiet)
    else if k !in l.parents && k in l.tombstones then Step(l.(children := l.children - {k}), Quiet)
    else if k in l.parents && l.parents[k].state == Aggregate(children) then Step(l, Quiet)
    else if k in l.parents && Terminal(l.parents[k].state) then Step(l, Quiet)
    else if k in l.restored && Terminal(Aggregate(children)) then
      Step(if k in l.parents then l else l.(children := l.children - {k}), Quiet)
    else WriteParent(l, k, now)
  }

  function WithChild(l: Ledger, r: Report): Ledger {
    l.(children := l.children[KeyOf(r) := Upsert(ChildrenOf(l, KeyOf(r)), Child(r.item, r.worker, r.state, r.reason))])
  }

  function SetChild(l: Ledger, r: Report, now: real): Step {
    if !Legal(l, r) then Step(l, Quiet)
    else if !WellFormed(r) then Step(l.(children := l.children[KeyOf(r) := ChildrenOf(l, KeyOf(r))]), Raised)
    else Reaggregate(WithChild(l, r), KeyOf(r), now)
  }

  // ---- restoring from a snapshot ----------------------------------------------------------

  function RestoreOne(l: Ledger, s: Status, now: real): Ledger {
    l.(children := l.children[s.key := ChildrenOf(l, s.key)],
       sequence := l.sequence[s.key := s.sequence],
       order := if s.key in l.parents then l.order else l.order + [s.key],
       parents := l.parents[s.key := Record(s.state, s.sequence, s.reason, if Terminal(s.state) then Some(now) else None)],
       restored := l.restored + {s.key},
       clocks := l.clocks[s.key := now])
  }

  function FromSnapshot(statuses: seq<Status>, now: real): Ledger {
    if statuses == [] then Empty
    else RestoreOne(FromSnapshot(statuses[..|statuses| - 1], now), statuses[|statuses| - 1], now)
  }

  // ---- the invariant ----------------------------------------------------------------------

  predicate NoDuplicates(keys: seq<Key>) {
    forall i, j :: 0 <= i < j < |keys| ==> keys[i] != keys[j]
  }

  predicate RecordOk(l: Ledger, k: Key)
    requires k in l.parents
  {
    var r := l.parents[k];
    && k in l.children && k in l.sequence && l.sequence[k] == r.sequence
    && k !in l.tombstones
    && (r.terminalAt.Some? <==> Terminal(r.state))
    && (k !in l.restored && !Terminal(r.state) ==> l.children[k] != [] && r.state == Aggregate(l.children[k]))
  }

  /** Everything but lockstep: a key without a record has at most an empty child map. */
  ghost predicate Valid(l: Ledger) {
    && NoDuplicates(l.order) && (forall k :: k in l.order <==> k in l.parents)
    && (forall k :: k in l.parents ==> RecordOk(l, k))
    && (forall k :: k in l.children && k !in l.parents ==> l.children[k] == [])
    && l.clocks.Keys == l.restored * l.parents.Keys
  }

  predicate Lockstep(l: Ledger) {
    l.children.Keys == l.parents.Keys
  }

  /** Clients hold a terminal state for the key. */
  predicate Closed(l: Ledger, k: Key) {
    k in l.tombstones || (k in l.parents && Terminal(l.parents[k].state))
  }

  // ---- dropping keeps it ------------------------------------------------------------------

  lemma {:induction false} RemoveMeaning(keys: seq<Key>, k: Key)
    ensures forall x :: x in Remove(keys, k) <==> x in keys && x != k
    ensures NoDuplicates(keys) ==> NoDuplicates(Remove(keys, k))
  {
    if keys != [] {
      var front, last := keys[..|keys| - 1], keys[|keys| - 1];
      RemoveMeaning(front, k);
      assert keys == front + [last];
      if NoDuplicates(keys) {
        assert last !in front;
      }
    }
  }

  lemma {:induction false} ForgetKeeps(l: Ledger, k: Key)
    requires Valid(l)
    ensures Valid(Forget(l, k))
  {
    RemoveMeaning(l.order, k);
    var f := Forget(l, k);
    assert f.parents.Keys == l.parents.Keys - {k};
    forall x | x in f.parents ensures RecordOk(f, x) {
      assert RecordOk(l, x);
    }
    assert f.clocks.Keys == f.restored * f.parents.Keys;
  }

  /** A dropped record is gone for good or leaves others exactly as they were. */
  ghost predicate SameElsewhere(l: Ledger, m: Ledger) {
    && m.sequence == l.sequence && m.restored == l.restored
    && m.parents.Keys <= l.parents.Keys
    && (forall k :: k in m.parents ==> m.parents[k] == l.parents[k] && ChildrenOf(m, k) == ChildrenOf(l, k) && Stamp(m, k) == Stamp(l, k))
    && (forall k :: Closed(l, k) <==> Closed(m, k))
    && (Lockstep(l) ==> Lockstep(m))
  }

  lemma {:induction false} ForgetEffects(l: Ledger, k: Key)
    ensures
      var m := Forget(l, k);
      && m.sequence == l.sequence && m.restored == l.restored
      && (forall x :: Closed(l, x) <==> Closed(m, x))
      && (forall x :: x != k && x in l.parents ==> x in m.parents && m.parents[x] == l.parents[x])
      && (Lockstep(l) ==> Lockstep(m))
  {
    assert Forget(l, k).parents.Keys == l.parents.Keys - {k};
    assert Forget(l, k).children.Keys == l.children.Keys - {k};
  }

  /** Dropping one record leaves the candidacy and the clock of every other alone. */
  lemma {:induction false} ForgetLeaves(l: Ledger, protect: Key, victim: Key, k: Key)
    requires k != victim
    ensures Candidate(Forget(l, victim), protect, k) == Candidate(l, protect, k)
    ensures Stamp(Forget(l, victim), k) == Stamp(l, k)
    ensures k in Forget(l, victim).parents <==> k in l.parents
  {
  }

  lemma {:induction false} ForgetSameElsewhere(l: Ledger, k: Key)
    requires Valid(l)
    ensures SameElsewhere(l, Forget(l, k)) && Valid(Forget(l, k))
  {
    ForgetKeeps(l, k);
    ForgetEffects(l, k);
    assert Forget(l, k).parents.Keys == l.parents.Keys - {k};
    forall x | x in Forget(l, k).parents
      ensures Forget(l, k).parents[x] == l.parents[x] && ChildrenOf(Forget(l, k), x) == ChildrenOf(l, x) && Stamp(Forget(l, k), x) == Stamp(l, x)
    {
      ForgetLeaves(l, k, k, x);
    }
  }

  lemma {:induction false} OldestIsOldest(l: Ledger, protect: Key, keys: seq<Key>)
    ensures
      var r := Oldest(l, protect, keys);
      && (r.None? ==> forall k :: k in keys ==> !Candidate(l, protect, k))
      && (r.Some? ==> r.value in keys)
      && (r.Some? ==> forall k :: k in keys && Candidate(l, protect, k) ==> Stamp(l, r.value).value <= Stamp(l, k).value)
  {
    if keys != [] {
      OldestIsOldest(l, protect, keys[..|keys| - 1]);
      assert keys == keys[..|keys| - 1] + [keys[|keys| - 1]];
    }
  }

  /** Of candidates with equal clocks the one inserted first goes. */
  lemma {:induction false} OldestIsFirst(l: Ledger, protect: Key, keys: seq<Key>) returns (at: nat)
    requires Oldest(l, protect, keys).Some?
    ensures at < |keys| && keys[at] == Oldest(l, protect, keys).value
    ensures forall i :: 0 <= i < at && Candidate(l, protect, keys[i]) ==> Stamp(l, keys[at]).value < Stamp(l, keys[i]).value
  {
    var front, last := keys[..|keys| - 1], keys[|keys| - 1];
    OldestIsOldest(l, protect, front);
    if Oldest(l, protect, front) == Oldest(l, protect, keys) {
      at := OldestIsFirst(l, protect, front);
      assert forall i :: 0 <= i < |front| ==> keys[i] == front[i];
    } else {
      at := |keys| - 1;
      assert forall i :: 0 <= i < at ==> keys[i] in front;
    }
  }

  lemma {:induction false} SameElsewhereTransitive(l: Ledger, m: Ledger, n: Ledger)
    requires SameElsewhere(l, m) && SameElsewhere(m, n)
    ensures SameElsewhere(l, n)
  {
    forall k | k in n.parents
      ensures n.parents[k] == l.parents[k] && ChildrenOf(n, k) == ChildrenOf(l, k) && Stamp(n, k) == Stamp(l, k)
    {
      assert k in m.parents;
    }
  }

  lemma {:induction false} EvictKeeps(l: Ledger, protect: Key)
    requires Valid(l)
    ensures Valid(Evict(l, protect)) && SameElsewhere(l, Evict(l, protect))
    ensures |Evict(l, protect).parents| <= MAX_KEYS || forall k :: !Candidate(Evict(l, protect), protect, k)
    decreases |l.parents|
  {
    if |l.parents| > MAX_KEYS {
      var victim := Oldest(l, protect, l.order);
      OldestIsOldest(l, protect, l.order);
      if victim.Some? {
        ForgetSameElsewhere(l, victim.value);
        ForgetShrinks(l, victim.value);
        EvictKeeps(Forget(l, victim.value), protect);
        SameElsewhereTransitive(l, Forget(l, victim.value), Evict(l, protect));
      }
    }
  }

  predicate Listed(l: Ledger) {
    forall k :: k in l.parents ==> k in l.order
  }

  lemma {:induction false} SurvivorKeepsStamp(l: Ledger, protect: Key, k: Key)
    requires k in Evict(l, protect).parents
    ensures k in l.parents && Stamp(Evict(l, protect), k) == Stamp(l, k)
    decreases |l.parents|
  {
    if |l.parents| > MAX_KEYS {
      var victim := Oldest(l, protect, l.order);
      if victim.Some? {
        ForgetShrinks(l, victim.value);
        SurvivorKeepsStamp(Forget(l, victim.value), protect, k);
      }
    }
  }

  lemma {:induction false} VictimIsCandidate(l: Ledger, protect: Key, k: Key)
    requires k in l.parents && k !in Evict(l, protect).parents
    ensures Candidate(l, protect, k)
    decreases |l.parents|
  {
    var victim := Oldest(l, protect, l.order).value;
    ForgetShrinks(l, victim);
    if k != victim {
      VictimIsCandidate(Forget(l, victim), protect, k);
    }
  }

  lemma {:induction false} ForgetListed(l: Ledger, victim: Key)
    requires Listed(l)
    ensures Listed(Forget(l, victim))
  {
    RemoveMeaning(l.order, victim);
  }

  /** A victim's clock started no later than that of any surviving candidate. */
  lemma {:induction false} VictimIsOldest(l: Ledger, protect: Key, k: Key, j: Key)
    requires Listed(l) && k in l.parents && k !in Evict(l, protect).parents
    requires Candidate(Evict(l, protect), protect, j)
    ensures Candidate(l, protect, k) && Candidate(l, protect, j) && Stamp(l, k).value <= Stamp(l, j).value
    decreases |l.parents|
  {
    var victim := Oldest(l, protect, l.order).value;
    VictimIsCandidate(l, protect, k);
    SurvivorKeepsStamp(l, protect, j);
    if k == victim {
      OldestIsOldest(l, protect, l.order);
    } else {
      var rest := Forget(l, victim);
      assert Evict(l, protect) == Evict(rest, protect);
      ForgetShrinks(l, victim);
      ForgetListed(l, victim);
      ForgetLeaves(l, protect, victim, k);
      VictimIsOldest(rest, protect, k, j);
      if j != victim {
        ForgetLeaves(l, protect, victim, j);
      }
    }
  }

  /** Eviction only enforces the cap: a ledger within it is left alone, and one above it keeps at least the cap. */
  lemma {:induction false} EvictsNoMore(l: Ledger, protect: Key)
    ensures |l.parents| <= MAX_KEYS ==> Evict(l, protect) == l
    ensures |l.parents| > MAX_KEYS ==> |Evict(l, protect).parents| >= MAX_KEYS
    decreases |l.parents|
  {
    if |l.parents| > MAX_KEYS {
      var victim := Oldest(l, protect, l.order);
      if victim.Some? {
        ForgetShrinks(l, victim.value);
        EvictsNoMore(Forget(l, victim.value), protect);
      }
    }
  }

  /** The eviction theorem: the loop ends within the cap or with nothing evictable left; it drops only
      terminal or restored records, no more than the cap asks for and never the key just written; every victim's clock started no later than
      that of any survivor that could have been dropped instead; and what stays is untouched. */
  lemma {:induction false} EvictionTheorem(l: Ledger, protect: Key)
    requires Valid(l)
    ensures
      var m := Evict(l, protect);
      && Valid(m) && SameElsewhere(l, m)
      && (|m.parents| <= MAX_KEYS || forall k :: !Candidate(m, protect, k))
      && (|l.parents| <= MAX_KEYS ==> m == l) && (|l.parents| > MAX_KEYS ==> |m.parents| >= MAX_KEYS)
      && (forall k :: k in l.parents && k !in m.parents ==>
            && k != protect && (Terminal(l.parents[k].state) || k in l.restored)
            && Stamp(l, k).Some?
            && (forall j :: Candidate(m, protect, j) ==> Candidate(l, protect, j) && Stamp(l, k).value <= Stamp(l, j).value))
  {
    EvictKeeps(l, protect);
    EvictsNoMore(l, protect);
    forall k | k in l.parents && k !in Evict(l, protect).parents
      ensures k != protect && (Terminal(l.parents[k].state) || k in l.restored) && Stamp(l, k).Some?
      ensures forall j :: Candidate(Evict(l, protect), protect, j) ==> Candidate(l, protect, j) && Stamp(l, k).value <= Stamp(l, j).value
    {
      VictimIsCandidate(l, protect, k);
      assert RecordOk(l, k);
      forall j | Candidate(Evict(l, protect), protect, j)
        ensures Candidate(l, protect, j) && Stamp(l, k).value <= Stamp(l, j).value
      {
        VictimIsOldest(l, protect, k, j);
      }
    }
  }

  // ---- pruning ----------------------------------------------------------------------------

  lemma {:induction false} ExpiredMeaning(l: Ledger, keys: seq<Key>, now: real)
    ensures forall k :: k in ExpiredKeys(l, keys, now) <==> k in keys && Expired(l, k, now)
  {
    if keys != [] {
      ExpiredMeaning(l, keys[..|keys| - 1], now);
      assert keys == keys[..|keys| - 1] + [keys[|keys| - 1]];
    }
  }

  lemma {:induction false} ForgetAllKeeps(l: Ledger, keys: seq<Key>)
    requires Valid(l)
    ensures Valid(ForgetAll(l, keys)) && SameElsewhere(l, ForgetAll(l, keys))
    ensures forall k :: k in ForgetAll(l, keys).parents <==> k in l.parents && k !in keys
  {
    if keys != [] {
      var front, last := keys[..|keys| - 1], keys[|keys| - 1];
      ForgetAllKeeps(l, front);
      ForgetSameElsewhere(ForgetAll(l, front), last);
      assert keys == front + [last];
    }
  }

  /** When a record's clock started: a terminal record's when it became so, else a restored one's when it was restored
      or written again. A live authoritative record has none. */
  lemma {:induction false} StampMeaning(l: Ledger, k: Key)
    requires Valid(l) && k in l.parents
    ensures Stamp(l, k).Some? <==> Terminal(l.parents[k].state) || k in l.restored
    ensures Terminal(l.parents[k].state) ==> Stamp(l, k) == l.parents[k].terminalAt
    ensures !Terminal(l.parents[k].state) && k in l.restored ==> k in l.clocks && Stamp(l, k) == Some(l.clocks[k])
  {
    assert RecordOk(l, k);
    assert k in l.clocks <==> k in l.restored;
  }

  /** The pruning theorem: exactly the records whose clock started a TTL ago or longer are dropped. Every terminal record
      and every restored one has a clock, and a live authoritative one has none, so past the TTL of its clock no terminal
      or restored record is left, none is lost before, and no other record is ever lost. */
  lemma {:induction false} PruningTheorem(l: Ledger, now: real)
    requires Valid(l)
    ensures
      var m := Prune(l, now);
      && Valid(m) && SameElsewhere(l, m)
      && (forall k :: k in m.parents <==> k in l.parents && (Stamp(l, k).Some? ==> now < Stamp(l, k).value + TTL))
      && (forall k :: k in l.parents ==> (Stamp(l, k).Some? <==> Terminal(l.parents[k].state) || k in l.restored))
  {
    ExpiredMeaning(l, l.order, now);
    ForgetAllKeeps(l, ExpiredKeys(l, l.order, now));
    forall k | k in l.parents ensures Stamp(l, k).Some? <==> Terminal(l.parents[k].state) || k in l.restored {
      StampMeaning(l, k);
    }
  }
}
