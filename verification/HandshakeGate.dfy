/**
 Resume tokens of the browser handshake: a bounded store, pruned lazily and evicted nearest expiry first, whose
 tokens can each be redeemed once.
 */
module HandshakeGate {
  import opened Base

  const MAX_TOKENS := 32
  const LIFETIME := 60.0

  datatype Token = Token(name: string, epoch: nat, expires: real, redeemed: bool)

  /** In insertion order, as the dictionary holds them. */
  type Store = seq<Token>

  function Prune(s: Store, now: real): Store {
    if s == [] then [] else Prune(s[..|s| - 1], now) + if s[|s| - 1].expires <= now then [] else [s[|s| - 1]]
  }

  /** The first token with the nearest expiry. */
  function Nearest(s: Store): (i: nat)
    requires s != []
    ensures i < |s| && forall j :: 0 <= j < |s| ==> s[i].expires <= s[j].expires
    ensures forall j :: 0 <= j < i ==> s[i].expires < s[j].expires
  {
    if |s| == 1 then 0
    else
      var best := Nearest(s[..|s| - 1]);
      if s[|s| - 1].expires < s[best].expires then |s| - 1 else best
  }

  function Evict(s: Store): Store {
    if |s| <= MAX_TOKENS then s else Evict(s[..Nearest(s)] + s[Nearest(s) + 1..])
  }

  /** Two clock readings: one for the prune, a later one for what follows it. */
  datatype Operation =
    | Issue(name: string, epoch: nat, pruneAt: real, now: real)
    | Validate(name: string, epoch: nat, redeem: bool, pruneAt: real, now: real)

  function Lookup(s: Store, name: string): Option<nat> {
    if s == [] then None
    else if s[|s| - 1].name == name then Some(|s| - 1)
    else Lookup(s[..|s| - 1], name)
  }

  lemma {:induction false} LookupMeaning(s: Store, name: string)
    ensures Lookup(s, name).Some? ==> Lookup(s, name).value < |s| && s[Lookup(s, name).value].name == name
    ensures Lookup(s, name).None? ==> forall i :: 0 <= i < |s| ==> s[i].name != name
  {
    if s != [] {
      LookupMeaning(s[..|s| - 1], name);
    }
  }

  function Act(s: Store, op: Operation): (Store, bool) {
    var kept := Prune(s, op.pruneAt);
    match op
    case Issue(name, epoch, _, now) => (Evict(kept + [Token(name, epoch, now + LIFETIME, false)]), true)
    case Validate(name, epoch, redeem, _, now) =>
      LookupMeaning(kept, name);
      var at := Lookup(kept, name);
      if at.None? then (kept, false)
      else
        var t := kept[at.value];
        if t.expires <= now || t.epoch != epoch then (kept[..at.value] + kept[at.value + 1..], false)
        else if redeem then
          if t.redeemed then (kept, false) else (kept[at.value := t.(redeemed := true)], true)
        else (kept, t.redeemed)
  }

  // ---- runs -------------------------------------------------------------------------------

  datatype Event = Event(op: Operation, ok: bool)

  datatype State = State(store: Store, clock: real, log: seq<Event>)

  /** An empty store at whatever the clock first reads. */
  function Start(clock: real): State {
    State([], clock, [])
  }

  /** The clock does not go back, and an issued name was never issued before. */
  predicate Legal(s: State, op: Operation) {
    && s.clock <= op.pruneAt <= op.now
    && (op.Issue? ==> forall i :: 0 <= i < |s.log| && s.log[i].op.Issue? ==> s.log[i].op.name != op.name)
  }

  function Next(s: State, op: Operation): State {
    var (store, ok) := Act(s.store, op);
    State(store, op.now, s.log + [Event(op, ok)])
  }

  function Run(start: real, ops: seq<Operation>): Option<State> {
    if ops == [] then Some(Start(start))
    else
      var before := Run(start, ops[..|ops| - 1]);
      if before.Some? && Legal(before.value, ops[|ops| - 1]) then Some(Next(before.value, ops[|ops| - 1])) else None
  }

  predicate Issued(log: seq<Event>, t: Token) {
    exists i :: 0 <= i < |log| && log[i].op.Issue? && log[i].op.name == t.name && log[i].op.epoch == t.epoch &&
                t.expires == log[i].op.now + LIFETIME
  }

  predicate Redeems(e: Event, name: string) {
    e.op.Validate? && e.op.redeem && e.ok && e.op.name == name
  }

  predicate Redeemed(log: seq<Event>, name: string, epoch: nat) {
    exists i :: 0 <= i < |log| && Redeems(log[i], name) && log[i].op.epoch == epoch
  }

  predicate NamesUnique(s: Store) {
    forall i, j :: 0 <= i < j < |s| ==> s[i].name != s[j].name
  }

  /** What one stored token says about the past. */
  predicate TokenOk(s: State, t: Token) {
    && t.expires <= s.clock + LIFETIME
    && Issued(s.log, t)
    && (t.redeemed ==> Redeemed(s.log, t.name, t.epoch))
    && (!t.redeemed ==> forall i :: 0 <= i < |s.log| ==> !Redeems(s.log[i], t.name))
  }

  predicate Valid(s: State) {
    && |s.store| <= MAX_TOKENS && NamesUnique(s.store)
    && (forall i :: 0 <= i < |s.store| ==> TokenOk(s, s.store[i]))
    && (forall i, j :: 0 <= i < j < |s.log| && Redeems(s.log[i], s.log[j].op.name) ==> !Redeems(s.log[j], s.log[j].op.name))
    && (forall i :: 0 <= i < |s.log| && s.log[i].op.Validate? && s.log[i].ok ==> Named(s.log, s.log[i].op.name))
  }

  predicate Named(log: seq<Event>, name: string) {
    exists i :: 0 <= i < |log| && log[i].op.Issue? && log[i].op.name == name
  }

  lemma {:induction false} PruneMeaning(s: Store, now: real)
    ensures |Prune(s, now)| <= |s| && (NamesUnique(s) ==> NamesUnique(Prune(s, now)))
    ensures forall i :: 0 <= i < |Prune(s, now)| ==> Prune(s, now)[i] in s && Prune(s, now)[i].expires > now
  {
    if s != [] {
      PruneMeaning(s[..|s| - 1], now);
      assert NamesUnique(s) ==> NamesUnique(s[..|s| - 1]);
    }
  }

  /** Adding one token to a store within the cap evicts at most one, never the newcomer if none outlives it. */
  lemma {:induction false} EvictOne(s: Store, t: Token)
    requires |s| <= MAX_TOKENS && forall i :: 0 <= i < |s| ==> s[i].expires <= t.expires
    ensures
      var e := Evict(s + [t]);
      && |e| <= MAX_TOKENS && e != [] && e[|e| - 1] == t
      && (forall i :: 0 <= i < |e| - 1 ==> e[i] in s)
      && (NamesUnique(s + [t]) ==> NamesUnique(e))
  {
    var grown := s + [t];
    if |grown| > MAX_TOKENS {
      var n := Nearest(grown);
      assert grown[0].expires <= t.expires;
      assert n < |s|;
      var cut := grown[..n] + grown[n + 1..];
      assert Evict(grown) == Evict(cut) == cut;
    }
  }

  /** A token keeps its meaning over an event that does not redeem it. */
  lemma {:induction false} TokenOkGrows(s: State, t: Token, store: Store, now: real, e: Event)
    requires TokenOk(s, t) && s.clock <= now && !Redeems(e, t.name)
    ensures TokenOk(State(store, now, s.log + [e]), t)
  {
    var log := s.log + [e];
    assert forall k :: 0 <= k < |s.log| ==> log[k] == s.log[k];
    var i :| 0 <= i < |s.log| && s.log[i].op.Issue? && s.log[i].op.name == t.name && s.log[i].op.epoch == t.epoch &&
             t.expires == s.log[i].op.now + LIFETIME;
    assert log[i].op.Issue?;
    if t.redeemed {
      var j :| 0 <= j < |s.log| && Redeems(s.log[j], t.name) && s.log[j].op.epoch == t.epoch;
      assert Redeems(log[j], t.name);
    }
  }

  lemma {:induction false} NamedGrows(log: seq<Event>, e: Event, name: string)
    requires Named(log, name)
    ensures Named(log + [e], name)
  {
    var i :| 0 <= i < |log| && log[i].op.Issue? && log[i].op.name == name;
    assert (log + [e])[i].op.Issue?;
  }

  /** The log's own facts survive one more event that is honest about redemption and about issued names. */
  lemma {:induction false} LogGrows(s: State, t: State, e: Event)
    requires Valid(s) && t.log == s.log + [e]
    requires Redeems(e, e.op.name) ==> forall i :: 0 <= i < |s.log| ==> !Redeems(s.log[i], e.op.name)
    requires e.op.Validate? && e.ok ==> Named(s.log, e.op.name)
    ensures forall i, j :: 0 <= i < j < |t.log| && Redeems(t.log[i], t.log[j].op.name) ==> !Redeems(t.log[j], t.log[j].op.name)
    ensures forall i :: 0 <= i < |t.log| && t.log[i].op.Validate? && t.log[i].ok ==> Named(t.log, t.log[i].op.name)
  {
    forall i | 0 <= i < |t.log| && t.log[i].op.Validate? && t.log[i].ok ensures Named(t.log, t.log[i].op.name) {
      NamedGrows(s.log, e, t.log[i].op.name);
    }
  }

  /** Every token a prune keeps stays meaningful over an event that redeems nothing. */
  lemma {:induction false} PrunedOk(s: State, pruneAt: real, store: Store, now: real, e: Event)
    requires Valid(s) && s.clock <= now && !(e.op.Validate? && e.ok)
    ensures forall t :: t in Prune(s.store, pruneAt) ==> t in s.store && TokenOk(State(store, now, s.log + [e]), t)
  {
    PruneMeaning(s.store, pruneAt);
    forall t | t in Prune(s.store, pruneAt) ensures t in s.store && TokenOk(State(store, now, s.log + [e]), t) {
      TokenOkGrows(s, t, store, now, e);
    }
  }

  /** A token issued under a name never issued before has never been redeemed. */
  lemma {:induction false} MintedOk(s: State, op: Operation, store: Store)
    requires Valid(s) && op.Issue? && Legal(s, op)
    ensures TokenOk(State(store, op.now, s.log + [Event(op, true)]), Token(op.name, op.epoch, op.now + LIFETIME, false))
  {
    var log := s.log + [Event(op, true)];
    assert log[|s.log|] == Event(op, true);
    assert !Named(s.log, op.name);
    assert forall i :: 0 <= i < |s.log| ==> !Redeems(s.log[i], op.name);
  }

  lemma {:induction false} FreshNotStored(s: State, op: Operation)
    requires Valid(s) && op.Issue? && Legal(s, op)
    ensures forall t :: t in s.store ==> t.name != op.name && t.expires <= op.now + LIFETIME
  {
    forall t | t in s.store ensures t.name != op.name && t.expires <= op.now + LIFETIME {
      var i :| 0 <= i < |s.store| && s.store[i] == t;
      assert TokenOk(s, s.store[i]);
      assert Issued(s.log, t);
    }
  }

  /** An issue keeps what the prune kept, less at most one evicted token, and puts the newcomer last. */
  lemma {:induction false} IssueStore(s: Store, op: Operation)
    requires op.Issue? && |s| <= MAX_TOKENS && NamesUnique(s)
    requires forall t :: t in s ==> t.name != op.name && t.expires <= op.now + LIFETIME
    ensures
      var after := Act(s, op).0;
      var minted := Token(op.name, op.epoch, op.now + LIFETIME, false);
      && NamesUnique(after) && |after| <= MAX_TOKENS && minted in after
      && forall t :: t in after ==> t == minted || t in Prune(s, op.pruneAt)
  {
    var kept, minted := Prune(s, op.pruneAt), Token(op.name, op.epoch, op.now + LIFETIME, false);
    PruneMeaning(s, op.pruneAt);
    IssueEvicts(s, op);
    assert forall i :: 0 <= i < |kept| ==> kept[i] in s;
    EvictedStore(kept, minted);
  }

  lemma {:induction false} EvictedStore(kept: Store, minted: Token)
    requires |kept| <= MAX_TOKENS && NamesUnique(kept)
    requires forall i :: 0 <= i < |kept| ==> kept[i].name != minted.name && kept[i].expires <= minted.expires
    ensures
      var after := Evict(kept + [minted]);
      && NamesUnique(after) && |after| <= MAX_TOKENS && minted in after
      && forall t :: t in after ==> t == minted || t in kept
  {
    EvictOne(kept, minted);
  }

  lemma {:induction false} IssueKept(s: State, op: Operation)
    requires Valid(s) && op.Issue? && Legal(s, op)
    ensures Valid(Next(s, op))
    ensures Token(op.name, op.epoch, op.now + LIFETIME, false) in Next(s, op).store
  {
    var t, e := Next(s, op), Event(op, true);
    FreshNotStored(s, op);
    IssueStore(s.store, op);
    PrunedOk(s, op.pruneAt, t.store, op.now, e);
    MintedOk(s, op, t.store);
    LogGrows(s, t, e);
  }

  /** The token a successful validation found. */
  lemma {:induction false} ValidateFound(s: State, op: Operation) returns (at: nat)
    requires Valid(s) && op.Validate? && Legal(s, op) && Act(s.store, op).1
    ensures
      var kept := Prune(s.store, op.pruneAt);
      && at < |kept| && kept[at].name == op.name && kept[at].epoch == op.epoch && op.now < kept[at].expires
      && TokenOk(s, kept[at]) && kept[at].redeemed == !op.redeem
      && Next(s, op).store == if op.redeem then kept[at := kept[at].(redeemed := true)] else kept
  {
    var kept := Prune(s.store, op.pruneAt);
    PruneMeaning(s.store, op.pruneAt);
    LookupMeaning(kept, op.name);
    at := Lookup(kept, op.name).value;
    assert kept[at] in s.store;
  }

  /** A refused validation keeps what the prune kept, less at most the token it refused. */
  lemma {:induction false} RefusedStore(s: Store, op: Operation)
    requires op.Validate? && !Act(s, op).1 && NamesUnique(s)
    ensures NamesUnique(Act(s, op).0) && |Act(s, op).0| <= |s|
    ensures forall t :: t in Act(s, op).0 ==> t in Prune(s, op.pruneAt)
  {
    var kept := Prune(s, op.pruneAt);
    PruneMeaning(s, op.pruneAt);
    LookupMeaning(kept, op.name);
    if Act(s, op).0 != kept {
      RemovedOne(kept, Lookup(kept, op.name).value);
    }
  }

  lemma {:induction false} RemovedOne(s: Store, at: nat)
    requires NamesUnique(s) && at < |s|
    ensures
      var r := s[..at] + s[at + 1..];
      NamesUnique(r) && |r| < |s| && forall t :: t in r ==> t in s
  {
  }

  lemma {:induction false} RefusedKept(s: State, op: Operation)
    requires Valid(s) && op.Validate? && Legal(s, op) && !Act(s.store, op).1
    ensures Valid(Next(s, op))
  {
    var t, e := Next(s, op), Event(op, false);
    RefusedStore(s.store, op);
    PrunedOk(s, op.pruneAt, t.store, op.now, e);
    LogGrows(s, t, e);
  }

  lemma {:induction false} AcceptedKept(s: State, op: Operation)
    requires Valid(s) && op.Validate? && Legal(s, op) && Act(s.store, op).1
    ensures Valid(Next(s, op))
  {
    var t, e := Next(s, op), Event(op, true);
    var kept := Prune(s.store, op.pruneAt);
    PruneMeaning(s.store, op.pruneAt);
    var at := ValidateFound(s, op);
    IssuedNamed(s.log, kept[at]);
    LogGrows(s, t, e);
    forall i | 0 <= i < |t.store| ensures TokenOk(t, t.store[i]) {
      assert kept[i] in s.store && TokenOk(s, kept[i]);
      if op.redeem && i == at {
        RedeemedOk(s, kept[i], op, t.store);
      } else {
        TokenOkGrows(s, kept[i], t.store, op.now, e);
      }
    }
  }

  /** A token redeemed for its own epoch says so, and so does the log. */
  lemma {:induction false} RedeemedOk(s: State, t: Token, op: Operation, store: Store)
    requires TokenOk(s, t) && op.Validate? && op.redeem && op.name == t.name && op.epoch == t.epoch && s.clock <= op.now
    ensures TokenOk(State(store, op.now, s.log + [Event(op, true)]), t.(redeemed := true))
  {
    var log := s.log + [Event(op, true)];
    assert Redeems(log[|s.log|], t.name);
    var j :| 0 <= j < |s.log| && s.log[j].op.Issue? && s.log[j].op.name == t.name && s.log[j].op.epoch == t.epoch &&
             t.expires == s.log[j].op.now + LIFETIME;
    assert log[j] == s.log[j];
  }

  lemma {:induction false} IssuedNamed(log: seq<Event>, t: Token)
    requires Issued(log, t)
    ensures Named(log, t.name)
  {
  }

  lemma {:induction false} RunValid(start: real, ops: seq<Operation>)
    requires Run(start, ops).Some?
    ensures Valid(Run(start, ops).value)
  {
    if ops != [] {
      RunValid(start, ops[..|ops| - 1]);
      var s, op := Run(start, ops[..|ops| - 1]).value, ops[|ops| - 1];
      if op.Issue? {
        IssueKept(s, op);
      } else if Act(s.store, op).1 {
        AcceptedKept(s, op);
      } else {
        RefusedKept(s, op);
      }
    }
  }

  /** The gate theorem: over any run with fresh names and a clock that does not go back, the store never exceeds
      its cap, an issued token survives its own issue, and no token is redeemed twice. */
  lemma {:induction false} GateTheorem(start: real, ops: seq<Operation>)
    requires Run(start, ops).Some?
    ensures
      var s := Run(start, ops).value;
      && |s.store| <= MAX_TOKENS
      && (ops != [] && ops[|ops| - 1].Issue? ==>
            var op := ops[|ops| - 1];
            Token(op.name, op.epoch, op.now + LIFETIME, false) in s.store)
      && (forall i, j, name :: 0 <= i < j < |s.log| && Redeems(s.log[i], name) ==> !Redeems(s.log[j], name))
  {
    RunValid(start, ops);
    if ops != [] && ops[|ops| - 1].Issue? {
      RunValid(start, ops[..|ops| - 1]);
      IssueKept(Run(start, ops[..|ops| - 1]).value, ops[|ops| - 1]);
    }
  }

  /** A validation that does not redeem succeeds only after a redemption of that token for the same epoch, and
      within the lifetime counted from its issue for that epoch. */
  lemma {:induction false} PatchTheorem(start: real, ops: seq<Operation>, op: Operation)
    requires Run(start, ops).Some? && Legal(Run(start, ops).value, op) && op.Validate? && !op.redeem
    requires Act(Run(start, ops).value.store, op).1
    ensures Redeemed(Run(start, ops).value.log, op.name, op.epoch)
    ensures
      var log := Run(start, ops).value.log;
      exists i :: 0 <= i < |log| && log[i].op.Issue? && log[i].op.name == op.name && log[i].op.epoch == op.epoch &&
                  op.now < log[i].op.now + LIFETIME
  {
    RunValid(start, ops);
    var at := ValidateFound(Run(start, ops).value, op);
  }

  /** The stored token a validation needs: that name and epoch, unexpired, and redeemed exactly if it is not
      to be redeemed now. */
  predicate Usable(t: Token, op: Operation)
    requires op.Validate?
  {
    t.name == op.name && t.epoch == op.epoch && op.now < t.expires && t.redeemed == !op.redeem
  }

  lemma {:induction false} PruneKeepsLive(s: Store, now: real, t: Token)
    requires t in s && now < t.expires
    ensures t in Prune(s, now)
  {
    if t in s[..|s| - 1] {
      PruneKeepsLive(s[..|s| - 1], now, t);
    }
  }

  lemma {:induction false} AcceptsUsable(s: Store, op: Operation, t: Token)
    requires op.Validate? && op.pruneAt <= op.now && NamesUnique(s) && t in s && Usable(t, op)
    ensures Act(s, op).1
  {
    PruneMeaning(s, op.pruneAt);
    PruneKeepsLive(s, op.pruneAt, t);
    OneHolder(Prune(s, op.pruneAt), t, op.name);
  }

  /** After a removal at its only index no token has the name. */
  lemma {:induction false} RemovedHolder(s: Store, at: nat)
    requires NamesUnique(s) && at < |s|
    ensures forall u :: u in s[..at] + s[at + 1..] ==> u.name != s[at].name
  {
  }

  lemma {:induction false} WrongEpochBurns(s: Store, op: Operation, t: Token)
    requires op.Validate? && NamesUnique(s) && t in s && t.name == op.name && t.epoch != op.epoch
    ensures forall u :: u in Act(s, op).0 ==> u.name != op.name
  {
    var kept := Prune(s, op.pruneAt);
    PruneMeaning(s, op.pruneAt);
    LookupMeaning(kept, op.name);
    OneHolder(s, t, op.name);
    if Lookup(kept, op.name).Some? {
      var at := Lookup(kept, op.name).value;
      assert kept[at] == t;
      RemovedHolder(kept, at);
      assert Act(s, op).0 == kept[..at] + kept[at + 1..];
    }
  }

  /** In every reachable state a validation succeeds if and only if such a token is stored, and one that names a
      token for another epoch burns it. */
  lemma {:induction false} ValidateExactly(start: real, ops: seq<Operation>, op: Operation)
    requires Run(start, ops).Some? && Legal(Run(start, ops).value, op) && op.Validate?
    ensures
      var s := Run(start, ops).value;
      && (Act(s.store, op).1 <==> exists t :: t in s.store && Usable(t, op))
      && ((exists t :: t in s.store && t.name == op.name && t.epoch != op.epoch) ==>
            forall t :: t in Act(s.store, op).0 ==> t.name != op.name)
  {
    var s := Run(start, ops).value;
    RunValid(start, ops);
    if t :| t in s.store && Usable(t, op) {
      AcceptsUsable(s.store, op, t);
    } else if Act(s.store, op).1 {
      var at := ValidateFound(s, op);
      PruneMeaning(s.store, op.pruneAt);
      assert Usable(Prune(s.store, op.pruneAt)[at], op);
    }
    if t :| t in s.store && t.name == op.name && t.epoch != op.epoch {
      WrongEpochBurns(s.store, op, t);
    }
  }

  /** A prune keeps exactly the tokens that have not expired. */
  lemma {:induction false} PruneExactly(s: Store, now: real, t: Token)
    ensures t in Prune(s, now) <==> t in s && now < t.expires
  {
    PruneMeaning(s, now);
    if t in s && now < t.expires {
      PruneKeepsLive(s, now, t);
    }
  }

  lemma {:induction false} CutOne(s: Store, n: nat)
    requires n < |s|
    ensures multiset(s[..n] + s[n + 1..]) == multiset(s) - multiset{s[n]}
  {
    assert s == s[..n] + [s[n]] + s[n + 1..];
  }

  /** One token too many costs the store one of nearest expiry; otherwise nothing goes. */
  lemma {:induction false} EvictSurvivors(grown: Store) returns (victim: Option<Token>)
    requires |grown| <= MAX_TOKENS + 1
    ensures victim.Some? <==> |grown| == MAX_TOKENS + 1
    ensures victim.None? ==> Evict(grown) == grown
    ensures victim.Some? ==> multiset(Evict(grown)) == multiset(grown) - multiset{victim.value}
    ensures victim.Some? ==> victim.value in grown && forall t :: t in grown ==> victim.value.expires <= t.expires
  {
    victim := None;
    if |grown| > MAX_TOKENS {
      var n := Nearest(grown);
      victim := Some(grown[n]);
      CutOne(grown, n);
      assert Evict(grown) == Evict(grown[..n] + grown[n + 1..]) == grown[..n] + grown[n + 1..];
    }
  }

  /** The unexpired tokens and the newcomer. */
  function Grown(s: Store, op: Operation): Store
    requires op.Issue?
  {
    Prune(s, op.pruneAt) + [Token(op.name, op.epoch, op.now + LIFETIME, false)]
  }

  lemma {:induction false} IssueEvicts(s: Store, op: Operation)
    requires op.Issue? && |s| <= MAX_TOKENS
    ensures Act(s, op).0 == Evict(Grown(s, op)) && |Grown(s, op)| <= MAX_TOKENS + 1
  {
    PruneMeaning(s, op.pruneAt);
  }

  /** What an issue leaves: every unexpired token and the newcomer, less one token of nearest expiry exactly when that
      is one too many. */
  lemma {:induction false} IssueSurvivors(s: Store, op: Operation) returns (victim: Option<Token>)
    requires op.Issue? && |s| <= MAX_TOKENS
    ensures victim.Some? <==> |Grown(s, op)| == MAX_TOKENS + 1
    ensures victim.None? ==> Act(s, op).0 == Grown(s, op)
    ensures victim.Some? ==> multiset(Act(s, op).0) == multiset(Grown(s, op)) - multiset{victim.value}
    ensures victim.Some? ==> victim.value in Grown(s, op) && forall t :: t in Grown(s, op) ==> victim.value.expires <= t.expires
  {
    IssueEvicts(s, op);
    victim := EvictSurvivors(Grown(s, op));
  }

  lemma {:induction false} UpdateKeeps(s: Store, at: nat, t: Token, u: Token)
    requires at < |s| && t in s && t != s[at]
    ensures t in s[at := u] && t in s[..at] + s[at + 1..]
  {
    var i :| 0 <= i < |s| && s[i] == t;
    assert s[at := u][i] == t;
    if i < at {
      assert (s[..at] + s[at + 1..])[i] == t;
    } else {
      assert (s[..at] + s[at + 1..])[i - 1] == t;
    }
  }

  lemma {:induction false} ValidateKeepsOthers(s: Store, op: Operation, t: Token)
    requires op.Validate? && t in s && op.pruneAt < t.expires && t.name != op.name
    ensures t in Act(s, op).0
  {
    var kept := Prune(s, op.pruneAt);
    PruneKeepsLive(s, op.pruneAt, t);
    LookupMeaning(kept, op.name);
    var at := Lookup(kept, op.name);
    if at.Some? {
      UpdateKeeps(kept, at.value, t, kept[at.value].(redeemed := true));
    }
  }

  /** What a validation leaves: every other unexpired token as it was, and the token itself, marked if it was redeemed
      just now, unless it had expired or belonged to another epoch. A repeated redemption takes nothing. */
  lemma {:induction false} ValidateKeeps(s: Store, op: Operation, t: Token)
    requires op.Validate? && NamesUnique(s) && t in s && op.pruneAt < t.expires
    ensures t.name != op.name ==> t in Act(s, op).0
    ensures t.name == op.name && t.epoch == op.epoch && op.now < t.expires ==>
              (if op.redeem && !t.redeemed then t.(redeemed := true) else t) in Act(s, op).0
  {
    if t.name != op.name {
      ValidateKeepsOthers(s, op, t);
    } else if t.epoch == op.epoch && op.now < t.expires {
      var kept := Prune(s, op.pruneAt);
      PruneMeaning(s, op.pruneAt);
      PruneKeepsLive(s, op.pruneAt, t);
      OneHolder(kept, t, op.name);
      var at := Lookup(kept, op.name).value;
      if op.redeem && !t.redeemed {
        assert Act(s, op).0 == kept[at := t.(redeemed := true)];
        assert kept[at := t.(redeemed := true)][at] == t.(redeemed := true);
      } else {
        assert Act(s, op).0 == kept;
      }
    }
  }

  /** Only one stored token has a given name. */
  lemma {:induction false} OneHolder(s: Store, t: Token, name: string)
    requires NamesUnique(s) && t in s && t.name == name
    ensures forall u :: u in s && u.name == name ==> u == t
    ensures Lookup(s, name).Some? && Lookup(s, name).value < |s| && s[Lookup(s, name).value] == t
  {
    LookupMeaning(s, name);
    var i :| 0 <= i < |s| && s[i] == t;
    forall u | u in s && u.name == name ensures u == t {
      var j :| 0 <= j < |s| && s[j] == u;
      assert i == j;
    }
  }

  // ---- the gate ---------------------------------------------------------------------------

  class Gate {
    var tokens: Store

    constructor ()
      ensures tokens == []
    {
      tokens := [];
    }

    method PruneTokens(now: real)
      modifies this
      ensures tokens == Prune(old(tokens), now)
    {
      var kept := [];
      var i := 0;
      while i < |tokens|
        invariant 0 <= i <= |tokens| && tokens == old(tokens) && kept == Prune(tokens[..i], now)
      {
        assert tokens[..i + 1][..i] == tokens[..i];
        if !(tokens[i].expires <= now) {
          kept := kept + [tokens[i]];
        }
        i := i + 1;
      }
      assert tokens[..i] == tokens;
      tokens := kept;
    }

    method IssueToken(name: string, epoch: nat, pruneAt: real, now: real)
      modifies this
      ensures tokens == Act(old(tokens), Issue(name, epoch, pruneAt, now)).0
    {
      PruneTokens(pruneAt);
      tokens := tokens + [Token(name, epoch, now + LIFETIME, false)];
      ghost var grown := tokens;
      while |tokens| > MAX_TOKENS
        invariant Evict(tokens) == Evict(grown)
        decreases |tokens|
      {
        var oldest := Nearest(tokens);
        tokens := tokens[..oldest] + tokens[oldest + 1..];
      }
    }

    method ValidateToken(name: string, epoch: nat, redeem: bool, pruneAt: real, now: real) returns (ok: bool)
      modifies this
      ensures (tokens, ok) == Act(old(tokens), Validate(name, epoch, redeem, pruneAt, now))
    {
      PruneTokens(pruneAt);
      LookupMeaning(tokens, name);
      var at := Lookup(tokens, name);
      if at.None? {
        return false;
      }
      var t := tokens[at.value];
      if t.expires <= now || t.epoch != epoch {
        tokens := tokens[..at.value] + tokens[at.value + 1..];
        return false;
      }
      if redeem {
        if t.redeemed {
          return false;
        }
        tokens := tokens[at.value := t.(redeemed := true)];
        return true;
      }
      return t.redeemed;
    }
  }
}
