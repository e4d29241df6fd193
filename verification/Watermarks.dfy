/**
 The process-wide table of snapshot watermarks behind the per-session monotonicity check: bounded,
 least-recently-watermarked entry evicted first.
 */
module Watermarks {

  const MAX_WATERMARK_SESSIONS := 256

  datatype Entry = Entry(session: string, highest: nat)

  /** Oldest first, as the ordered dictionary holds them. */
  type Table = seq<Entry>

  predicate Holds(t: Table, session: string) {
    exists i :: 0 <= i < |t| && t[i].session == session
  }

  predicate Distinct(t: Table) {
    forall i, j :: 0 <= i < j < |t| ==> t[i].session != t[j].session
  }

  /** The check refuses a sequence below the one the session's entry holds. */
  predicate Accepts(t: Table, session: string, sequence: nat) {
    forall i :: 0 <= i < |t| && t[i].session == session ==> t[i].highest <= sequence
  }

  function Without(t: Table, session: string): Table {
    if t == [] then [] else
      Without(t[..|t| - 1], session) + if t[|t| - 1].session == session then [] else [t[|t| - 1]]
  }

  function Trim(t: Table): Table {
    if |t| <= MAX_WATERMARK_SESSIONS then t else t[|t| - MAX_WATERMARK_SESSIONS..]
  }

  datatype Operation = Validate(session: string, sequence: nat) | Reset(session: string)

  function Step(t: Table, op: Operation): Table {
    match op
    case Reset(session) => Without(t, session)
    case Validate(session, n) =>
      if Accepts(t, session, n) then Trim(Without(t, session) + [Entry(session, n)]) else t
  }

  function Run(t: Table, ops: seq<Operation>): Table {
    if ops == [] then t else Step(Run(t, ops[..|ops| - 1]), ops[|ops| - 1])
  }

  /** Removal takes the session's entries and nothing else, and never creates a duplicate. */
  lemma {:induction false} WithoutMembers(t: Table, session: string)
    ensures |Without(t, session)| <= |t|
    ensures forall i :: 0 <= i < |Without(t, session)| ==>
              Without(t, session)[i] in t && Without(t, session)[i].session != session
    ensures Distinct(t) ==> Distinct(Without(t, session))
  {
    if t != [] {
      WithoutMembers(t[..|t| - 1], session);
      assert Distinct(t) ==> Distinct(t[..|t| - 1]);
    }
  }

  /** An absent session costs nothing; a present one costs exactly its entry. */
  lemma {:induction false} WithoutAbsent(t: Table, session: string)
    requires !Holds(t, session)
    ensures Without(t, session) == t
  {
    if t != [] {
      var front := t[..|t| - 1];
      forall i | 0 <= i < |front| ensures front[i].session != session {
        assert t[i].session != session;
      }
      WithoutAbsent(t[..|t| - 1], session);
      assert t[|t| - 1].session != session;
    }
  }

  lemma {:induction false} WithoutSplit(a: Table, b: Table, session: string)
    ensures Without(a + b, session) == Without(a, session) + Without(b, session)
  {
    if b == [] {
      assert a + b == a;
    } else {
      WithoutSplit(a, b[..|b| - 1], session);
      assert (a + b)[..|a + b| - 1] == a + b[..|b| - 1];
    }
  }

  /** Over any operations the table stays bounded and holds one entry per session. */
  lemma {:induction false} Bounded(ops: seq<Operation>)
    ensures |Run([], ops)| <= MAX_WATERMARK_SESSIONS && Distinct(Run([], ops))
  {
    if ops != [] {
      Bounded(ops[..|ops| - 1]);
      var t, op := Run([], ops[..|ops| - 1]), ops[|ops| - 1];
      WithoutMembers(t, op.session);
    }
  }

  /** Every entry is the sequence of some earlier accepted snapshot of its session. */
  lemma {:induction false} EntriesAreSnapshots(ops: seq<Operation>, e: Entry)
    requires e in Run([], ops)
    ensures Validate(e.session, e.highest) in ops
  {
    if ops != [] {
      var t, op := Run([], ops[..|ops| - 1]), ops[|ops| - 1];
      if e in t {
        EntriesAreSnapshots(ops[..|ops| - 1], e);
        assert forall o :: o in ops[..|ops| - 1] ==> o in ops;
      } else {
        WithoutMembers(t, op.session);
        assert op.Validate? && Accepts(t, op.session, op.sequence);
        assert e in Without(t, op.session) + [Entry(op.session, op.sequence)];
      }
    }
  }

  /** A session whose snapshot sequences never go down is never refused, whatever other sessions, resets
      and evictions come in between. */
  lemma {:induction false} MonotoneSessionNeverRefused(ops: seq<Operation>, session: string, sequence: nat)
    requires forall n: nat :: Validate(session, n) in ops ==> n <= sequence
    ensures Accepts(Run([], ops), session, sequence)
  {
    var t := Run([], ops);
    forall i | 0 <= i < |t| && t[i].session == session ensures t[i].highest <= sequence {
      EntriesAreSnapshots(ops, t[i]);
    }
  }

  /** After a reset the session is accepted at any sequence, and every other session is judged as before. */
  lemma {:induction false} ResetForgets(t: Table, session: string, other: string, sequence: nat)
    ensures Accepts(Step(t, Reset(session)), session, sequence)
    ensures other != session ==> (Accepts(Step(t, Reset(session)), other, sequence) <==> Accepts(t, other, sequence))
  {
    WithoutMembers(t, session);
    if other != session {
      forall e | e in t && e.session == other ensures e in Without(t, session) {
        WithoutKeeps(t, session, e);
      }
    }
  }

  lemma {:induction false} WithoutKeeps(t: Table, session: string, e: Entry)
    requires e in t && e.session != session
    ensures e in Without(t, session)
  {
    if e in t[..|t| - 1] {
      WithoutKeeps(t[..|t| - 1], session, e);
    }
  }

  function Sessions(ops: seq<Operation>): set<string> {
    set o | o in ops :: o.session
  }

  /** The sessions other than `session` that the operations name. */
  function Others(ops: seq<Operation>, session: string): set<string> {
    Sessions(ops) - {session}
  }

  function SessionsOf(t: Table): set<string> {
    set e | e in t :: e.session
  }

  lemma {:induction false} DistinctCount(t: Table)
    requires Distinct(t)
    ensures |SessionsOf(t)| == |t|
  {
    if t != [] {
      var front, last := t[..|t| - 1], t[|t| - 1];
      DistinctCount(front);
      assert SessionsOf(t) == SessionsOf(front) + {last.session};
      assert last.session !in SessionsOf(front);
    }
  }

  lemma {:induction false} SubsetSize(a: set<string>, b: set<string>)
    requires a <= b
    ensures |a| <= |b|
  {
    assert b == a + (b - a);
  }

  /** `session`'s entry is still there, at `sequence` or above, and everything younger belongs to `others`. */
  predicate StillThere(t: Table, session: string, sequence: nat, others: set<string>, at: int) {
    && 0 <= at < |t| && t[at].session == session && sequence <= t[at].highest
    && forall i :: at < i < |t| ==> t[i].session in others
  }

  /** Removal of another session's entries around ours. */
  lemma {:induction false} RemovalAround(a: Table, mine: Entry, b: Table, other: string)
    requires mine.session != other
    ensures Without(a + [mine] + b, other) == Without(a, other) + [mine] + Without(b, other)
  {
    WithoutSplit(a + [mine], b, other);
    WithoutSplit(a, [mine], other);
    WithoutAbsent([mine], other);
  }

  /** Dropping another session's entry keeps ours and what is younger. */
  lemma {:induction false} RemovalKeeps(t: Table, session: string, sequence: nat, others: set<string>, at: int, other: string) returns (at': int)
    requires Distinct(t) && StillThere(t, session, sequence, others, at) && other != session
    ensures Distinct(Without(t, other)) && StillThere(Without(t, other), session, sequence, others, at')
  {
    var a, mine, b := t[..at], t[at], t[at + 1..];
    assert t == a + [mine] + b;
    RemovalAround(a, mine, b, other);
    WithoutMembers(t, other);
    WithoutMembers(b, other);
    at' := |Without(a, other)|;
    YoungerIn(Without(a, other) + [mine], Without(b, other), b, others);
  }

  lemma {:induction false} YoungerIn(older: Table, kept: Table, b: Table, others: set<string>)
    requires (forall i :: 0 <= i < |kept| ==> kept[i] in b) && forall i :: 0 <= i < |b| ==> b[i].session in others
    ensures forall i :: |older| <= i < |older + kept| ==> (older + kept)[i].session in others
  {
    forall i | |older| <= i < |older + kept| ensures (older + kept)[i].session in others {
      assert (older + kept)[i] == kept[i - |older|];
      assert kept[i - |older|] in b;
    }
  }

  /** A table in which fewer than the cap are younger than ours can be trimmed without losing it. */
  lemma {:induction false} TrimKeeps(t: Table, session: string, sequence: nat, others: set<string>, at: int) returns (at': int)
    requires Distinct(t) && StillThere(t, session, sequence, others, at) && |others| < MAX_WATERMARK_SESSIONS
    ensures Distinct(Trim(t)) && StillThere(Trim(t), session, sequence, others, at')
  {
    var younger := t[at + 1..];
    DistinctCount(younger);
    forall x | x in SessionsOf(younger) ensures x in others {
      var e :| e in younger && e.session == x;
      var i :| 0 <= i < |younger| && younger[i] == e;
      assert t[at + 1 + i] == e;
    }
    SubsetSize(SessionsOf(younger), others);
    at' := if |t| > MAX_WATERMARK_SESSIONS then at - (|t| - MAX_WATERMARK_SESSIONS) else at;
  }

  lemma {:induction false} EvictionReaches(t: Table, session: string, sequence: nat, others: set<string>, at: int, op: Operation) returns (at': int)
    requires Distinct(t) && StillThere(t, session, sequence, others, at)
    requires op.session != session && op.session in others && |others| < MAX_WATERMARK_SESSIONS
    ensures Distinct(Step(t, op)) && StillThere(Step(t, op), session, sequence, others, at')
  {
    at' := RemovalKeeps(t, session, sequence, others, at, op.session);
    if op.Validate? {
      if Accepts(t, op.session, op.sequence) {
        var kept := Without(t, op.session);
        WithoutMembers(t, op.session);
        at' := TrimKeeps(kept + [Entry(op.session, op.sequence)], session, sequence, others, at');
      } else {
        at' := at;
      }
    }
  }

  /** The session's own next snapshot is refused, or moves its entry to the end at a sequence no lower. */
  lemma {:induction false} OwnSnapshotKeeps(t: Table, session: string, sequence: nat, others: set<string>, at: int, n: nat) returns (at': int)
    requires Distinct(t) && StillThere(t, session, sequence, others, at)
    ensures Distinct(Step(t, Validate(session, n))) && StillThere(Step(t, Validate(session, n)), session, sequence, others, at')
  {
    at' := at;
    if Accepts(t, session, n) {
      WithoutMembers(t, session);
      at' := |Step(t, Validate(session, n))| - 1;
    }
  }

  /** A session's watermark survives until it is reset or as many other sessions as the table holds have been
      named, whatever snapshots of its own come in between: until then a lower sequence is refused. */
  lemma {:induction false} WatermarkRetained(t: Table, session: string, sequence: nat, ops: seq<Operation>, lower: nat)
    requires Distinct(t) && Accepts(t, session, sequence) && lower < sequence
    requires Reset(session) !in ops && |Others(ops, session)| < MAX_WATERMARK_SESSIONS
    ensures !Accepts(Run(Step(t, Validate(session, sequence)), ops), session, lower)
  {
    var at := RetainedAt(t, session, sequence, ops);
  }

  lemma {:induction false} OthersGrow(ops: seq<Operation>, session: string)
    requires ops != []
    ensures Others(ops[..|ops| - 1], session) <= Others(ops, session)
    ensures |Others(ops[..|ops| - 1], session)| <= |Others(ops, session)|
  {
    assert forall o :: o in ops[..|ops| - 1] ==> o in ops;
    SubsetSize(Others(ops[..|ops| - 1], session), Others(ops, session));
  }

  lemma {:induction false} RetainedAt(t: Table, session: string, sequence: nat, ops: seq<Operation>) returns (at: int)
    requires Distinct(t) && Accepts(t, session, sequence)
    requires Reset(session) !in ops && |Others(ops, session)| < MAX_WATERMARK_SESSIONS
    ensures
      var u := Run(Step(t, Validate(session, sequence)), ops);
      Distinct(u) && StillThere(u, session, sequence, Others(ops, session), at)
  {
    var first := Step(t, Validate(session, sequence));
    if ops == [] {
      WithoutMembers(t, session);
      at := |first| - 1;
    } else {
      var front, op := ops[..|ops| - 1], ops[|ops| - 1];
      OthersGrow(ops, session);
      at := RetainedAt(t, session, sequence, front);
      assert op in ops;
      if op.session == session {
        at := OwnSnapshotKeeps(Run(first, front), session, sequence, Others(ops, session), at, op.sequence);
      } else {
        at := EvictionReaches(Run(first, front), session, sequence, Others(ops, session), at, op);
      }
    }
  }

  /** The table as the validator updates it. */
  class WatermarkTable {
    var entries: Table

    constructor ()
      ensures entries == []
    {
      entries := [];
    }

    method ResetMonotonicity(session: string)
      modifies this
      ensures entries == Step(old(entries), Reset(session))
    {
      entries := Without(entries, session);
    }

    /** False is the validator's error; it leaves the table alone. */
    method ValidateSnapshot(session: string, sequence: nat) returns (ok: bool)
      modifies this
      ensures ok == Accepts(old(entries), session, sequence)
      ensures entries == Step(old(entries), Validate(session, sequence))
    {
      if exists i :: 0 <= i < |entries| && entries[i].session == session && sequence < entries[i].highest {
        return false;
      }
      entries := Without(entries, session) + [Entry(session, sequence)];
      ghost var grown := entries;
      ghost var dropped := 0;
      while |entries| > MAX_WATERMARK_SESSIONS
        invariant 0 <= dropped <= |grown| && entries == grown[dropped..]
        invariant dropped > 0 ==> |entries| >= MAX_WATERMARK_SESSIONS
      {
        entries := entries[1..];
        dropped := dropped + 1;
      }
      ok := true;
    }
  }
}
