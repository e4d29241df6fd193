/** Votes over repeated measurements: plurality with a tie-break, strict majority for the clean value, and means. */
module Voting {
  import opened Base

  /** No value was seen more often. */
  predicate IsMode<T(==)>(values: seq<T>, v: T) {
    v in values && forall w :: w in values ==> multiset(values)[w] <= multiset(values)[v]
  }

  function FirstMode<T(==)>(candidates: seq<T>, values: seq<T>): Option<T> {
    if candidates == [] then None
    else if IsMode(values, candidates[0]) then Some(candidates[0])
    else FirstMode(candidates[1..], values)
  }

  function FirstOther<T(==)>(candidates: seq<T>, values: seq<T>, clean: T): Option<T> {
    if candidates == [] then None
    else if candidates[0] != clean && candidates[0] in values then Some(candidates[0])
    else FirstOther(candidates[1..], values, clean)
  }

  lemma {:induction false} FirstModeMeaning<T>(candidates: seq<T>, values: seq<T>)
    ensures FirstMode(candidates, values).Some? ==>
              IsMode(values, FirstMode(candidates, values).value) && FirstMode(candidates, values).value in candidates
    ensures FirstMode(candidates, values).None? ==> forall c :: c in candidates ==> !IsMode(values, c)
  {
    if candidates != [] && !IsMode(values, candidates[0]) {
      FirstModeMeaning(candidates[1..], values);
    }
  }

  lemma {:induction false} FirstOtherMeaning<T>(candidates: seq<T>, values: seq<T>, clean: T)
    ensures FirstOther(candidates, values, clean).Some? ==>
              FirstOther(candidates, values, clean).value != clean && FirstOther(candidates, values, clean).value in values
    ensures FirstOther(candidates, values, clean).None? ==> forall c :: c in candidates && c in values ==> c == clean
  {
    if candidates != [] && !(candidates[0] != clean && candidates[0] in values) {
      FirstOtherMeaning(candidates[1..], values, clean);
    }
  }

  /** The most frequent of the first `n` values, looked for among them. */
  lemma {:induction false} ModeAmong<T>(values: seq<T>, n: nat) returns (v: T)
    requires 0 < n <= |values|
    ensures v in values && forall i :: 0 <= i < n ==> multiset(values)[values[i]] <= multiset(values)[v]
  {
    if n == 1 {
      v := values[0];
    } else {
      v := ModeAmong(values, n - 1);
      if multiset(values)[v] < multiset(values)[values[n - 1]] {
        v := values[n - 1];
      }
    }
  }

  lemma {:induction false} ModeExists<T>(values: seq<T>)
    requires values != []
    ensures FirstMode(values, values).Some?
  {
    var v := ModeAmong(values, |values|);
    assert IsMode(values, v);
    FirstModeMeaning(values, values);
  }

  /** The mode, ties resolved by `priority`; `clean` must win more than half, or the worst other value seen
      wins. A mode missing from `priority` altogether falls back to the first one seen. */
  function Vote<T(==)>(values: seq<T>, priority: seq<T>, clean: T): T
    requires values != []
  {
    var ranked := FirstMode(priority, values);
    ModeExists(values);
    var winner := if ranked.Some? then ranked.value else FirstMode(values, values).value;
    if winner == clean && multiset(values)[clean] * 2 <= |values| then
      var other := FirstOther(priority, values, clean);
      if other.Some? then other.value else winner
    else winner
  }

  lemma {:induction false} TwoCounts<T>(values: seq<T>, a: T, b: T)
    requires a != b
    ensures multiset(values)[a] + multiset(values)[b] <= |values|
  {
    if values != [] {
      TwoCounts(values[..|values| - 1], a, b);
      assert values == values[..|values| - 1] + [values[|values| - 1]];
    }
  }

  lemma {:induction false} AllEqualCount<T>(values: seq<T>, a: T)
    requires forall v :: v in values ==> v == a
    ensures multiset(values)[a] == |values|
  {
    if values != [] {
      var front := values[..|values| - 1];
      assert (forall v :: v in front ==> v in values) && values[|values| - 1] in values;
      AllEqualCount(front, a);
      assert values == front + [values[|values| - 1]];
    }
  }

  /** The vote theorem: with a complete priority list the vote is observed, and it is the clean value exactly
      when that value holds a strict majority. */
  lemma {:induction false} VoteTheorem<T>(values: seq<T>, priority: seq<T>, clean: T)
    requires values != [] && forall v :: v in values ==> v in priority
    ensures Vote(values, priority, clean) in values
    ensures Vote(values, priority, clean) == clean <==> multiset(values)[clean] * 2 > |values|
  {
    ModeExists(values);
    FirstModeMeaning(values, values);
    FirstModeMeaning(priority, values);
    FirstOtherMeaning(priority, values, clean);
    var ranked := FirstMode(priority, values);
    assert ranked.Some? by {
      assert FirstMode(values, values).value in priority;
    }
    if multiset(values)[clean] * 2 > |values| {
      assert clean in values;
      if ranked.value != clean {
        TwoCounts(values, clean, ranked.value);
        assert false;
      }
    } else if ranked.value == clean && FirstOther(priority, values, clean).None? {
      AllEqualCount(values, clean);
    }
  }

  /** Position of the winning candidate: no mode comes before it. */
  lemma {:induction false} FirstModeAt<T>(candidates: seq<T>, values: seq<T>) returns (at: nat)
    requires FirstMode(candidates, values).Some?
    ensures at < |candidates| && candidates[at] == FirstMode(candidates, values).value
    ensures forall q :: 0 <= q < at ==> !IsMode(values, candidates[q])
  {
    if IsMode(values, candidates[0]) {
      at := 0;
    } else {
      var rest := FirstModeAt(candidates[1..], values);
      at := rest + 1;
      assert forall q :: 0 < q < at ==> candidates[q] == candidates[1..][q - 1];
    }
  }

  lemma {:induction false} FirstOtherAt<T>(candidates: seq<T>, values: seq<T>, clean: T) returns (at: nat)
    requires FirstOther(candidates, values, clean).Some?
    ensures at < |candidates| && candidates[at] == FirstOther(candidates, values, clean).value
    ensures forall q :: 0 <= q < at ==> candidates[q] == clean || candidates[q] !in values
  {
    if candidates[0] != clean && candidates[0] in values {
      at := 0;
    } else {
      var rest := FirstOtherAt(candidates[1..], values, clean);
      at := rest + 1;
      assert forall q :: 0 < q < at ==> candidates[q] == candidates[1..][q - 1];
    }
  }

  /** The first mode in `priority` wins. */
  predicate WinsTie<T(==)>(values: seq<T>, priority: seq<T>, at: nat)
    requires at < |priority|
  {
    IsMode(values, priority[at]) && forall q :: 0 <= q < at ==> !IsMode(values, priority[q])
  }

  /** No other value seen ranks before it. */
  predicate WorstSeen<T(==)>(values: seq<T>, priority: seq<T>, clean: T, at: nat)
    requires at < |priority|
  {
    priority[at] in values && forall q :: 0 <= q < at ==> priority[q] == clean || priority[q] !in values
  }

  /** Which value a vote that is not clean names: the worst of the modes, or, when the clean value led without a
      majority, the worst value seen. */
  lemma {:induction false} VoteTiebreak<T>(values: seq<T>, priority: seq<T>, clean: T)
    requires values != [] && (forall v :: v in values ==> v in priority) && Vote(values, priority, clean) != clean
    ensures exists at :: 0 <= at < |priority| && priority[at] == Vote(values, priority, clean) &&
                         if FirstMode(priority, values) == Some(clean) then WorstSeen(values, priority, clean, at)
                         else WinsTie(values, priority, at)
  {
    ModeExists(values);
    FirstModeMeaning(values, values);
    FirstModeMeaning(priority, values);
    assert FirstMode(values, values).value in priority;
    if FirstMode(priority, values) == Some(clean) {
      var at := FirstOtherAt(priority, values, clean);
      FirstOtherMeaning(priority, values, clean);
      assert WorstSeen(values, priority, clean, at);
    } else {
      var at := FirstModeAt(priority, values);
      assert WinsTie(values, priority, at);
    }
  }

  lemma {:induction false} SameModes<T>(candidates: seq<T>, a: seq<T>, b: seq<T>, clean: T)
    requires multiset(a) == multiset(b)
    ensures FirstMode(candidates, a) == FirstMode(candidates, b)
    ensures FirstOther(candidates, a, clean) == FirstOther(candidates, b, clean)
  {
    assert forall v :: v in a <==> v in multiset(a);
    assert forall v :: v in b <==> v in multiset(b);
    if candidates != [] {
      assert IsMode(a, candidates[0]) <==> IsMode(b, candidates[0]);
      SameModes(candidates[1..], a, b, clean);
    }
  }

  /** The order in which the repeats were run does not matter. */
  lemma {:induction false} VoteOrderFree<T>(a: seq<T>, b: seq<T>, priority: seq<T>, clean: T)
    requires a != [] && multiset(a) == multiset(b) && forall v :: v in a ==> v in priority
    ensures b != [] && Vote(a, priority, clean) == Vote(b, priority, clean)
  {
    assert |multiset(a)| == |a| && |multiset(b)| == |b|;
    SameModes(priority, a, b, clean);
    ModeExists(a);
    FirstModeMeaning(a, a);
    FirstModeMeaning(priority, a);
    assert FirstMode(a, a).value in priority;
  }

  // ---- optional booleans and means --------------------------------------------------------

  function Present<T>(values: seq<Option<T>>): seq<T> {
    if values == [] then []
    else Present(values[..|values| - 1]) + if values[|values| - 1].Some? then [values[|values| - 1].value] else []
  }

  lemma {:induction false} PresentMeaning<T>(values: seq<Option<T>>)
    ensures |Present(values)| <= |values|
    ensures forall x :: x in Present(values) <==> Some(x) in values
  {
    if values != [] {
      PresentMeaning(values[..|values| - 1]);
      assert values == values[..|values| - 1] + [values[|values| - 1]];
    }
  }

  function MajorityBool(values: seq<Option<bool>>): Option<bool> {
    var present := Present(values);
    if present == [] then None else Some(multiset(present)[true] * 2 > |present|)
  }

  lemma {:induction false} PresentStep<T>(front: seq<Option<T>>, last: Option<T>)
    ensures Present(front + [last]) == Present(front) + if last.Some? then [last.value] else []
  {
    assert (front + [last])[..|front|] == front;
  }

  lemma {:induction false} CountStep<T>(front: seq<T>, last: T, v: T)
    ensures multiset(front + [last])[v] == multiset(front)[v] + if last == v then 1 else 0
  {
  }

  lemma {:induction false} PresentCounts<T>(values: seq<Option<T>>, v: T)
    ensures multiset(Present(values))[v] == multiset(values)[Some(v)]
  {
    if values != [] {
      var front, last := values[..|values| - 1], values[|values| - 1];
      assert values == front + [last];
      PresentCounts(front, v);
      PresentStep(front, last);
      CountStep(front, last, Some(v));
      if last.Some? {
        CountStep(Present(front), last.value, v);
      } else {
        assert Present(front) + [] == Present(front);
      }
    }
  }

  lemma {:induction false} TrueOrFalse(values: seq<bool>)
    ensures multiset(values)[true] + multiset(values)[false] == |values|
  {
    if values != [] {
      var front, last := values[..|values| - 1], values[|values| - 1];
      TrueOrFalse(front);
      assert values == front + [last];
      assert multiset{last}[true] + multiset{last}[false] == 1 by {
        if last {
          assert last == true;
        } else {
          assert last == false;
        }
      }
    }
  }

  /** The boolean vote compares recorded passes with recorded failures: a tie fails, and absent values do not count. */
  lemma {:induction false} MajorityBoolMeaning(values: seq<Option<bool>>)
    ensures
      var passes, failures := multiset(values)[Some(true)], multiset(values)[Some(false)];
      && (MajorityBool(values) == Some(true) <==> passes > failures)
      && (MajorityBool(values) == Some(false) <==> failures >= passes && failures > 0)
  {
    PresentCounts(values, true);
    PresentCounts(values, false);
    TrueOrFalse(Present(values));
  }

  function Sum(values: seq<real>): real {
    if values == [] then 0.0 else Sum(values[..|values| - 1]) + values[|values| - 1]
  }

  function Average(values: seq<Option<real>>): Option<real> {
    var present := Present(values);
    if present == [] then None else Some(Sum(present) / |present| as real)
  }

  lemma {:induction false} SumBound(values: seq<real>, bound: real)
    requires forall v :: v in values ==> v <= bound
    ensures Sum(values) <= |values| as real * bound
  {
    if values != [] {
      var front := values[..|values| - 1];
      assert (forall v :: v in front ==> v in values) && values[|values| - 1] in values;
      SumBound(front, bound);
      var n := |values| as real;
      assert n * bound == (n - 1.0) * bound + bound;
    }
  }

  lemma {:induction false} QuotientBound(sum: real, n: real, bound: real)
    requires n > 0.0 && sum <= n * bound
    ensures sum / n <= bound
  {
    var q := sum / n;
    assert q * n == sum;
    assert (q - bound) * n <= 0.0;
  }

  lemma {:induction false} MeanBound(present: seq<real>, bound: real)
    requires present != [] && forall v :: v in present ==> v <= bound
    ensures Sum(present) / |present| as real <= bound
  {
    SumBound(present, bound);
    QuotientBound(Sum(present), |present| as real, bound);
  }

  /** A mean of values within a bound is within it. */
  lemma {:induction false} AverageBound(values: seq<Option<real>>, bound: real)
    requires forall v :: Some(v) in values ==> v <= bound
    ensures Average(values).Some? ==> Average(values).value <= bound
  {
    PresentMeaning(values);
    if Present(values) != [] {
      MeanBound(Present(values), bound);
    }
  }

  // ---- what a mean is ---------------------------------------------------------------------

  /** How many values are present, and what they add up to. */
  function CountPresent<T>(values: seq<Option<T>>): nat {
    if values == [] then 0 else CountPresent(values[..|values| - 1]) + if values[|values| - 1].Some? then 1 else 0
  }

  function Amount(value: Option<real>): real {
    if value.Some? then value.value else 0.0
  }

  function Total(values: seq<Option<real>>): real {
    if values == [] then 0.0 else Total(values[..|values| - 1]) + Amount(values[|values| - 1])
  }

  lemma {:induction false} SumStep(front: seq<real>, last: real)
    ensures Sum(front + [last]) == Sum(front) + last
  {
    assert (front + [last])[..|front|] == front;
  }

  lemma {:induction false} PresentTotals(values: seq<Option<real>>)
    ensures |Present(values)| == CountPresent(values) && Sum(Present(values)) == Total(values)
  {
    if values != [] {
      var front, last := values[..|values| - 1], values[|values| - 1];
      PresentTotals(front);
      if last.Some? {
        SumStep(Present(front), last.value);
      } else {
        assert Present(values) == Present(front);
      }
    }
  }

  lemma {:induction false} AnyPresent<T>(values: seq<Option<T>>)
    ensures CountPresent(values) > 0 <==> exists i :: 0 <= i < |values| && values[i].Some?
  {
    if values != [] {
      var front, last := values[..|values| - 1], values[|values| - 1];
      AnyPresent(front);
      assert forall i :: 0 <= i < |front| ==> front[i] == values[i];
      if i :| 0 <= i < |values| && values[i].Some? {
        assert i < |front| ==> front[i].Some?;
      }
    }
  }

  lemma {:induction false} QuotientTimes(sum: real, n: real)
    requires n > 0.0
    ensures sum / n * n == sum
  {
  }

  /** The mean exists exactly when some value is present, and times their number it is what they add up to. */
  lemma {:induction false} AverageMeaning(values: seq<Option<real>>)
    ensures Average(values).Some? <==> exists i :: 0 <= i < |values| && values[i].Some?
    ensures Average(values).Some? ==>
              CountPresent(values) > 0 && Average(values).value * CountPresent(values) as real == Total(values)
  {
    PresentTotals(values);
    AnyPresent(values);
    if Present(values) != [] {
      QuotientTimes(Sum(Present(values)), |Present(values)| as real);
    }
  }

  lemma {:induction false} TotalsAppend(a: seq<Option<real>>, b: seq<Option<real>>)
    ensures Total(a + b) == Total(a) + Total(b) && CountPresent(a + b) == CountPresent(a) + CountPresent(b)
  {
    if b == [] {
      assert a + b == a;
    } else {
      TotalsAppend(a, b[..|b| - 1]);
      assert (a + b)[..|a + b| - 1] == a + b[..|b| - 1];
    }
  }

  lemma {:induction false} TotalsOne(v: Option<real>)
    ensures Total([v]) == Amount(v) && CountPresent([v]) == if v.Some? then 1 else 0
  {
    assert [v][..0] == [];
  }

  /** Taking out one value takes out what it amounts to. */
  lemma {:induction false} TotalsWithout(b: seq<Option<real>>, j: nat)
    requires j < |b|
    ensures Total(b) == Total(b[..j] + b[j + 1..]) + Amount(b[j])
    ensures CountPresent(b) == CountPresent(b[..j] + b[j + 1..]) + if b[j].Some? then 1 else 0
  {
    var left, right := b[..j], b[j + 1..];
    assert b == left + [b[j]] + right;
    TotalsAppend(left + [b[j]], right);
    TotalsAppend(left, [b[j]]);
    TotalsAppend(left, right);
    TotalsOne(b[j]);
  }

  lemma {:induction false} SameWithout<T>(front: seq<T>, last: T, b: seq<T>, j: nat)
    requires multiset(front + [last]) == multiset(b) && j < |b| && b[j] == last
    ensures multiset(front) == multiset(b[..j] + b[j + 1..])
  {
    assert b == b[..j] + [b[j]] + b[j + 1..];
    assert multiset(b) - multiset{last} == multiset(b[..j] + b[j + 1..]);
    assert multiset(front + [last]) - multiset{last} == multiset(front);
  }

  lemma {:induction false} TotalsOrderFree(a: seq<Option<real>>, b: seq<Option<real>>)
    requires multiset(a) == multiset(b)
    ensures Total(a) == Total(b) && CountPresent(a) == CountPresent(b)
    decreases |a|
  {
    if a == [] {
      assert |multiset(b)| == |b| && b == [];
    } else {
      var front, last := a[..|a| - 1], a[|a| - 1];
      assert a == front + [last] && last in multiset(b);
      var j :| 0 <= j < |b| && b[j] == last;
      SameWithout(front, last, b, j);
      TotalsOrderFree(front, b[..j] + b[j + 1..]);
      TotalsWithout(b, j);
    }
  }

  /** A mean depends on which values there are, not on their order. */
  lemma {:induction false} AverageOrderFree(a: seq<Option<real>>, b: seq<Option<real>>)
    requires multiset(a) == multiset(b)
    ensures Average(a) == Average(b)
  {
    TotalsOrderFree(a, b);
    PresentTotals(a);
    PresentTotals(b);
  }

  /** The values present exceed `limit` on average: compared as sums. */
  predicate ExceedsOnAverage(values: seq<Option<real>>, limit: real) {
    Total(values) > limit * CountPresent(values) as real
  }

  lemma {:induction false} QuotientExceeds(sum: real, n: real, limit: real)
    requires n > 0.0
    ensures sum / n > limit <==> sum > limit * n
  {
    var q := sum / n;
    assert q * n == sum;
    if q > limit {
      assert (q - limit) * n > 0.0;
    } else {
      assert (limit - q) * n >= 0.0;
    }
  }

  lemma {:induction false} AverageExceeds(values: seq<Option<real>>, limit: real)
    ensures Average(values).Some? && Average(values).value > limit <==> ExceedsOnAverage(values, limit)
  {
    PresentTotals(values);
    if Present(values) != [] {
      QuotientExceeds(Sum(Present(values)), |Present(values)| as real, limit);
    } else {
      assert limit * 0.0 == 0.0;
    }
  }
}
