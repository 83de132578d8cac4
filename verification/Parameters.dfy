/**
 ortoa-tee/extras/ortoa/benchmark/interface/parameter.py: the two integer ranges a benchmark
 parameter can sweep.  Python's integers are unbounded.
 */
module Parameters {

  // minimum * multiplier^k.
  function Term(minimum: int, multiplier: int, k: nat): int {
    if k == 0 then minimum else Term(minimum, multiplier, k - 1) * multiplier
  }

  // Some term leaves the range; without one the loop runs for ever.
  ghost predicate Leaves(minimum: int, maximum: int, multiplier: int) {
    exists k: nat :: Term(minimum, multiplier, k) > maximum
  }

  // The terms before the first one above the maximum.
  method MultiplyValues(minimum: int, maximum: int, multiplier: int) returns (res: seq<int>)
    requires Leaves(minimum, maximum, multiplier)
    ensures forall k :: 0 <= k < |res| ==> res[k] == Term(minimum, multiplier, k) && res[k] <= maximum
    ensures Term(minimum, multiplier, |res|) > maximum
    ensures minimum > maximum ==> res == []
    ensures minimum <= maximum ==> res != [] && res[0] == minimum && res[|res| - 1] * multiplier > maximum
    ensures forall k :: 0 < k < |res| ==> res[k] == res[k - 1] * multiplier
  {
    ghost var bound: nat :| Term(minimum, multiplier, bound) > maximum;
    res := [];
    var i := minimum;
    while i <= maximum
      invariant i == Term(minimum, multiplier, |res|)
      invariant i == if res == [] then minimum else res[|res| - 1] * multiplier
      invariant res != [] ==> res[0] == minimum
      invariant forall k :: 0 < k < |res| ==> res[k] == res[k - 1] * multiplier
      invariant forall k :: 0 <= k < |res| ==> res[k] == Term(minimum, multiplier, k) && res[k] <= maximum
      decreases bound - |res|
    {
      res := res + [i];
      i := i * multiplier;
    }
  }

  // When the loop ends, in terms of the parameters.
  predicate MultiplyEnds(minimum: int, maximum: int, multiplier: int) {
    || minimum > maximum
    || (multiplier >= 2 && minimum >= 1)
    || (multiplier <= -2 && minimum != 0)
    || (multiplier == -1 && -minimum > maximum)
    || (multiplier == 0 && maximum < 0)
  }

  lemma Doubles(t: nat, multiplier: int)
    requires multiplier >= 2
    ensures t * multiplier >= t * 2
  {}

  lemma {:induction false} TermGrows(minimum: int, multiplier: int, k: nat)
    requires minimum >= 1 && multiplier >= 2
    ensures Term(minimum, multiplier, k) > k
  {
    if k > 0 {
      TermGrows(minimum, multiplier, k - 1);
      Doubles(Term(minimum, multiplier, k - 1), multiplier);
    }
  }

  lemma {:induction false} EveryOtherTerm(minimum: int, multiplier: int, k: nat)
    ensures Term(minimum, multiplier, 2 * k) == Term(minimum, multiplier * multiplier, k)
  {
    if k > 0 {
      EveryOtherTerm(minimum, multiplier, k - 1);
      var t := Term(minimum, multiplier, 2 * k - 2);
      assert Term(minimum, multiplier, 2 * k) == t * multiplier * multiplier;
      assert t * multiplier * multiplier == t * (multiplier * multiplier);
    }
  }

  lemma {:induction false} TermOfNext(minimum: int, multiplier: int, k: nat)
    ensures Term(minimum, multiplier, k + 1) == Term(minimum * multiplier, multiplier, k)
  {
    if k > 0 {
      TermOfNext(minimum, multiplier, k - 1);
    }
  }

  // A term above the maximum, when there is one.
  lemma WitnessTerm(minimum: int, maximum: int, multiplier: int) returns (k: nat)
    requires MultiplyEnds(minimum, maximum, multiplier)
    ensures Term(minimum, multiplier, k) > maximum
  {
    var n: nat := if maximum > 0 then maximum else 0;
    if minimum > maximum {
      k := 0;
    } else if multiplier == 0 || multiplier == -1 {
      k := 1;
      assert Term(minimum, multiplier, 1) == Term(minimum, multiplier, 0) * multiplier;
    } else if multiplier >= 2 {
      k := n;
      TermGrows(minimum, multiplier, k);
    } else {
      var square := multiplier * multiplier;
      assert square >= 2;
      if minimum > 0 {
        k := 2 * n;
        EveryOtherTerm(minimum, multiplier, n);
        TermGrows(minimum, square, n);
      } else {
        k := 2 * n + 1;
        assert minimum * multiplier >= 1;
        TermOfNext(minimum, multiplier, 2 * n);
        EveryOtherTerm(minimum * multiplier, multiplier, n);
        TermGrows(minimum * multiplier, square, n);
      }
    }
  }

  // Where the terms stay when the loop does not end.
  lemma {:induction false} TermStays(minimum: int, maximum: int, multiplier: int, k: nat)
    requires !MultiplyEnds(minimum, maximum, multiplier)
    ensures var t := Term(minimum, multiplier, k);
            && t <= maximum
            && (multiplier >= 1 ==> t <= minimum || t == 0)
            && (multiplier >= 1 && minimum <= 0 ==> t <= 0)
            && (multiplier == -1 ==> t == minimum || t == -minimum)
            && (multiplier == 0 ==> t == minimum || t == 0)
            && (multiplier <= -2 ==> t == 0)
  {
    if k > 0 {
      TermStays(minimum, maximum, multiplier, k - 1);
      var t := Term(minimum, multiplier, k - 1);
      if multiplier >= 2 {
        assert t * multiplier <= t;
      }
    }
  }

  // The loop ends exactly for these parameters; minimum >= 1 and multiplier >= 2 is one case.
  lemma MultiplyEndsIff(minimum: int, maximum: int, multiplier: int)
    ensures Leaves(minimum, maximum, multiplier) <==> MultiplyEnds(minimum, maximum, multiplier)
  {
    if MultiplyEnds(minimum, maximum, multiplier) {
      var k := WitnessTerm(minimum, maximum, multiplier);
    } else {
      forall k: nat
        ensures Term(minimum, multiplier, k) <= maximum
      {
        TermStays(minimum, maximum, multiplier, k);
      }
    }
  }

  lemma {:induction false} TermIncreases(minimum: int, multiplier: int, j: nat, k: nat)
    requires minimum >= 1 && multiplier >= 2 && j < k
    ensures Term(minimum, multiplier, j) < Term(minimum, multiplier, k)
  {
    if j < k - 1 {
      TermIncreases(minimum, multiplier, j, k - 1);
    }
    TermGrows(minimum, multiplier, k - 1);
    Doubles(Term(minimum, multiplier, k - 1), multiplier);
  }

  // In that case the values are increasing and are all the terms up to the maximum.
  lemma MultiplyValuesAreAllTerms(minimum: int, maximum: int, multiplier: int, res: seq<int>)
    requires minimum >= 1 && multiplier >= 2
    requires forall k :: 0 <= k < |res| ==> res[k] == Term(minimum, multiplier, k) && res[k] <= maximum
    requires Term(minimum, multiplier, |res|) > maximum
    ensures forall j, k :: 0 <= j < k < |res| ==> res[j] < res[k]
    ensures forall k: nat :: Term(minimum, multiplier, k) <= maximum <==> k < |res|
  {
    forall j, k | 0 <= j < k < |res|
      ensures res[j] < res[k]
    {
      TermIncreases(minimum, multiplier, j, k);
    }
    forall k: nat | k > |res|
      ensures Term(minimum, multiplier, k) > maximum
    {
      TermIncreases(minimum, multiplier, |res|, k);
    }
  }

  // minimum, minimum + step, ...: all the numbers of the range a whole number of steps up.
  method IncrementValues(minimum: int, maximum: int, step: int) returns (res: seq<int>)
    requires minimum > maximum || step > 0   // otherwise the loop runs for ever
    ensures forall k :: 0 <= k < |res| ==> res[k] == minimum + k * step && res[k] <= maximum
    ensures minimum + |res| * step > maximum
  {
    res := [];
    var i := minimum;
    while i <= maximum
      invariant i == minimum + |res| * step
      invariant forall k :: 0 <= k < |res| ==> res[k] == minimum + k * step && res[k] <= maximum
      decreases maximum - i
    {
      res := res + [i];
      i := i + step;
    }
  }

  // The precondition above is exact.
  lemma IncrementEndsIff(minimum: int, maximum: int, step: int)
    ensures (exists k: nat :: Progression(minimum, step, k) > maximum) <==> minimum > maximum || step > 0
  {
    if minimum > maximum {
      assert Progression(minimum, step, 0) > maximum;
    } else if step > 0 {
      var k: nat := maximum - minimum + 1;
      assert k * step >= k;
      assert Progression(minimum, step, k) > maximum;
    } else {
      forall k: nat
        ensures Progression(minimum, step, k) <= maximum
      {
        assert k * step <= 0;
      }
    }
  }

  function Progression(minimum: int, step: int, k: nat): int {
    minimum + k * step
  }
}
