/**
 ortoa-tee/extras/ortoa/benchmark/interface/experiment.py: expanding the alternatives of each
 client flag into one atomic experiment per combination.
 */
module Experiments {
  import opened Wrappers

  /* ---------- the cartesian product ---------- */

  // The combinations that start with `prefix`, in the order of the last choice first.
  function Product<T>(prefix: seq<T>, lists: seq<seq<T>>): seq<seq<T>>
    decreases |lists|
  {
    if lists == [] then [prefix] else ProductUpTo(prefix, lists, |lists[0]|)
  }

  // Those that continue with one of the first n choices.
  function ProductUpTo<T>(prefix: seq<T>, lists: seq<seq<T>>, n: nat): seq<seq<T>>
    requires lists != [] && n <= |lists[0]|
    decreases |lists|, n
  {
    if n == 0 then []
    else ProductUpTo(prefix, lists, n - 1) + Product(prefix + [lists[0][n - 1]], lists[1..])
  }

  class Combiner<T> {
    const lst: seq<seq<T>>
    var curr: seq<T>
    var combinations: seq<seq<T>>

    constructor (lst: seq<seq<T>>)
      ensures this.lst == lst && curr == [] && combinations == []
    {
      this.lst, curr, combinations := lst, [], [];
    }

    method Backtrack(idx: nat)
      requires idx <= |lst|
      modifies this
      ensures curr == old(curr)
      ensures combinations == old(combinations) + Product(old(curr), lst[idx..])
      decreases |lst| - idx
    {
      if idx == |lst| {
        combinations := combinations + [curr];
        return;
      }
      var i := 0;
      while i < |lst[idx]|
        invariant 0 <= i <= |lst[idx]| && curr == old(curr)
        invariant combinations == old(combinations) + ProductUpTo(old(curr), lst[idx..], i)
      {
        curr := curr + [lst[idx][i]];
        assert lst[idx..][1..] == lst[idx + 1..];
        Backtrack(idx + 1);
        curr := curr[..|curr| - 1];
        i := i + 1;
      }
    }
  }

  method Combine<T>(lst: seq<seq<T>>) returns (combinations: seq<seq<T>>)
    ensures combinations == Product([], lst)
  {
    var combiner := new Combiner<T>(lst);
    combiner.Backtrack(0);
    assert lst[0..] == lst;
    combinations := combiner.combinations;
  }

  /* ---------- what the product is ---------- */

  function Volume<T>(lists: seq<seq<T>>): nat {
    if lists == [] then 1 else |lists[0]| * Volume(lists[1..])
  }

  // A vector of choices: one index into each list.
  predicate IsChoice<T>(lists: seq<seq<T>>, choice: seq<nat>) {
    |choice| == |lists| && forall j :: 0 <= j < |lists| ==> choice[j] < |lists[j]|
  }

  function Pick<T>(lists: seq<seq<T>>, choice: seq<nat>): seq<T>
    requires IsChoice(lists, choice)
  {
    seq(|lists|, j requires 0 <= j < |lists| => lists[j][choice[j]])
  }

  // The place of a choice among all choices in lexicographic order.
  function Rank<T>(lists: seq<seq<T>>, choice: seq<nat>): nat
    requires IsChoice(lists, choice)
  {
    if lists == [] then 0 else choice[0] * Volume(lists[1..]) + Rank(lists[1..], choice[1..])
  }

  ghost predicate IsRank<T>(lists: seq<seq<T>>, i: nat) {
    exists choice: seq<nat> :: IsChoice(lists, choice) && Rank(lists, choice) == i
  }

  predicate LexicographicallyLess(a: seq<nat>, b: seq<nat>)
    requires |a| == |b|
  {
    a != [] && (a[0] < b[0] || (a[0] == b[0] && LexicographicallyLess(a[1..], b[1..])))
  }

  lemma HeadIsBounded(a: nat, n: nat, v: nat, r: nat)
    requires a < n && r < v
    ensures a * v + r < n * v
  {
    var d: nat := n - a - 1;
    assert n * v == a * v + v + d * v;
  }

  lemma {:induction false} RankIsBounded<T>(lists: seq<seq<T>>, choice: seq<nat>)
    requires IsChoice(lists, choice)
    ensures Rank(lists, choice) < Volume(lists)
  {
    if lists != [] {
      RankIsBounded(lists[1..], choice[1..]);
      HeadIsBounded(choice[0], |lists[0]|, Volume(lists[1..]), Rank(lists[1..], choice[1..]));
    }
  }

  // Rank orders choices lexicographically.
  lemma {:induction false} RankIsLexicographic<T>(lists: seq<seq<T>>, a: seq<nat>, b: seq<nat>)
    requires IsChoice(lists, a) && IsChoice(lists, b)
    ensures Rank(lists, a) < Rank(lists, b) <==> LexicographicallyLess(a, b)
    ensures Rank(lists, a) == Rank(lists, b) <==> a == b
  {
    if lists != [] {
      RankIsLexicographic(lists[1..], a[1..], b[1..]);
      RankIsBounded(lists[1..], a[1..]);
      RankIsBounded(lists[1..], b[1..]);
      HeadDecides(a[0], b[0], Volume(lists[1..]), Rank(lists[1..], a[1..]), Rank(lists[1..], b[1..]));
      assert a == [a[0]] + a[1..] && b == [b[0]] + b[1..];
    }
  }

  lemma HeadDecides(a: nat, b: nat, v: nat, r: nat, q: nat)
    requires r < v && q < v
    ensures a * v + r < b * v + q <==> a < b || (a == b && r < q)
    ensures a * v + r == b * v + q <==> a == b && r == q
  {
    if a < b {
      HeadIsBounded(a, b, v, r);
    } else if b < a {
      HeadIsBounded(b, a, v, q);
    }
  }

  lemma QuotientIsBounded(i: nat, n: nat, v: nat)
    requires i < n * v
    ensures v > 0 && 0 <= i / v < n && i == (i / v) * v + i % v
  {}

  // Every number below the volume is the rank of a choice.
  lemma {:induction false} ChoiceOfRank<T>(lists: seq<seq<T>>, i: nat) returns (choice: seq<nat>)
    requires i < Volume(lists)
    ensures IsChoice(lists, choice) && Rank(lists, choice) == i
  {
    if lists == [] {
      choice := [];
    } else {
      var v := Volume(lists[1..]);
      QuotientIsBounded(i, |lists[0]|, v);
      var q, r := i / v, i % v;
      var rest := ChoiceOfRank(lists[1..], r);
      choice := [q] + rest;
      assert choice[1..] == rest;
      assert forall j :: 1 <= j < |lists| ==> choice[j] == rest[j - 1] && lists[j] == lists[1..][j - 1];
    }
  }

  lemma {:induction false} ProductLength<T>(prefix: seq<T>, lists: seq<seq<T>>)
    ensures |Product(prefix, lists)| == Volume(lists)
    decreases |lists|
  {
    if lists != [] {
      ProductUpToLength(prefix, lists, |lists[0]|);
    }
  }

  lemma {:induction false} ProductUpToLength<T>(prefix: seq<T>, lists: seq<seq<T>>, n: nat)
    requires lists != [] && n <= |lists[0]|
    ensures |ProductUpTo(prefix, lists, n)| == n * Volume(lists[1..])
    decreases |lists|, n
  {
    if n > 0 {
      ProductUpToLength(prefix, lists, n - 1);
      ProductLength(prefix + [lists[0][n - 1]], lists[1..]);
      assert n * Volume(lists[1..]) == (n - 1) * Volume(lists[1..]) + Volume(lists[1..]);
    }
  }

  // The combination at a choice's rank is the one that choice picks.
  lemma {:induction false} ProductAtRank<T>(prefix: seq<T>, lists: seq<seq<T>>, choice: seq<nat>)
    requires IsChoice(lists, choice)
    ensures Rank(lists, choice) < |Product(prefix, lists)|
    ensures Product(prefix, lists)[Rank(lists, choice)] == prefix + Pick(lists, choice)
    decreases |lists|
  {
    ProductLength(prefix, lists);
    RankIsBounded(lists, choice);
    if lists == [] {
      assert prefix + Pick(lists, choice) == prefix;
    } else {
      ProductUpToAtRank(prefix, lists, choice, |lists[0]|);
    }
  }

  lemma {:induction false} ProductUpToAtRank<T>(prefix: seq<T>, lists: seq<seq<T>>, choice: seq<nat>, n: nat)
    requires IsChoice(lists, choice) && lists != [] && choice[0] < n <= |lists[0]|
    ensures Rank(lists, choice) < |ProductUpTo(prefix, lists, n)|
    ensures ProductUpTo(prefix, lists, n)[Rank(lists, choice)] == prefix + Pick(lists, choice)
    decreases |lists|, n
  {
    var rank := Rank(lists[1..], choice[1..]);
    ProductUpToLength(prefix, lists, n - 1);
    if choice[0] < n - 1 {
      ProductUpToAtRank(prefix, lists, choice, n - 1);
    } else {
      var head := [lists[0][n - 1]];
      ProductAtRank(prefix + head, lists[1..], choice[1..]);
      assert prefix + head + Pick(lists[1..], choice[1..]) == prefix + Pick(lists, choice);
    }
  }

  // combine lists every way of taking one element from each list, once per way, in
  // lexicographic order of the choices; so a list without elements leaves nothing.
  lemma CombineIsLexicographicProduct<T>(lists: seq<seq<T>>)
    ensures |Product([], lists)| == Volume(lists)
    ensures forall choice: seq<nat> :: IsChoice(lists, choice) ==>
              Rank(lists, choice) < Volume(lists) && Product([], lists)[Rank(lists, choice)] == Pick(lists, choice)
    ensures forall i: nat :: i < Volume(lists) ==> IsRank(lists, i)
  {
    ProductLength([], lists);
    forall choice: seq<nat> | IsChoice(lists, choice)
      ensures Rank(lists, choice) < Volume(lists) && Product([], lists)[Rank(lists, choice)] == Pick(lists, choice)
    {
      ProductAtRank([], lists, choice);
      assert [] + Pick(lists, choice) == Pick(lists, choice);
    }
    forall i: nat | i < Volume(lists)
      ensures IsRank(lists, i)
    {
      var choice := ChoiceOfRank(lists, i);
    }
  }

  /* ---------- atomic experiments ---------- */

  // Only experiments with seed data of both kinds can be made atomic.
  datatype Data = SeedData(seed: Option<string>, operations: Option<string>) | OtherData

  datatype Experiment<T, M> = Experiment(name: string, directory: string, metadata: M, data: Data, flags: seq<seq<T>>)
  {
    predicate Runnable() {
      data.SeedData? && data.seed.Some? && data.operations.Some?
    }
  }

  // Its output directory is `directory`/combination_`id`.
  datatype Atomic<T, M> = Atomic(name: string, directory: string, id: nat, metadata: M,
                                 seedData: string, operations: string, flags: seq<T>)

  // Where the atomic experiments of experiment number n begin.
  function Offset<T, M>(experiments: seq<Experiment<T, M>>, n: nat): nat
    requires n <= |experiments|
  {
    if n == 0 then 0 else Offset(experiments, n - 1) + Volume(experiments[n - 1].flags)
  }

  // Atomic experiment p is number i of experiment m.
  predicate Owns<T, M>(experiments: seq<Experiment<T, M>>, m: nat, i: nat, p: nat) {
    m < |experiments| && i < Volume(experiments[m].flags) && p == Offset(experiments, m) + i
  }

  // Its flags are the choice of rank i.
  ghost predicate Picks<T>(flags: seq<T>, lists: seq<seq<T>>, i: nat) {
    forall choice: seq<nat> :: IsChoice(lists, choice) && Rank(lists, choice) == i ==> flags == Pick(lists, choice)
  }

  ghost predicate IsAtom<T, M>(atom: Atomic<T, M>, e: Experiment<T, M>, i: nat) {
    && atom.name == e.name && atom.metadata == e.metadata && atom.directory == e.directory && atom.id == i
    && e.data.SeedData? && Some(atom.seedData) == e.data.seed && Some(atom.operations) == e.data.operations
    && Picks(atom.flags, e.flags, i)
  }

  ghost predicate AllRunnable<T, M>(experiments: seq<Experiment<T, M>>) {
    forall n :: 0 <= n < |experiments| ==> experiments[n].Runnable()
  }

  // The atoms are those of all experiments up to `count`, in order.
  ghost predicate AreAtoms<T, M>(atoms: seq<Atomic<T, M>>, experiments: seq<Experiment<T, M>>, count: nat)
    requires count <= |experiments|
  {
    && |atoms| == Offset(experiments, count)
    && (forall n :: 0 <= n < count ==> experiments[n].Runnable())
    && forall m: nat, i: nat, p: nat :: m < count && Owns(experiments, m, i, p) ==>
         p < |atoms| && IsAtom(atoms[p], experiments[m], i)
  }

  // One atomic experiment per combination, numbered from 0 within each experiment, with the
  // experiment's own name, directory, metadata and files; None is the failed assertion about
  // an experiment without seed data or operations.
  method AtomicizeExperiments<T, M>(experiments: seq<Experiment<T, M>>) returns (r: Option<seq<Atomic<T, M>>>)
    ensures r.Some? <==> AllRunnable(experiments)
    ensures r.Some? ==> AreAtoms(r.value, experiments, |experiments|)
    ensures r.Some? ==> forall m: nat, i: nat, p: nat :: Owns(experiments, m, i, p) ==>
              && p < |r.value| && r.value[p].id == i
              && r.value[p].name == experiments[m].name && r.value[p].directory == experiments[m].directory
              && r.value[p].metadata == experiments[m].metadata
              && Some(r.value[p].seedData) == experiments[m].data.seed
              && Some(r.value[p].operations) == experiments[m].data.operations
              && Picks(r.value[p].flags, experiments[m].flags, i)
  {
    var atoms: seq<Atomic<T, M>> := [];
    var n := 0;
    while n < |experiments|
      invariant 0 <= n <= |experiments|
      invariant AreAtoms(atoms, experiments, n)
    {
      var e := experiments[n];
      if !e.Runnable() {
        return None;
      }
      var combinations := Combine(e.flags);
      CombineIsLexicographicProduct(e.flags);
      ghost var before := atoms;
      var id := 0;
      while id < |combinations|
        invariant 0 <= id <= |combinations|
        invariant |atoms| == |before| + id && before <= atoms
        invariant forall p :: |before| <= p < |atoms| ==> IsAtom(atoms[p], e, p - |before|)
      {
        var atom := Atomic(e.name, e.directory, id, e.metadata, e.data.seed.value, e.data.operations.value,
                           combinations[id]);
        assert Picks(atom.flags, e.flags, id);
        atoms := atoms + [atom];
        id := id + 1;
      }
      AtomsGrow(before, atoms, experiments, n);
      n := n + 1;
    }
    r := Some(atoms);
  }

  lemma {:induction false} OffsetsGrow<T, M>(experiments: seq<Experiment<T, M>>, m: nat, n: nat)
    requires m < n <= |experiments|
    ensures Offset(experiments, m) + Volume(experiments[m].flags) <= Offset(experiments, n)
  {
    if m < n - 1 {
      OffsetsGrow(experiments, m, n - 1);
    }
  }

  lemma AtomsGrow<T, M>(before: seq<Atomic<T, M>>, atoms: seq<Atomic<T, M>>, experiments: seq<Experiment<T, M>>, n: nat)
    requires n < |experiments| && AreAtoms(before, experiments, n) && experiments[n].Runnable()
    requires before <= atoms && |atoms| == |before| + Volume(experiments[n].flags)
    requires forall p :: |before| <= p < |atoms| ==> IsAtom(atoms[p], experiments[n], p - |before|)
    ensures AreAtoms(atoms, experiments, n + 1)
  {
    forall m: nat, i: nat, p: nat | m < n + 1 && Owns(experiments, m, i, p)
      ensures p < |atoms| && IsAtom(atoms[p], experiments[m], i)
    {
      if m < n {
        OffsetsGrow(experiments, m, n);
        assert atoms[p] == before[p];
      }
    }
  }

  lemma {:induction false} OwnerOf<T, M>(experiments: seq<Experiment<T, M>>, n: nat, p: nat) returns (m: nat, i: nat)
    requires n <= |experiments| && p < Offset(experiments, n)
    ensures m < n && Owns(experiments, m, i, p)
  {
    if n == 0 {
      assert false;
    } else if p >= Offset(experiments, n - 1) {
      m, i := n - 1, p - Offset(experiments, n - 1);
    } else {
      m, i := OwnerOf(experiments, n - 1, p);
    }
  }

  lemma AtomOf<T, M>(experiments: seq<Experiment<T, M>>, atoms: seq<Atomic<T, M>>, p: nat) returns (m: nat, i: nat)
    requires AreAtoms(atoms, experiments, |experiments|)
    requires p < |atoms|
    ensures Owns(experiments, m, i, p) && IsAtom(atoms[p], experiments[m], i)
  {
    m, i := OwnerOf(experiments, |experiments|, p);
  }

  // No two atomic experiments write to the same directory if no two experiments do.
  lemma DirectoriesAreDistinct<T, M>(experiments: seq<Experiment<T, M>>, atoms: seq<Atomic<T, M>>, p: nat, q: nat)
    requires AreAtoms(atoms, experiments, |experiments|)
    requires forall m, n :: 0 <= m < n < |experiments| ==> experiments[m].directory != experiments[n].directory
    requires p < |atoms| && q < |atoms| && p != q
    ensures atoms[p].directory != atoms[q].directory || atoms[p].id != atoms[q].id
  {
    var m, i := AtomOf(experiments, atoms, p);
    var n, j := AtomOf(experiments, atoms, q);
    if m != n {
      assert experiments[m].directory != experiments[n].directory;
    } else {
      assert i != j;
    }
  }
}
