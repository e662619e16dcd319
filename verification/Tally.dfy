/** Sums and counts over agents, and why the order of the agents does not matter to them. */
module Tally {
  function SumBy<T>(xs: seq<T>, f: T -> real): real {
    if xs == [] then 0.0 else f(xs[0]) + SumBy(xs[1..], f)
  }

  function CountBy<T>(xs: seq<T>, p: T -> bool): (n: nat)
    ensures n <= |xs|
  {
    if xs == [] then 0 else (if p(xs[0]) then 1 else 0) + CountBy(xs[1..], p)
  }

  function Select<T>(xs: seq<T>, p: T -> bool): seq<T> {
    if xs == [] then [] else (if p(xs[0]) then [xs[0]] else []) + Select(xs[1..], p)
  }

  lemma {:induction false} TakeOut<T>(xs: seq<T>, i: nat, f: T -> real, p: T -> bool)
    requires i < |xs|
    ensures SumBy(xs, f) == f(xs[i]) + SumBy(xs[..i] + xs[i + 1..], f)
    ensures CountBy(xs, p) == (if p(xs[i]) then 1 else 0) + CountBy(xs[..i] + xs[i + 1..], p)
  {
    var rest := xs[..i] + xs[i + 1..];
    if i == 0 {
      assert rest == xs[1..];
    } else {
      TakeOut(xs[1..], i - 1, f, p);
      assert rest[1..] == xs[1..][..i - 1] + xs[1..][i..];
    }
  }

  lemma WithoutElement<T>(xs: seq<T>, i: nat)
    requires i < |xs|
    ensures multiset(xs[..i] + xs[i + 1..]) == multiset(xs) - multiset{xs[i]}
  {
    assert xs == xs[..i] + [xs[i]] + xs[i + 1..];
  }

  lemma SameRest<T>(xs: seq<T>, ys: seq<T>, i: nat)
    requires multiset(xs) == multiset(ys) && xs != [] && i < |ys| && ys[i] == xs[0]
    ensures multiset(ys[..i] + ys[i + 1..]) == multiset(xs[1..])
  {
    WithoutElement(xs, 0);
    WithoutElement(ys, i);
    assert xs[..0] + xs[1..] == xs[1..];
  }

  /** Sums and counts are the same for every permutation. */
  lemma {:induction false} PermutedTally<T>(xs: seq<T>, ys: seq<T>, f: T -> real, p: T -> bool)
    requires multiset(xs) == multiset(ys)
    ensures SumBy(xs, f) == SumBy(ys, f)
    ensures CountBy(xs, p) == CountBy(ys, p)
  {
    if xs == [] {
      assert |multiset(ys)| == 0;
    } else {
      assert xs[0] in multiset(ys);
      var i :| 0 <= i < |ys| && ys[i] == xs[0];
      var rest := ys[..i] + ys[i + 1..];
      SameRest(xs, ys, i);
      TakeOut(ys, i, f, p);
      PermutedTally(xs[1..], rest, f, p);
    }
  }

  lemma {:induction false} SelectPartitions<T>(xs: seq<T>, p: T -> bool, q: T -> bool)
    requires forall x | x in xs :: p(x) <==> !q(x)
    ensures multiset(Select(xs, p)) + multiset(Select(xs, q)) == multiset(xs)
    ensures |Select(xs, p)| + |Select(xs, q)| == |xs|
  {
    if xs != [] {
      assert xs == [xs[0]] + xs[1..];
      SelectPartitions(xs[1..], p, q);
    }
  }

  lemma SelectFromMore<T>(x: T, rest: seq<T>, p: T -> bool)
    ensures Select([x] + rest, p) == (if p(x) then [x] else []) + Select(rest, p)
  {
    assert ([x] + rest)[1..] == rest;
  }

  lemma SelectFromNone<T>(p: T -> bool)
    ensures Select([], p) == []
  {
  }

  /** A selection keeps the order: it distributes over concatenation. */
  lemma {:induction false} SelectConcatenation<T>(xs: seq<T>, ys: seq<T>, p: T -> bool)
    ensures Select(xs + ys, p) == Select(xs, p) + Select(ys, p)
  {
    hide Select;
    if xs == [] {
      SelectFromNone(p);
      assert xs + ys == ys;
    } else {
      SelectConcatenation(xs[1..], ys, p);
      SelectFromMore(xs[0], xs[1..], p);
      SelectFromMore(xs[0], xs[1..] + ys, p);
      assert xs == [xs[0]] + xs[1..];
      assert xs + ys == [xs[0]] + (xs[1..] + ys);
    }
  }

  /** Summing over a selection is summing with zero elsewhere. */
  lemma {:induction false} SumOfSelection<T(!new)>(xs: seq<T>, p: T -> bool, f: T -> real, masked: T -> real)
    requires forall x :: masked(x) == if p(x) then f(x) else 0.0
    ensures SumBy(xs, masked) == SumBy(Select(xs, p), f)
  {
    if xs != [] {
      SumOfSelection(xs[1..], p, f, masked);
      assert ([xs[0]] + Select(xs[1..], p))[1..] == Select(xs[1..], p);
      assert [] + Select(xs[1..], p) == Select(xs[1..], p);
    }
  }

  lemma {:induction false} SelectMeaning<T>(xs: seq<T>, p: T -> bool)
    ensures forall x :: x in Select(xs, p) <==> x in xs && p(x)
  {
    if xs != [] {
      SelectMeaning(xs[1..], p);
      assert forall x :: x in xs <==> x == xs[0] || x in xs[1..];
    }
  }
}
