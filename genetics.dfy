/** The genome of an AI player and the operators of the genetic algorithm:
    random initialisation, cloning, mutation, tournament selection and the
    search for the fittest member of a population. Every random draw is a
    parameter. */
module Genetics {
  import opened Wrappers

  /** Number of weights: aggregate height, complete lines, holes, bumpiness. */
  const GeneCount: nat := 4

  /** The weights of a fresh genome: each uniform draw in [0, 1) shifted down by 0.5. */
  function InitialGenes(draws: seq<real>): (genes: seq<real>)
    ensures |genes| == |draws|
    ensures forall i :: 0 <= i < |draws| && 0.0 <= draws[i] < 1.0 ==> -0.5 <= genes[i] < 0.5
    ensures forall i :: 0 <= i < |draws| ==> genes[i] + 0.5 == draws[i]
  {
    seq(|draws|, i requires 0 <= i < |draws| => draws[i] - 0.5)
  }

  /** The step a mutated gene moves by, for a uniform draw d in [0, 1). */
  function Step(d: real): (delta: real)
    ensures 0.0 <= d < 1.0 ==> -0.2 <= delta < 0.2
    ensures d == 0.5 <==> delta == 0.0
  {
    d * 0.4 - 0.2
  }

  /** The genes after one mutation pass: gene i moves by Step(steps[i]) when
      its coin draw falls below the rate, and stays put otherwise. */
  function Mutated(genes: seq<real>, rate: real, coins: seq<real>, steps: seq<real>): (m: seq<real>)
    requires |coins| == |genes| && |steps| == |genes|
    ensures |m| == |genes|
    ensures forall i :: 0 <= i < |genes| && rate <= coins[i] ==> m[i] == genes[i]
    ensures forall i :: 0 <= i < |genes| && coins[i] < rate ==> m[i] - genes[i] == Step(steps[i])
  {
    seq(|genes|, i requires 0 <= i < |genes| => if coins[i] < rate then genes[i] + Step(steps[i]) else genes[i])
  }

  /** With a rate no coin falls below (a rate of 0 against draws in [0, 1)), mutation changes nothing. */
  lemma MutatedAtZeroRate(genes: seq<real>, rate: real, coins: seq<real>, steps: seq<real>)
    requires |coins| == |genes| && |steps| == |genes|
    requires forall i :: 0 <= i < |coins| ==> rate <= coins[i]
    ensures Mutated(genes, rate, coins, steps) == genes
  {
    var m := Mutated(genes, rate, coins, steps);
    assert forall i :: 0 <= i < |genes| ==> m[i] == genes[i];
  }

  /** With draws in [0, 1), no gene moves by 0.2 or more in one pass. */
  lemma MutatedIsBounded(genes: seq<real>, rate: real, coins: seq<real>, steps: seq<real>)
    requires |coins| == |genes| && |steps| == |genes|
    requires forall i :: 0 <= i < |steps| ==> 0.0 <= steps[i] < 1.0
    ensures forall i :: 0 <= i < |genes| ==>
      -0.2 <= Mutated(genes, rate, coins, steps)[i] - genes[i] < 0.2
  {
    var m := Mutated(genes, rate, coins, steps);
    forall i | 0 <= i < |genes| ensures -0.2 <= m[i] - genes[i] < 0.2 {
      if coins[i] < rate {
        assert m[i] - genes[i] == Step(steps[i]);
      }
    }
  }

  /** The weights of an AI player. */
  class Genome {
    var genes: seq<real>

    /** A random genome from four uniform draws. */
    constructor (draws: seq<real>)
      requires |draws| == GeneCount
      ensures genes == InitialGenes(draws)
    {
      genes := InitialGenes(draws);
    }

    /** A clone of a genome with the given weights: a new object, so later
        changes to either do not reach the other. */
    constructor Clone(weights: seq<real>)
      ensures genes == weights
    {
      genes := weights;
    }

    /** One mutation pass over the genes, in place. */
    method Mutate(rate: real, coins: seq<real>, steps: seq<real>)
      requires |coins| == |genes| && |steps| == |genes|
      modifies this
      ensures genes == Mutated(old(genes), rate, coins, steps)
    {
      ghost var g0 := genes;
      var i := 0;
      while i < |genes|
        invariant 0 <= i <= |genes| == |g0|
        invariant genes[..i] == Mutated(g0, rate, coins, steps)[..i]
        invariant genes[i..] == g0[i..]
      {
        if coins[i] < rate {
          genes := genes[i := genes[i] + Step(steps[i])];
        }
        i := i + 1;
      }
      assert genes == genes[..i];
    }
  }

  /** Two-way tournament: of the entries at the drawn indices a and b, the
      fitter one, b when they tie; nothing for an empty population. */
  function PickOne(fitness: seq<int>, a: nat, b: nat): (r: Option<nat>)
    requires |fitness| > 0 ==> a < |fitness| && b < |fitness|
    ensures r.None? <==> |fitness| == 0
    ensures r.Some? ==> (r.value == a || r.value == b)
    ensures r.Some? ==> fitness[r.value] >= fitness[a] && fitness[r.value] >= fitness[b]
    ensures r.Some? && fitness[a] == fitness[b] ==> r.value == b
  {
    if |fitness| == 0 then None
    else if fitness[a] > fitness[b] then Some(a)
    else Some(b)
  }

  /** Index b holds a maximum of the fitness list and every earlier entry
      is strictly smaller: the first of several equal maxima. */
  ghost predicate IsFirstMax(fitness: seq<int>, b: nat) {
    && b < |fitness|
    && (forall i :: 0 <= i < |fitness| ==> fitness[i] <= fitness[b])
    && (forall i :: 0 <= i < b ==> fitness[i] < fitness[b])
  }

  /** A list has at most one first maximum. */
  lemma FirstMaxUnique(fitness: seq<int>, b1: nat, b2: nat)
    requires IsFirstMax(fitness, b1) && IsFirstMax(fitness, b2)
    ensures b1 == b2
  {
    assert fitness[b1] == fitness[b2];
  }

  /** The member a left-to-right scan keeps when only a strictly larger
      fitness replaces the one kept; none for an empty population. */
  function FittestIn(fitness: seq<int>): (r: Option<nat>)
    ensures r.None? <==> |fitness| == 0
    ensures r.Some? ==> IsFirstMax(fitness, r.value)
  {
    if |fitness| == 0 then None
    else
      var last := |fitness| - 1;
      var r := FittestIn(fitness[..last]);
      if r.None? || fitness[last] > fitness[r.value] then Some(last) else r
  }

  /** The scan for the fittest member of a population. */
  method Fittest(fitness: seq<int>) returns (best: Option<nat>)
    ensures best == FittestIn(fitness)
    ensures best.None? <==> |fitness| == 0
    ensures best.Some? ==> IsFirstMax(fitness, best.value)
  {
    best := None;
    var i := 0;
    while i < |fitness|
      invariant 0 <= i <= |fitness|
      invariant best == FittestIn(fitness[..i])
    {
      assert fitness[..i + 1][..i] == fitness[..i];
      if best.None? || fitness[i] > fitness[best.value] {
        best := Some(i);
      }
      i := i + 1;
    }
    assert fitness[..i] == fitness;
  }
}
