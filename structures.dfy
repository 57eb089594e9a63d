/** The record the engine works on (`de_t` in structures.h) and the facts
    about populations of such records that the other modules share. */
module Structures {

  /** `DBL_MAX`, the largest finite IEEE-754 double, (2^53 - 1) * 2^971,
      used as the "not yet evaluated" cost of a seed individual. */
  const DBL_MAX: real := 179769313486231570814527423731704356798070567525844996598917476803157260780028538760589558632766878171540458953514382464234321326889464182768467546703537516986049910576551282076245490090389328944075868508455133942304583236903222948165808559332123348274797826204144723168738177180919299881250404026184124858368.0

  /** Which of the two limit vectors of an individual an operation addresses. */
  datatype Side = Min | Max

  /** One candidate solution: its cost, its weight vector and the per-dimension
      box it is to be kept in. Doubles are modelled as reals. */
  datatype Individual = Individual(
    cost: real,
    weight: seq<real>,
    maxLimits: seq<real>,
    minLimits: seq<real>)
  {
    /** The limit vector on the given side. */
    function Limits(side: Side): seq<real>
    {
      match side
      case Min => minLimits
      case Max => maxLimits
    }

    /** This individual with the limit vector on `side` replaced by `v`;
        cost, weight and the other limit vector are kept. */
    function WithLimits(side: Side, v: seq<real>): (r: Individual)
      ensures r.Limits(side) == v
      ensures r.cost == cost && r.weight == weight
      ensures side == Min ==> r.maxLimits == maxLimits
      ensures side == Max ==> r.minLimits == minLimits
    {
      match side
      case Min => this.(minLimits := v)
      case Max => this.(maxLimits := v)
    }
  }

  /** A value-initialised `de_t`: zero cost and three empty vectors. */
  const Blank: Individual := Individual(0.0, [], [], [])

  /** A freshly seeded individual of dimension `d`: cost still `DBL_MAX`,
      `d` weights, and no limits yet. */
  predicate IsSeed(ind: Individual, d: nat)
  {
    ind.cost == DBL_MAX && |ind.weight| == d && ind.minLimits == [] && ind.maxLimits == []
  }

  /** The weights of a population read individual by individual, in order. */
  function Flatten(p: seq<Individual>): seq<real>
  {
    if p == [] then [] else Flatten(p[..|p| - 1]) + p[|p| - 1].weight
  }

  /** Every weight component of every individual occurs in `Flatten(p)`. */
  lemma {:induction false} FlattenContains(p: seq<Individual>, k: nat, i: nat)
    requires k < |p| && i < |p[k].weight|
    ensures p[k].weight[i] in Flatten(p)
  {
    var last := |p| - 1;
    if k == last {
      assert Flatten(p) == Flatten(p[..last]) + p[k].weight;
      assert Flatten(p)[|Flatten(p[..last])| + i] == p[k].weight[i];
    } else {
      assert p[..last][k] == p[k];
      FlattenContains(p[..last], k, i);
    }
  }

  /** Flattening a population one individual longer appends that individual's weights. */
  lemma FlattenAppend(p: seq<Individual>, ind: Individual)
    ensures Flatten(p + [ind]) == Flatten(p) + ind.weight
  {
    assert (p + [ind])[..|p|] == p;
  }
}
