/** What the four limit setters of `DiffEvo` do to a population, as values:
    the vector form copies one vector into every individual, the scalar form
    gives every individual a vector as long as its own weight vector. */
module Bounds {
  import opened Structures

  /** `n` copies of `x`. */
  function Constant(n: nat, x: real): seq<real>
  {
    seq(n, _ => x)
  }

  /** `std::vector::resize(n)`: keeps the first `n` entries and pads with
      value-initialised doubles (zero). */
  function Resized(s: seq<real>, n: nat): (r: seq<real>)
    ensures |r| == n
    ensures forall j :: 0 <= j < n && j < |s| ==> r[j] == s[j]
    ensures forall j :: |s| <= j < n ==> r[j] == 0.0
  {
    if n <= |s| then s[..n] else s + Constant(n - |s|, 0.0)
  }

  /** Vector form: every individual's limits on `side` become `v`. */
  function AssignAll(p: seq<Individual>, side: Side, v: seq<real>): seq<Individual>
  {
    seq(|p|, k requires 0 <= k < |p| => p[k].WithLimits(side, v))
  }

  /** Scalar form: every individual's limits on `side` become `x` repeated
      once per component of that individual's own weight vector. */
  function BroadcastAll(p: seq<Individual>, side: Side, x: real): seq<Individual>
  {
    seq(|p|, k requires 0 <= k < |p| => p[k].WithLimits(side, Constant(|p[k].weight|, x)))
  }

  /** On a population whose weight vectors all have length `d`, the scalar
      form is the vector form applied to `d` copies of the scalar. */
  lemma BroadcastIsAssignOfConstant(p: seq<Individual>, side: Side, x: real, d: nat)
    requires forall k :: 0 <= k < |p| ==> |p[k].weight| == d
    ensures BroadcastAll(p, side, x) == AssignAll(p, side, Constant(d, x))
  {
  }

  /** The two forms differ once the weight vectors differ in length: a vector
      the vector form accepts (sized against individual 0 only) leaves every
      individual of another weight length with limits of the wrong length,
      while the scalar form sizes each individual by its own weights. */
  lemma OverloadsDisagreeOnRaggedPopulation(p: seq<Individual>, side: Side, v: seq<real>, x: real, k: nat)
    requires |p| > 0 && |v| == |p[0].weight|
    requires k < |p| && |p[k].weight| != |p[0].weight|
    ensures |AssignAll(p, side, v)[k].Limits(side)| != |p[k].weight|
    ensures |BroadcastAll(p, side, x)[k].Limits(side)| == |p[k].weight|
  {
  }

  /** Setting the minimum and the maximum limits commute, and each leaves
      cost, weights and the other side alone. */
  lemma AssignSidesCommute(p: seq<Individual>, lo: seq<real>, hi: seq<real>)
    ensures AssignAll(AssignAll(p, Min, lo), Max, hi) == AssignAll(AssignAll(p, Max, hi), Min, lo)
    ensures forall k :: 0 <= k < |p| ==>
      AssignAll(AssignAll(p, Min, lo), Max, hi)[k] == p[k].(minLimits := lo, maxLimits := hi)
  {
  }

  /** Setting the same side twice keeps only the second vector. */
  lemma AssignOverwrites(p: seq<Individual>, side: Side, v: seq<real>, w: seq<real>)
    ensures AssignAll(AssignAll(p, side, v), side, w) == AssignAll(p, side, w)
  {
  }
}
