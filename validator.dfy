/** The pre-flight check `DiffEvo::OptimizeInitTest` as a function on the seed
    population: which check failed first, or that all passed, and what the
    outcome says after the limit setters have run. */
module Validator {
  import opened Structures
  import opened Bounds

  /** The outcome of the check. The source reports a failure as `false` plus a
      message; here each failure is its own variant, carrying the data the
      message prints. `MaxLimitMissing` is the case the source does not guard:
      an index below the length of `min_limits` but not of `max_limits`, where
      the source reads past the end of `max_limits`. */
  datatype Readiness =
    | Ready
    | EmptyPopulation
    | MissingMinLimits
    | MissingMaxLimits
    | LimitInverted(index: nat, min: real, max: real)
    | MaxLimitMissing(index: nat)

  /** On every index in [lo, hi) both limits exist and the minimum does not
      exceed the maximum. */
  predicate OrderedOn(mins: seq<real>, maxs: seq<real>, lo: nat, hi: nat)
  {
    lo < hi ==> hi <= |mins| && hi <= |maxs| && forall j :: lo <= j < hi ==> mins[j] <= maxs[j]
  }

  /** The validator's conditions, stated outright: a population exists,
      individual 0 has both limit vectors, and they are ordered on every index
      of its minimum limits. */
  predicate ReadyToOptimize(p: seq<Individual>)
  {
    && |p| > 0
    && p[0].minLimits != []
    && p[0].maxLimits != []
    && OrderedOn(p[0].minLimits, p[0].maxLimits, 0, |p[0].minLimits|)
  }

  /** The index loop of the check, from index `i` on: the first index that is
      missing a maximum or whose minimum exceeds its maximum, else `Ready`. */
  function ScanLimits(mins: seq<real>, maxs: seq<real>, i: nat): (r: Readiness)
    requires i <= |mins|
    ensures r.Ready? || r.LimitInverted? || r.MaxLimitMissing?
    ensures r.Ready? <==> OrderedOn(mins, maxs, i, |mins|)
    ensures r.LimitInverted? ==>
      && i <= r.index < |mins| && r.index < |maxs|
      && r.min == mins[r.index] && r.max == maxs[r.index] && r.min > r.max
      && OrderedOn(mins, maxs, i, r.index)
    ensures r.MaxLimitMissing? ==>
      && i <= r.index < |mins| && |maxs| <= r.index
      && (i <= |maxs| ==> r.index == |maxs|)
      && OrderedOn(mins, maxs, i, r.index)
    decreases |mins| - i
  {
    if i == |mins| then Ready
    else if i >= |maxs| then MaxLimitMissing(i)
    else if mins[i] > maxs[i] then LimitInverted(i, mins[i], maxs[i])
    else ScanLimits(mins, maxs, i + 1)
  }

  /** What `OptimizeInitTest` reports for population `p`. The checks run in
      order and only individual 0 is inspected. */
  function InitTest(p: seq<Individual>): (r: Readiness)
    ensures r == EmptyPopulation <==> |p| == 0
    ensures r == MissingMinLimits <==> |p| > 0 && p[0].minLimits == []
    ensures r == MissingMaxLimits <==> |p| > 0 && p[0].minLimits != [] && p[0].maxLimits == []
    ensures r == Ready <==> ReadyToOptimize(p)
    ensures r.LimitInverted? ==>
      && |p| > 0 && r.index < |p[0].minLimits| && r.index < |p[0].maxLimits|
      && r.min == p[0].minLimits[r.index] && r.max == p[0].maxLimits[r.index]
      && r.min > r.max
      && OrderedOn(p[0].minLimits, p[0].maxLimits, 0, r.index)
    ensures r.MaxLimitMissing? ==>
      && |p| > 0 && 0 < |p[0].maxLimits| < |p[0].minLimits|
      && r.index == |p[0].maxLimits|
      && OrderedOn(p[0].minLimits, p[0].maxLimits, 0, r.index)
  {
    if |p| == 0 then EmptyPopulation
    else if p[0].minLimits == [] then MissingMinLimits
    else if p[0].maxLimits == [] then MissingMaxLimits
    else ScanLimits(p[0].minLimits, p[0].maxLimits, 0)
  }

  /** Only individual 0 matters: two non-empty populations that agree on it
      get the same verdict, whatever the other individuals hold. */
  lemma OnlyFirstIndividualInspected(p: seq<Individual>, q: seq<Individual>)
    requires |p| > 0 && |q| > 0 && p[0] == q[0]
    ensures InitTest(p) == InitTest(q)
  {
  }

  /** A freshly seeded population is not ready: it has no limits yet. */
  lemma SeedPopulationNotReady(p: seq<Individual>, d: nat)
    requires |p| > 0 && IsSeed(p[0], d)
    ensures InitTest(p) == MissingMinLimits
  {
  }

  /** After the scalar setters with `lo` and `hi`, the check passes exactly
      when `lo <= hi`, provided individual 0 has at least one weight; with no
      weights its limits are empty and the check stops at the minimum. */
  lemma BroadcastLimitsReadiness(p: seq<Individual>, lo: real, hi: real)
    requires |p| > 0
    ensures var q := BroadcastAll(BroadcastAll(p, Min, lo), Max, hi);
            InitTest(q) ==
              if |p[0].weight| == 0 then MissingMinLimits
              else if lo <= hi then Ready
              else LimitInverted(0, lo, hi)
  {
  }

  /** After the vector setters with `lo` and `hi` (both non-empty), the check
      passes exactly when `hi` covers `lo` index by index; otherwise it names
      the first offending index. */
  lemma AssignedLimitsReadiness(p: seq<Individual>, lo: seq<real>, hi: seq<real>)
    requires |p| > 0 && lo != [] && hi != []
    ensures var q := AssignAll(AssignAll(p, Min, lo), Max, hi);
            && (InitTest(q) == Ready <==> OrderedOn(lo, hi, 0, |lo|))
            && (InitTest(q) != Ready ==> InitTest(q) == ScanLimits(lo, hi, 0))
  {
  }
}
