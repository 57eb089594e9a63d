/** The setup and validation layer of the Differential Evolution engine: the
    `DiffEvo` class, which owns the seed population and the random source. */
module DiffEvoEngine {
  import opened Structures
  import opened Random
  import opened Bounds
  import opened Validator

  /** Why a limit setter rejected its argument (`std::invalid_argument`). */
  datatype ArgumentError =
    | EmptyLimits    // the limit vector is empty
    | NoPopulation   // there is no seed population yet
    | SizeMismatch   // the vector's length differs from individual 0's weight length

  /** The outcome of a limit setter: done, or thrown with the state unchanged. */
  datatype Status = Done | InvalidArgument(reason: ArgumentError)

  /** `std::ranges::for_each(limits, [&](double &value) { value = x; })`:
      every entry of `s` overwritten with `x`, one index at a time. */
  method FillWith(s: seq<real>, x: real) returns (r: seq<real>)
    ensures r == Constant(|s|, x)
  {
    r := s;
    var j := 0;
    while j < |r|
      invariant 0 <= j <= |r| == |s|
      invariant forall m :: 0 <= m < j ==> r[m] == x
    {
      r := r[j := x];
      j := j + 1;
    }
  }

  class DiffEvo {
    /** `initial_population_`: the seed population. */
    var initialPopulation: seq<Individual>
    /** `gen_` together with `distrib_`. */
    const gen: UniformSource

    /** `DiffEvo()`: no population yet; the generator is given the stream of
        draws it will produce. */
    constructor (samples: nat -> Unit)
      ensures initialPopulation == []
      ensures fresh(gen) && gen.samples == samples && gen.pos == 0
    {
      initialPopulation := [];
      gen := new UniformSource(samples);
    }

    /** `GetInitPopulation`: the seed population, read without change. */
    method GetInitPopulation() returns (p: seq<Individual>)
      ensures p == initialPopulation
    {
      p := initialPopulation;
    }

    /** `SetInitPopulation`: replaces the seed population wholesale, without
        any validation. */
    method SetInitPopulation(p: seq<Individual>)
      modifies this
      ensures initialPopulation == p
    {
      initialPopulation := p;
    }

    /** `GenerateInitPopulation(dimensions, populationSize)`: a new seed
        population of `populationSize` individuals, each with `dimensions`
        weights taken from the random source in order, cost `DBL_MAX` and no
        limits. */
    method GenerateInitPopulation(dimensions: nat, populationSize: nat)
      modifies this, gen
      ensures |initialPopulation| == populationSize
      ensures forall k :: 0 <= k < populationSize ==> IsSeed(initialPopulation[k], dimensions)
      ensures old(gen.pos) <= gen.pos
      ensures Flatten(initialPopulation) == gen.Window(old(gen.pos), gen.pos)
      ensures forall k, i :: 0 <= k < |initialPopulation| && 0 <= i < |initialPopulation[k].weight| ==>
        0.0 <= initialPopulation[k].weight[i] < 1.0
    {
      var population := seq(populationSize, _ => Blank);
      ghost var start := gen.pos;
      var k := 0;
      while k < populationSize
        invariant 0 <= k <= populationSize == |population|
        invariant forall j :: 0 <= j < k ==> IsSeed(population[j], dimensions)
        invariant start <= gen.pos
        invariant Flatten(population[..k]) == gen.Window(start, gen.pos)
      {
        var weight := Resized([], dimensions);
        var i := 0;
        while i < dimensions
          invariant 0 <= i <= dimensions == |weight|
          invariant start <= gen.pos
          invariant Flatten(population[..k]) + weight[..i] == gen.Window(start, gen.pos)
        {
          ghost var before := gen.pos;
          gen.WindowExtend(start, before);
          var u := gen.Next();
          weight := weight[i := u];
          assert weight[..i + 1] == weight[..i] + [u];
          i := i + 1;
        }
        var seed := Individual(DBL_MAX, weight, [], []);
        assert weight[..dimensions] == weight;
        ghost var done := population[..k];
        FlattenAppend(done, seed);
        population := population[k := seed];
        assert population[..k + 1] == done + [seed];
        k := k + 1;
      }
      assert population[..populationSize] == population;
      initialPopulation := population;
      forall k, i | 0 <= k < |population| && 0 <= i < |population[k].weight|
        ensures 0.0 <= population[k].weight[i] < 1.0
      {
        FlattenContains(population, k, i);
      }
    }

    /** Writes `v` into the limits on `side` of every individual in turn. */
    method AssignLimits(side: Side, v: seq<real>)
      modifies this
      ensures initialPopulation == AssignAll(old(initialPopulation), side, v)
    {
      ghost var p := initialPopulation;
      var k := 0;
      while k < |initialPopulation|
        invariant 0 <= k <= |initialPopulation| == |p|
        invariant forall j :: 0 <= j < k ==> initialPopulation[j] == p[j].WithLimits(side, v)
        invariant forall j :: k <= j < |p| ==> initialPopulation[j] == p[j]
      {
        initialPopulation := initialPopulation[k := initialPopulation[k].WithLimits(side, v)];
        k := k + 1;
      }
    }

    /** Resizes the limits on `side` of every individual to its own weight
        length and fills them with `x`. */
    method BroadcastLimits(side: Side, x: real)
      modifies this
      ensures initialPopulation == BroadcastAll(old(initialPopulation), side, x)
    {
      ghost var p := initialPopulation;
      var k := 0;
      while k < |initialPopulation|
        invariant 0 <= k <= |initialPopulation| == |p|
        invariant forall j :: 0 <= j < k ==>
          initialPopulation[j] == p[j].WithLimits(side, Constant(|p[j].weight|, x))
        invariant forall j :: k <= j < |p| ==> initialPopulation[j] == p[j]
      {
        var individual := initialPopulation[k];
        var limits := Resized(individual.Limits(side), |individual.weight|);
        limits := FillWith(limits, x);
        initialPopulation := initialPopulation[k := individual.WithLimits(side, limits)];
        k := k + 1;
      }
    }

    /** `AddMinLimits(const std::vector<double>&)`. */
    method AddMinLimits(minLimits: seq<real>) returns (r: Status)
      modifies this
      ensures r == InvalidArgument(EmptyLimits) <==> minLimits == []
      ensures r == InvalidArgument(NoPopulation) <==> minLimits != [] && old(initialPopulation) == []
      ensures r == InvalidArgument(SizeMismatch) <==>
        minLimits != [] && old(initialPopulation) != [] && |minLimits| != |old(initialPopulation)[0].weight|
      ensures r == Done <==>
        minLimits != [] && old(initialPopulation) != [] && |minLimits| == |old(initialPopulation)[0].weight|
      ensures r.InvalidArgument? ==> initialPopulation == old(initialPopulation)
      ensures r == Done ==> initialPopulation == AssignAll(old(initialPopulation), Min, minLimits)
    {
      if minLimits == [] {
        return InvalidArgument(EmptyLimits);
      }
      if initialPopulation == [] {
        return InvalidArgument(NoPopulation);
      }
      if |minLimits| != |initialPopulation[0].weight| {
        return InvalidArgument(SizeMismatch);
      }
      AssignLimits(Min, minLimits);
      return Done;
    }

    /** `AddMinLimits(double)`. */
    method AddMinLimitsScalar(minLimit: real) returns (r: Status)
      modifies this
      ensures r == InvalidArgument(NoPopulation) <==> old(initialPopulation) == []
      ensures r == Done <==> old(initialPopulation) != []
      ensures r.InvalidArgument? ==> r.reason == NoPopulation && initialPopulation == old(initialPopulation)
      ensures r == Done ==> initialPopulation == BroadcastAll(old(initialPopulation), Min, minLimit)
    {
      if initialPopulation == [] {
        return InvalidArgument(NoPopulation);
      }
      BroadcastLimits(Min, minLimit);
      return Done;
    }

    /** `AddMaxLimits(const std::vector<double>&)`. */
    method AddMaxLimits(maxLimits: seq<real>) returns (r: Status)
      modifies this
      ensures r == InvalidArgument(EmptyLimits) <==> maxLimits == []
      ensures r == InvalidArgument(NoPopulation) <==> maxLimits != [] && old(initialPopulation) == []
      ensures r == InvalidArgument(SizeMismatch) <==>
        maxLimits != [] && old(initialPopulation) != [] && |maxLimits| != |old(initialPopulation)[0].weight|
      ensures r == Done <==>
        maxLimits != [] && old(initialPopulation) != [] && |maxLimits| == |old(initialPopulation)[0].weight|
      ensures r.InvalidArgument? ==> initialPopulation == old(initialPopulation)
      ensures r == Done ==> initialPopulation == AssignAll(old(initialPopulation), Max, maxLimits)
    {
      if maxLimits == [] {
        return InvalidArgument(EmptyLimits);
      }
      if initialPopulation == [] {
        return InvalidArgument(NoPopulation);
      }
      if |maxLimits| != |initialPopulation[0].weight| {
        return InvalidArgument(SizeMismatch);
      }
      AssignLimits(Max, maxLimits);
      return Done;
    }

    /** `AddMaxLimits(double)`. */
    method AddMaxLimitsScalar(maxLimit: real) returns (r: Status)
      modifies this
      ensures r == InvalidArgument(NoPopulation) <==> old(initialPopulation) == []
      ensures r == Done <==> old(initialPopulation) != []
      ensures r.InvalidArgument? ==> r.reason == NoPopulation && initialPopulation == old(initialPopulation)
      ensures r == Done ==> initialPopulation == BroadcastAll(old(initialPopulation), Max, maxLimit)
    {
      if initialPopulation == [] {
        return InvalidArgument(NoPopulation);
      }
      BroadcastLimits(Max, maxLimit);
      return Done;
    }

    /** `OptimizeInitTest`: the checks in order on individual 0, the limit
        check as an index loop over its minimum limits. Reads only. */
    method OptimizeInitTest() returns (r: Readiness)
      ensures r == InitTest(initialPopulation)
    {
      if initialPopulation == [] {
        return EmptyPopulation;
      }
      var first := initialPopulation[0];
      if first.minLimits == [] {
        return MissingMinLimits;
      }
      if first.maxLimits == [] {
        return MissingMaxLimits;
      }
      var i := 0;
      while i < |first.minLimits|
        invariant 0 <= i <= |first.minLimits|
        invariant ScanLimits(first.minLimits, first.maxLimits, i) == InitTest(initialPopulation)
      {
        if i >= |first.maxLimits| {
          return MaxLimitMissing(i);
        }
        if first.minLimits[i] > first.maxLimits[i] {
          return LimitInverted(i, first.minLimits[i], first.maxLimits[i]);
        }
        i := i + 1;
      }
      return Ready;
    }
  }

  /** The setup sequence of the benchmark driver (seed population, then the
      scalar lower and upper limits) followed by the pre-flight check: with at
      least one individual, at least one dimension and `lo <= hi`, both setters
      succeed and the check passes. */
  method BenchmarkSetup(samples: nat -> Unit, dimensions: nat, populationSize: nat, lo: real, hi: real)
    returns (r: Readiness)
    requires dimensions >= 1 && populationSize >= 1 && lo <= hi
    ensures r == Ready
  {
    var engine := new DiffEvo(samples);
    engine.GenerateInitPopulation(dimensions, populationSize);
    ghost var seeded := engine.initialPopulation;
    var minStatus := engine.AddMinLimitsScalar(lo);
    var maxStatus := engine.AddMaxLimitsScalar(hi);
    assert minStatus == Done && maxStatus == Done;
    BroadcastLimitsReadiness(seeded, lo, hi);
    r := engine.OptimizeInitTest();
  }
}
