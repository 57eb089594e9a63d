/** The engine's random source: `std::mt19937` seeded from `std::random_device`,
    read through `std::uniform_real_distribution<>(0.0, 1.0)`. The generator's
    internals are not modelled; the source is the stream of draws it yields,
    supplied when the engine is built, each draw lying in [0,1). */
module Random {

  /** A draw of the uniform distribution on [0,1). */
  type Unit = r: real | 0.0 <= r < 1.0 witness 0.0

  class UniformSource {
    /** The n-th draw this source will ever yield. */
    const samples: nat -> Unit
    /** How many draws have been taken so far (the generator state). */
    var pos: nat

    constructor (samples: nat -> Unit)
      ensures this.samples == samples && pos == 0
    {
      this.samples := samples;
      pos := 0;
    }

    /** The draws numbered `from` up to, not including, `to`. */
    function Window(from: nat, to: nat): (w: seq<real>)
      requires from <= to
      ensures |w| == to - from
      ensures forall j :: 0 <= j < |w| ==> 0.0 <= w[j] < 1.0
    {
      seq(to - from, j requires 0 <= j < to - from => samples(from + j) as real)
    }

    /** Taking one more draw extends the window by exactly that draw. */
    lemma WindowExtend(from: nat, to: nat)
      requires from <= to
      ensures Window(from, to + 1) == Window(from, to) + [samples(to) as real]
    {
    }

    /** `distrib_(gen_)`: yields the next draw and advances the state. */
    method Next() returns (u: real)
      modifies this
      ensures pos == old(pos) + 1
      ensures u == samples(old(pos)) as real
      ensures 0.0 <= u < 1.0
    {
      u := samples(pos) as real;
      pos := pos + 1;
    }
  }
}
