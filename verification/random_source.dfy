/**
 * The simulator's single source of randomness (matrix/world/random_source.hpp)
 * and the draw helpers built on it.
 *
 * The engine is a 32-bit Mersenne Twister (ISO C++ [rand.eng.mers]); its
 * algorithm is not part of this model. What the model keeps is what the
 * simulator depends on: the i-th output after seeding depends only on the
 * seed and on i. An `Engine` is therefore any function from (seed, index)
 * to a 32-bit word, fixed once for a run.
 */
module Randomness {

  type Word32 = x: nat | x < 0x1_0000_0000

  /** `engine(seed, i)` is the output of the (i+1)-th call after seeding. */
  type Engine = (Word32, nat) -> Word32

  /** The engine's remaining outputs, as pure code threads them: draws are
      taken at `pos`, `pos + 1`, ... of the stream seeded with `seed`. */
  datatype Stream = Stream(engine: Engine, seed: Word32, pos: nat)

  /** A value computed from the stream and the stream left after it. */
  datatype Drawn<T> = Drawn(value: T, rest: Stream)

  /** One engine output; advances the stream by exactly one position. */
  function Draw(s: Stream): (d: Drawn<Word32>)
    ensures d.value == s.engine(s.seed, s.pos)
    ensures d.rest == s.(pos := s.pos + 1)
  {
    Drawn(s.engine(s.seed, s.pos), s.(pos := s.pos + 1))
  }

  /** `GlobalRandomNumber(bound)`: one draw reduced modulo `bound`.
      The helper's own file is not part of this model; one draw per call and
      a plain remainder are what the model assumes of it. */
  function Below(s: Stream, bound: nat): (d: Drawn<nat>)
    requires bound > 0
    ensures d.value < bound
    ensures d.rest == s.(pos := s.pos + 1)
  {
    var w := Draw(s);
    Drawn(w.value % bound, w.rest)
  }

  /** `GlobalRandomNumber(lo, hi)`: a value in the closed range [lo, hi],
      `lo` plus one draw reduced modulo the range's width (assumed as above). */
  function Between(s: Stream, lo: nat, hi: nat): (d: Drawn<nat>)
    requires lo <= hi
    ensures lo <= d.value <= hi
    ensures d.rest == s.(pos := s.pos + 1)
  {
    var w := Draw(s);
    Drawn(lo + w.value % (hi - lo + 1), w.rest)
  }

  /** matrix/world/random_source.hpp: a seeded engine that counts its draws. */
  class RandomSource {
    const engine: Engine
    var seed: Word32
    var steps: nat

    constructor (engine: Engine, seed: Word32)
      ensures this.engine == engine && this.seed == seed && steps == 0
    {
      this.engine := engine;
      this.seed := seed;
      steps := 0;
    }

    /** Reseeds the engine and zeroes the draw counter. */
    method Reset(seed: Word32)
      modifies this
      ensures this.seed == seed && steps == 0
    {
      this.seed := seed;
      steps := 0;
    }

    /** The next output: the one at position `Steps()` of the seeded stream. */
    method Next() returns (r: Word32)
      modifies this
      ensures r == engine(seed, old(steps))
      ensures seed == old(seed) && steps == old(steps) + 1
      ensures AsStream() == Draw(old(AsStream())).rest
    {
      r := engine(seed, steps);
      steps := steps + 1;
    }

    /** The number of outputs taken since the last seeding: the position of
        the remaining stream. */
    function Steps(): (n: nat)
      reads this
      ensures n == AsStream().pos
    {
      steps
    }

    /** The outputs this source has yet to produce. */
    function AsStream(): (s: Stream)
      reads this
      ensures s.engine == engine && s.seed == seed && s.pos == steps
    {
      Stream(engine, seed, steps)
    }
  }
}
