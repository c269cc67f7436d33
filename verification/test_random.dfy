/**
 * The test runner's own random numbers (matrix/test/random.hpp): a seeded
 * 32-bit Mersenne Twister (ISO C++ [rand.eng.mers]) and two range helpers in
 * `size_t` (unsigned 64-bit) arithmetic. Each helper call takes exactly one
 * engine output.
 */
module TestRandom {
  import opened Randomness

  const SizeMod: nat := 0x1_0000_0000_0000_0000

  type Word64 = x: nat | x < 0x1_0000_0000_0000_0000

  /** `max_value - min_value + 1` in unsigned 64-bit arithmetic. */
  function Width(lo: Word64, hi: Word64): (w: Word64)
    ensures lo <= hi && hi - lo + 1 < SizeMod ==> w == hi - lo + 1
  {
    (hi - lo + 1) % SizeMod
  }

  /** `Get`'s value for engine output `x`: `lo + x % width`, wrapping. The
      width must not wrap to zero (`Get(0, SIZE_MAX)` divides by zero). */
  function GetValue(x: Word32, lo: Word64, hi: Word64): (r: Word64)
    requires Width(lo, hi) != 0
  {
    (lo + x % Width(lo, hi)) % SizeMod
  }

  /** For an ordered range the result lies in the closed range; a
      one-value range always gives that value. */
  lemma GetValueInRange(x: Word32, lo: Word64, hi: Word64)
    requires lo <= hi && Width(lo, hi) != 0
    ensures lo <= GetValue(x, lo, hi) <= hi
    ensures lo == hi ==> GetValue(x, lo, hi) == lo
  {
    assert hi - lo + 1 < SizeMod;
    assert x % Width(lo, hi) <= hi - lo;
  }

  class Random {
    var stream: Stream

    /** Seeds the engine. */
    constructor (engine: Engine, seed: Word32)
      ensures stream == Stream(engine, seed, 0)
    {
      stream := Stream(engine, seed, 0);
    }

    /** A number in [lo, hi] (for lo <= hi), from one engine output. */
    method Get(lo: Word64, hi: Word64) returns (r: Word64)
      requires Width(lo, hi) != 0
      modifies this
      ensures r == GetValue(Draw(old(stream)).value, lo, hi)
      ensures lo <= hi ==> lo <= r <= hi
      ensures stream == old(stream).(pos := old(stream).pos + 1)
    {
      var d := Draw(stream);
      r := GetValue(d.value, lo, hi);
      if lo <= hi {
        GetValueInRange(d.value, lo, hi);
      }
      stream := d.rest;
    }

    /** 1 with odds one in `count`: exactly when the engine output is a
        multiple of `count`; otherwise 0. */
    method Maybe(count: Word64) returns (r: nat)
      requires count != 0
      modifies this
      ensures r == 1 <==> Draw(old(stream)).value % count == 0
      ensures r == 0 || r == 1
      ensures stream == old(stream).(pos := old(stream).pos + 1)
    {
      var d := Draw(stream);
      r := if d.value % count == 0 then 1 else 0;
      stream := d.rest;
    }
  }
}
