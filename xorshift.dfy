/**
 * The xorshift128 generator that drives the synthetic game trees of
 * fuzz/fuzz_targets/to_completion.rs. Its four state words are Rust
 * `Wrapping<u32>`s, modelled as `bv32`: shifts drop the bits pushed out and
 * xors are exact, so no operation can overflow.
 */
module XorShift {

  /** The four state words `x`, `y`, `z`, `w`. */
  datatype RngState = RngState(x: bv32, y: bv32, z: bv32, w: bv32)

  /** The one state a xorshift generator must never be in: it maps to itself. */
  const ZERO: RngState := RngState(0, 0, 0, 0)

  /** The seed used in place of 0. */
  const DEFAULT_SEED: bv32 := 0xBAD_5EED

  /** `from_seed`: every state word is the seed, 0 being replaced by `DEFAULT_SEED`. */
  function SeedState(seed: bv32): (s: RngState)
    ensures s.x == s.y == s.z == s.w
    ensures s.x == (if seed == 0 then DEFAULT_SEED else seed)
    ensures s != ZERO
  {
    var word := if seed == 0 then DEFAULT_SEED else seed;
    RngState(word, word, word, word)
  }

  /** The new last word `next_u32` computes from the first word `x` and the last word `w`. */
  function Mix(x: bv32, w: bv32): bv32 {
    var t := x ^ (x << 11);
    w ^ (w >> 19) ^ (t ^ (t >> 8))
  }

  /** The state after one `next_u32`: the words move one place towards `x`; the value returned is the new `w`. */
  function Next(s: RngState): RngState {
    RngState(s.y, s.z, s.w, Mix(s.x, s.w))
  }

  /** With `w == 0`, the new word is 0 only for `x == 0`. */
  lemma MixOfZero(x: bv32)
    ensures Mix(x, 0) == 0 ==> x == 0
  {
  }

  /** Only the all-zero state steps to the all-zero state, so a seeded generator never reaches it. */
  lemma NextKeepsNonZero(s: RngState)
    requires s != ZERO
    ensures Next(s) != ZERO
  {
    if s.y == 0 && s.z == 0 && s.w == 0 {
      MixOfZero(s.x);
    }
  }

  /** `XorShiftRng`: the generator, whose state words `next_u32` shifts in place. */
  class XorShiftRng {
    var x: bv32
    var y: bv32
    var z: bv32
    var w: bv32

    ghost function State(): RngState
      reads this
    {
      RngState(x, y, z, w)
    }

    /** The generator's invariant: it is never in the all-zero state. */
    ghost predicate Valid()
      reads this
    {
      State() != ZERO
    }

    /** `XorShiftRng::from_seed`. */
    constructor FromSeed(seed: bv32)
      ensures Valid() && State() == SeedState(seed)
    {
      var word := if seed == 0 then DEFAULT_SEED else seed;
      x, y, z, w := word, word, word, word;
    }

    /** `next_u32`: moves every word one place along and returns the new last word. */
    method NextU32() returns (r: bv32)
      requires Valid()
      modifies this
      ensures Valid() && State() == Next(old(State()))
      ensures r == w
    {
      NextKeepsNonZero(State());
      x, y, z, w := y, z, w, Mix(x, w);
      r := w;
    }
  }
}
