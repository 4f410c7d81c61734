/** The host's random source, `game.random.generate()`, injected as an
    infinite stream of draws in [0, 1) together with a count of how many
    draws have been taken. */
module Rng {

  /** One value returned by `generate()`. */
  type Draw = r: real | 0.0 <= r < 1.0

  class Random {
    /** The values `generate()` returns, in order. */
    const stream: nat -> Draw
    /** How many values have been taken so far. */
    var consumed: nat

    constructor (stream: nat -> Draw)
      ensures this.stream == stream && consumed == 0
    {
      this.stream := stream;
      consumed := 0;
    }

    /** `generate()`: the next draw of the stream. */
    method Generate() returns (r: Draw)
      modifies this
      ensures r == stream(old(consumed))
      ensures consumed == old(consumed) + 1
    {
      r := stream(consumed);
      consumed := consumed + 1;
    }
  }

  /** A draw scales n into [0, n], and below n when n is positive. */
  lemma {:induction false} ScaledBelow(r: Draw, n: nat)
    ensures 0.0 <= r * n as real <= n as real
    ensures n > 0 ==> r * n as real < n as real
  {
    if n > 0 {
      var m := n - 1;
      ScaledBelow(r, m);
      var below := r * m as real;
      assert r * n as real == below + r;
    }
  }

  /** `Math.floor(r * n)`: the index a draw selects among n choices. */
  function ChoiceIndex(r: Draw, n: nat): (j: nat)
    requires n > 0
    ensures j < n
    ensures j as real <= r * n as real < j as real + 1.0
  {
    ScaledBelow(r, n);
    (r * n as real).Floor
  }
}
