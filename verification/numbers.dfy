/** The two `Math` idioms the application applies to real numbers. */
module Numbers {
  /** `Math.floor(random * n)` for a value of `Math.random()`: an index into a list of n entries. */
  function RandomIndex(random: real, n: nat): (k: int)
    requires 0.0 <= random < 1.0
    ensures n > 0 ==> 0 <= k < n
  {
    var k := (random * n as real).Floor;
    assert n > 0 ==> random * n as real < n as real by {
      if n > 0 {
        assert (1.0 - random) * n as real > 0.0;
      }
    }
    k
  }

  /** `Math.round(x)`: the nearest integer, halves rounded up. */
  function Round(x: real): (r: int)
    ensures x - 0.5 < r as real <= x + 0.5
  {
    (x + 0.5).Floor
  }
}
