/**
 * The unit conversions two of the sources need: GasNow reports wei and the
 * bot floor-divides by 10^9; ETH Gas Station reports waits in minutes and the
 * bot multiplies by 60 and truncates to whole seconds.
 */
module Units {

  const WeiPerGwei: int := 1_000_000_000

  /** `g` is the whole number of gwei in `wei`, rounded down. */
  predicate InGweiBucket(g: int, wei: int) {
    g * WeiPerGwei <= wei < (g + 1) * WeiPerGwei
  }

  /** `int(wei // 1e9)`: wei to whole gwei, rounded toward minus infinity as Python's `//` does. */
  function GweiFromWei(wei: int): (g: int)
    ensures InGweiBucket(g, wei)
    ensures wei >= 0 ==> 0 <= g <= wei
  {
    wei / WeiPerGwei
  }

  /** The bucket determines the gwei value: no other integer satisfies the bound. */
  lemma GweiBucketUnique(g: int, wei: int)
    requires InGweiBucket(g, wei)
    ensures g == GweiFromWei(wei)
  {
  }

  /** A whole number of gwei expressed in wei converts back exactly. */
  lemma GweiFromWholeGwei(k: int)
    ensures GweiFromWei(k * WeiPerGwei) == k
  {
    GweiBucketUnique(k, k * WeiPerGwei);
  }

  /** Converting more wei never gives fewer gwei. */
  lemma GweiFromWeiMonotonic(a: int, b: int)
    requires a <= b
    ensures GweiFromWei(a) <= GweiFromWei(b)
  {
  }

  /** `s` is `x` with its fractional part dropped, toward zero, as Python's `int(x)` does. */
  predicate IsTruncation(s: int, x: real) {
    if x >= 0.0 then s as real <= x < s as real + 1.0
    else s as real - 1.0 < x <= s as real
  }

  /** Python's `int(x)` on a float: truncation toward zero. */
  function Truncate(x: real): (s: int)
    ensures IsTruncation(s, x)
    ensures (x >= 0.0) == (s >= 0) || s == 0
  {
    if x >= 0.0 then x.Floor else -((-x).Floor)
  }

  /** `int(minutes * 60)`: an ETH Gas Station wait in whole seconds. */
  function WaitSeconds(minutes: real): (s: int)
    ensures IsTruncation(s, 60.0 * minutes)
    ensures minutes >= 0.0 ==> s >= 0
  {
    Truncate(minutes * 60.0)
  }

  /** Truncation is the one integer within the bound. */
  lemma TruncationUnique(s: int, x: real)
    requires IsTruncation(s, x)
    ensures s == Truncate(x)
  {
    var t := Truncate(x);
    assert s as real - 1.0 < t as real < s as real + 1.0;
  }

  /** A wait of a whole number of minutes is exactly sixty times as many seconds. */
  lemma WholeMinutes(k: int)
    ensures WaitSeconds(k as real) == 60 * k
  {
    TruncationUnique(60 * k, 60.0 * (k as real));
  }

  /** Half a minute is thirty seconds; a fraction of a second is dropped. */
  lemma HalfMinute()
    ensures WaitSeconds(0.5) == 30
    ensures WaitSeconds(0.51) == 30
  {
    TruncationUnique(30, 30.0);
    TruncationUnique(30, 30.6);
  }
}
