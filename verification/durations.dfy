/** Go's time.Duration: a signed 64-bit count of nanoseconds whose arithmetic wraps. */
module Durations {

  const MinInt64: int := -0x8000_0000_0000_0000
  const MaxInt64: int := 0x7fff_ffff_ffff_ffff
  const TwoTo64: int := 0x1_0000_0000_0000_0000

  type Int64 = x: int | MinInt64 <= x <= MaxInt64

  /** time.Second, in nanoseconds. */
  const Second: Int64 := 1_000_000_000

  /** The largest whole number of seconds a Duration can hold. */
  const MaxSeconds: int := MaxInt64 / Second

  /** Two's-complement reduction of an exact product to 64 bits. */
  function Wrap64(x: int): (r: Int64)
    ensures (r - x) % TwoTo64 == 0
    ensures MinInt64 <= x <= MaxInt64 ==> r == x
  {
    var m := x % TwoTo64;
    if m > MaxInt64 then m - TwoTo64 else m
  }

  /** time.Duration(n) * time.Second. */
  function Seconds(n: Int64): (d: Int64)
    ensures (d - n * Second) % TwoTo64 == 0
    ensures -MaxSeconds <= n <= MaxSeconds ==> d == n * Second
  {
    Wrap64(n * Second)
  }

  /** Within the representable range the conversion loses nothing: whole seconds come back. */
  lemma SecondsRoundTrip(n: Int64)
    requires -MaxSeconds <= n <= MaxSeconds
    ensures Seconds(n) / Second == n
    ensures Seconds(n) % Second == 0
  {
    assert -MaxInt64 <= -MaxSeconds * Second <= n * Second <= MaxSeconds * Second <= MaxInt64;
  }

  /** Just beyond that range the product wraps once, to a negative duration: every TTL
      above MaxSeconds whose exact product stays below 2^64 nanoseconds comes back negative. */
  lemma SecondsWrapsPastRange(n: Int64)
    requires MaxSeconds < n <= TwoTo64 / Second
    ensures Seconds(n) < 0
    ensures Seconds(n) == n * Second - TwoTo64
  {
    assert MaxInt64 < n * Second < TwoTo64;
  }

  /** Further out the wrap is periodic: the largest TTL the API could report comes back negative too. */
  lemma SecondsOfMaxInt64()
    ensures Seconds(MaxInt64) < 0
  {
  }
}
