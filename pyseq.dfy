/** Python's list slicing `xs[start:stop]` (step 1), with negative and out-of-range bounds. */
module PySeq {
  import opened Wrappers

  /**
   * The position a slice bound stands for in a list of length `n`: a missing
   * bound is `dflt`, a negative one counts from the end, and the result is
   * clamped to `0..n` (so a slice never raises an index error).
   */
  function SliceBound(b: Option<int>, dflt: nat, n: nat): (p: nat)
    requires dflt <= n
    ensures p <= n
    ensures b.None? ==> p == dflt
    ensures b.Some? && 0 <= b.value <= n ==> p == b.value
    ensures b.Some? && b.value > n ==> p == n
    ensures b.Some? && b.value < 0 && 0 <= n + b.value ==> p == n + b.value
    ensures b.Some? && n + b.value < 0 ==> p == 0
  {
    match b
    case None => dflt
    case Some(i) =>
      if i < 0 then (if i + n < 0 then 0 else i + n)
      else if i > n then n
      else i
  }

  /** `xs[start:stop]`: the elements from the start bound up to, not including, the stop bound. */
  function Slice<T>(xs: seq<T>, start: Option<int>, stop: Option<int>): (r: seq<T>)
    ensures var lo, hi := SliceBound(start, 0, |xs|), SliceBound(stop, |xs|, |xs|);
      && |r| == (if lo < hi then hi - lo else 0)
      && forall k :: 0 <= k < |r| ==> r[k] == xs[lo + k]
  {
    var lo, hi := SliceBound(start, 0, |xs|), SliceBound(stop, |xs|, |xs|);
    if lo < hi then xs[lo..hi] else []
  }

  /** `xs[-1]`: the last element. */
  function Last<T>(xs: seq<T>): T
    requires |xs| > 0
  {
    xs[|xs| - 1]
  }
}
