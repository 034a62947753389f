/** Lists of free entries kept inside the array they are entries of: each holds the index of the next. */
module FreeList {

  /** (uint32_t)-1, SIZE_MAX: no entry. */
  const NIL: int := -1

  /** What the i-th free entry holds: the next one. */
  function NextOf(free: seq<nat>, i: nat): int
  {
    if i + 1 < |free| then free[i + 1] else NIL
  }

  /** All entries of an array of n, in order. */
  function Identity(n: nat): (r: seq<nat>)
    ensures |r| == n && forall i :: 0 <= i < n ==> r[i] == i
  {
    seq(n, i => i)
  }
}
