/** Circular buffers: the elements between a read index and a write index. */
module Ring {
  function Next(i: nat, size: nat): nat { if i + 1 >= size then 0 else i + 1 }

  /** The slot `n` places after `i`, for `n` up to the size of the ring. */
  function At(i: nat, n: nat, size: nat): nat { if i + n >= size then i + n - size else i + n }

  /** The `n` elements from slot `i` on. */
  function Held<T>(ring: seq<T>, i: nat, n: nat): seq<T>
    requires i < |ring| && n <= |ring|
  {
    seq(n, k requires 0 <= k < n => ring[At(i, k, |ring|)])
  }

  /** Writing the slot behind the elements held leaves them alone, and appends to them once it
      is counted. */
  lemma {:induction false} HeldSet<T>(ring: seq<T>, i: nat, n: nat, x: T)
    requires i < |ring| && n < |ring|
    ensures Held(ring[At(i, n, |ring|) := x], i, n) == Held(ring, i, n)
    ensures Held(ring[At(i, n, |ring|) := x], i, n + 1) == Held(ring, i, n) + [x]
  {
  }

  /** Advancing the read index drops the first element. */
  lemma {:induction false} HeldNext<T>(ring: seq<T>, i: nat, n: nat)
    requires i < |ring| && 0 < n <= |ring|
    ensures Held(ring, i, n) == [ring[i]] + Held(ring, Next(i, |ring|), n - 1)
  {
  }
}
