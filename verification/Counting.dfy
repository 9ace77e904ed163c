/** Counting the elements of a sequence. */
module Counting {
  /** How many elements equal `t`. */
  function Tally<T(==)>(ts: seq<T>, t: T): nat {
    if ts == [] then 0 else Tally(ts[..|ts| - 1], t) + if ts[|ts| - 1] == t then 1 else 0
  }

  lemma {:induction false} TallySet<T>(ts: seq<T>, i: nat, x: T, t: T)
    requires i < |ts|
    ensures Tally(ts[i := x], t) + (if ts[i] == t then 1 else 0) == Tally(ts, t) + if x == t then 1 else 0
    decreases ts
  {
    var n := |ts| - 1;
    if i == n {
      assert ts[i := x][..n] == ts[..n];
    } else {
      assert ts[i := x][..n] == ts[..n][i := x];
      TallySet(ts[..n], i, x, t);
    }
  }

  lemma {:induction false} TallyNone<T>(ts: seq<T>, t: T)
    ensures Tally(ts, t) == 0 <==> t !in ts
    decreases ts
  {
    if ts != [] {
      var n := |ts| - 1;
      TallyNone(ts[..n], t);
      assert ts == ts[..n] + [ts[n]];
    }
  }
}
