/** Scripts of system-call results: which of them a call used up. */
module Script {
  /** Does `op` occur among the entries of the script from `i` up to `j`? */
  predicate Uses<T(==)>(script: seq<T>, op: T, i: nat, j: nat) {
    i <= j <= |script| && op in script[i..j]
  }

  lemma {:induction false} UsesNone<T>(script: seq<T>, op: T, i: nat)
    ensures !Uses(script, op, i, i)
  {
  }

  lemma {:induction false} UsesOne<T>(script: seq<T>, op: T, i: nat)
    requires i < |script|
    ensures Uses(script, op, i, i + 1) <==> script[i] == op
  {
    assert script[i..i + 1] == [script[i]];
  }

  lemma {:induction false} UsesJoin<T>(script: seq<T>, op: T, i: nat, j: nat, k: nat)
    requires i <= j <= k <= |script|
    ensures Uses(script, op, i, k) <==> Uses(script, op, i, j) || Uses(script, op, j, k)
  {
    assert script[i..k] == script[i..j] + script[j..k];
  }

  lemma {:induction false} UsesIn<T>(script: seq<T>, op: T, i: nat, j: nat)
    requires op !in script
    ensures !Uses(script, op, i, j)
  {
  }
}
