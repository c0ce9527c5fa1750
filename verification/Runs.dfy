/** One fact about runs: a property that each step keeps exactly when the step is harmless
    holds throughout exactly when every step is. */
module Runs {
  lemma {:induction false} StaysIff(good: seq<bool>, bad: seq<bool>, m: nat, n: nat)
    requires m <= n < |good| == |bad| + 1 && good[m]
    requires forall i :: m <= i < |bad| && good[i] ==> (good[i + 1] <==> !bad[i])
    ensures (forall i :: m <= i <= n ==> good[i]) <==> (forall i :: m <= i < n ==> !bad[i])
  {
    if m < n {
      StaysIff(good, bad, m, n - 1);
      assert good[n - 1] ==> (good[n - 1 + 1] <==> !bad[n - 1]);
    }
  }
}
