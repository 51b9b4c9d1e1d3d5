/** Sums over the threads of a protocol. */
module Tally {

  function Sum<T>(ts: seq<T>, weight: T -> nat): nat {
    if ts == [] then 0 else weight(ts[0]) + Sum(ts[1..], weight)
  }

  lemma {:induction false} SumUpdate<T>(ts: seq<T>, weight: T -> nat, i: nat, t: T)
    requires i < |ts|
    ensures Sum(ts[i := t], weight) == Sum(ts, weight) - weight(ts[i]) + weight(t)
    ensures weight(ts[i]) <= Sum(ts, weight)
  {
    if i == 0 {
      assert ts[i := t][1..] == ts[1..];
    } else {
      assert ts[i := t][1..] == ts[1..][i - 1 := t];
      SumUpdate(ts[1..], weight, i - 1, t);
    }
  }

  lemma {:induction false} TwoOf<T>(ts: seq<T>, weight: T -> nat, i: nat, j: nat)
    requires i < j < |ts|
    ensures weight(ts[i]) + weight(ts[j]) <= Sum(ts, weight)
  {
    if i == 0 {
      SumUpdate(ts[1..], weight, j - 1, ts[j]);
    } else {
      TwoOf(ts[1..], weight, i - 1, j - 1);
    }
  }

  lemma {:induction false} SomeOf<T>(ts: seq<T>, weight: T -> nat)
    requires Sum(ts, weight) > 0
    ensures exists i :: 0 <= i < |ts| && weight(ts[i]) > 0
  {
    if weight(ts[0]) == 0 {
      SomeOf(ts[1..], weight);
      var i :| 0 <= i < |ts[1..]| && weight(ts[1..][i]) > 0;
      assert weight(ts[i + 1]) > 0;
    }
  }
}
