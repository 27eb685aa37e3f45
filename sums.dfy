/** Sums of a real-valued measure over a sequence, taken in sequence order,
    and the fact that the order does not matter: what makes the channel
    receive order in `Exec` irrelevant to the result. */
module Sums {

  /** f(s[0]) + f(s[1]) + ... + f(s[|s| - 1]), added left to right. */
  function SumOf<T>(s: seq<T>, f: T -> real): real
    decreases |s|
  {
    if |s| == 0 then 0.0 else SumOf(s[..|s| - 1], f) + f(s[|s| - 1])
  }

  /** Any one element can be taken as the last one added. */
  lemma {:induction false} SumOfRemove<T>(s: seq<T>, t: nat, f: T -> real)
    requires t < |s|
    ensures SumOf(s, f) == SumOf(s[..t] + s[t + 1..], f) + f(s[t])
    decreases |s|
  {
    var n := |s|;
    var rest := s[..t] + s[t + 1..];
    if t == n - 1 {
      assert rest == s[..n - 1];
    } else {
      var init := s[..n - 1];
      SumOfRemove(init, t, f);
      assert rest[..|rest| - 1] == init[..t] + init[t + 1..];
      assert rest[|rest| - 1] == s[n - 1];
    }
  }

  /** Two sequences holding the same elements, in any order, have the same
      sum. */
  lemma {:induction false} SumOfPermutation<T>(s: seq<T>, u: seq<T>, f: T -> real)
    requires multiset(s) == multiset(u)
    ensures SumOf(s, f) == SumOf(u, f)
    decreases |s|
  {
    assert |u| == |multiset(u)| == |multiset(s)| == |s|;
    var n := |s|;
    if n > 0 {
      var z := s[n - 1];
      assert z in multiset(u);
      var t :| 0 <= t < |u| && u[t] == z;
      var rest := u[..t] + u[t + 1..];
      assert u == u[..t] + [z] + u[t + 1..];
      assert s == s[..n - 1] + [z];
      assert multiset(s[..n - 1]) == multiset(s) - multiset{z};
      assert multiset(rest) == multiset(u) - multiset{z};
      SumOfRemove(u, t, f);
      SumOfPermutation(s[..n - 1], rest, f);
    }
  }
}
