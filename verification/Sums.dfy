/** Sums of ranks over threads. */
module Sums {
  function Sum(s: seq<nat>): nat { if s == [] then 0 else Sum(s[..|s| - 1]) + s[|s| - 1] }

  lemma {:induction false} SumFalls(s: seq<nat>, s': seq<nat>)
    requires |s'| == |s| && forall i :: 0 <= i < |s| ==> s'[i] <= s[i]
    ensures Sum(s') <= Sum(s)
    ensures (exists i :: 0 <= i < |s| && s'[i] < s[i]) ==> Sum(s') < Sum(s)
    ensures s' != s ==> Sum(s') < Sum(s)
  {
    if s != [] {
      var last := |s| - 1;
      SumFalls(s[..last], s'[..last]);
      if s'[last] == s[last] && exists i :: 0 <= i < |s| && s'[i] < s[i] {
        var i :| 0 <= i < |s| && s'[i] < s[i];
        assert s'[..last][i] < s[..last][i];
      }
    }
  }

  lemma {:induction false} SumUpdate(s: seq<nat>, i: nat, v: nat)
    requires i < |s|
    ensures Sum(s[i := v]) == Sum(s) - s[i] + v
  {
    var last := |s| - 1;
    if i == last {
      assert s[i := v][..last] == s[..last];
    } else {
      assert s[i := v][..last] == s[..last][i := v];
      SumUpdate(s[..last], i, v);
    }
  }
}
