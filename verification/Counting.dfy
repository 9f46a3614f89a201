// Counting true flags.
module Counting {
  function Count(flags: seq<bool>): nat {
    if flags == [] then
      0
    else
      Count(flags[..|flags| - 1]) + if flags[|flags| - 1] then 1 else 0
  }

  lemma {:induction false} CountIsCardinality(flags: seq<bool>)
    ensures Count(flags) == |set i | 0 <= i < |flags| && flags[i]|
  {
    if flags != [] {
      var n := |flags| - 1;
      CountIsCardinality(flags[..n]);
      var front := set i | 0 <= i < n && flags[..n][i];
      assert (set i | 0 <= i < |flags| && flags[i]) == front + if flags[n] then {n} else {};
    }
  }

  lemma CountOne(flag: bool)
    ensures Count([flag]) == if flag then 1 else 0
  {
    assert [flag][..0] == [];
  }

  lemma {:induction false} CountAppend(xs: seq<bool>, ys: seq<bool>)
    ensures Count(xs + ys) == Count(xs) + Count(ys)
    decreases |ys|
  {
    if ys == [] {
      assert xs + ys == xs;
    } else {
      CountAppend(xs, ys[..|ys| - 1]);
      assert (xs + ys)[..|xs + ys| - 1] == xs + ys[..|ys| - 1];
    }
  }

  // Flags that split into two disjoint kinds.
  lemma {:induction false} CountSplit(all: seq<bool>, xs: seq<bool>, ys: seq<bool>)
    requires |all| == |xs| == |ys|
    requires forall i | 0 <= i < |all| :: !(xs[i] && ys[i]) && (all[i] <==> xs[i] || ys[i])
    ensures Count(all) == Count(xs) + Count(ys)
    decreases |all|
  {
    if all != [] {
      var n := |all| - 1;
      CountSplit(all[..n], xs[..n], ys[..n]);
    }
  }

  lemma {:induction false} CountZero(flags: seq<bool>)
    ensures Count(flags) == 0 <==> forall i | 0 <= i < |flags| :: !flags[i]
  {
    if flags != [] {
      var n := |flags| - 1;
      CountZero(flags[..n]);
      assert forall i | 0 <= i < n :: flags[i] == flags[..n][i];
    }
  }
}
