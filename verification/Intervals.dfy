/** The reassembler's coverage list: sorted, strictly separated byte intervals
    [begin, end), and its agreement with the set of bytes covered. */
module Intervals {
  import opened Base

  type Interval = (nat, nat)

  predicate Normal(ivs: seq<Interval>) {
    && (forall i | 0 <= i < |ivs| :: ivs[i].0 <= ivs[i].1)
    && (forall i, j | 0 <= i < j < |ivs| :: ivs[i].1 < ivs[j].0)
  }

  predicate Within(ivs: seq<Interval>, total: nat) {
    forall i | 0 <= i < |ivs| :: ivs[i].1 <= total
  }

  predicate Covers(ivs: seq<Interval>, x: nat) {
    exists i :: 0 <= i < |ivs| && ivs[i].0 <= x < ivs[i].1
  }

  /** The list with [begin, end) merged in. */
  function Merge(ivs: seq<Interval>, begin: nat, end: nat): seq<Interval>
    decreases |ivs|
  {
    if ivs == [] then [(begin, end)]
    else if ivs[0].1 < begin then [ivs[0]] + Merge(ivs[1..], begin, end)
    else if ivs[0].0 > end then [(begin, end)] + Merge(ivs[1..], ivs[0].0, ivs[0].1)
    else Merge(ivs[1..], Min(begin, ivs[0].0), Max(end, ivs[0].1))
  }

  lemma CoversCons(iv: Interval, ivs: seq<Interval>, x: nat)
    ensures Covers([iv] + ivs, x) <==> iv.0 <= x < iv.1 || Covers(ivs, x)
  {
    var all := [iv] + ivs;
    if Covers(ivs, x) {
      var i :| 0 <= i < |ivs| && ivs[i].0 <= x < ivs[i].1;
      assert all[i + 1] == ivs[i];
    }
    if iv.0 <= x < iv.1 { assert all[0] == iv; }
    if Covers(all, x) {
      var i :| 0 <= i < |all| && all[i].0 <= x < all[i].1;
      if i > 0 { assert ivs[i - 1] == all[i]; }
    }
  }

  lemma NormalCons(iv: Interval, ivs: seq<Interval>)
    requires Normal(ivs) && iv.0 <= iv.1 && forall i | 0 <= i < |ivs| :: iv.1 < ivs[i].0
    ensures Normal([iv] + ivs)
  {
    var all := [iv] + ivs;
    forall i, j | 0 <= i < j < |all|
      ensures all[i].1 < all[j].0
    {
      if i > 0 { assert all[i] == ivs[i - 1] && all[j] == ivs[j - 1]; }
    }
  }

  /** Merging keeps the normal form, and a lower bound and an upper bound on
      everything in the list. */
  lemma {:induction false} MergeNormal(ivs: seq<Interval>, begin: nat, end: nat, lo: int, total: nat)
    requires Normal(ivs) && Within(ivs, total) && begin <= end <= total
    requires lo < begin && forall i | 0 <= i < |ivs| :: lo < ivs[i].0
    ensures var m := Merge(ivs, begin, end);
            Normal(m) && Within(m, total) && forall i | 0 <= i < |m| :: lo < m[i].0
    decreases |ivs|
  {
    if ivs != [] {
      var rest := ivs[1..];
      assert forall i | 0 <= i < |rest| :: rest[i] == ivs[i + 1];
      if ivs[0].1 < begin {
        MergeNormal(rest, begin, end, ivs[0].1, total);
        NormalCons(ivs[0], Merge(rest, begin, end));
      } else if ivs[0].0 > end {
        MergeNormal(rest, ivs[0].0, ivs[0].1, end, total);
        NormalCons((begin, end), Merge(rest, ivs[0].0, ivs[0].1));
      } else {
        MergeNormal(rest, Min(begin, ivs[0].0), Max(end, ivs[0].1), lo, total);
      }
    }
  }

  /** Merging adds exactly the bytes of [begin, end). */
  lemma {:induction false} MergeCovers(ivs: seq<Interval>, begin: nat, end: nat, x: nat)
    requires Normal(ivs) && begin <= end
    ensures Covers(Merge(ivs, begin, end), x) <==> Covers(ivs, x) || begin <= x < end
    decreases |ivs|
  {
    if ivs == [] {
      CoversCons((begin, end), [], x);
      assert [(begin, end)] + [] == [(begin, end)];
    } else {
      var rest := ivs[1..];
      assert Normal(rest) by { assert forall i | 0 <= i < |rest| :: rest[i] == ivs[i + 1]; }
      assert ivs == [ivs[0]] + rest;
      CoversCons(ivs[0], rest, x);
      if ivs[0].1 < begin {
        MergeCovers(rest, begin, end, x);
        CoversCons(ivs[0], Merge(rest, begin, end), x);
      } else if ivs[0].0 > end {
        MergeCovers(rest, ivs[0].0, ivs[0].1, x);
        CoversCons((begin, end), Merge(rest, ivs[0].0, ivs[0].1), x);
      } else {
        MergeCovers(rest, Min(begin, ivs[0].0), Max(end, ivs[0].1), x);
      }
    }
  }

  /** The reassembler's completion test holds exactly when every byte is
      covered. */
  lemma CompleteIff(ivs: seq<Interval>, total: nat)
    requires Normal(ivs) && Within(ivs, total) && total > 0
    ensures ivs == [(0, total)] <==> forall x: nat | x < total :: Covers(ivs, x)
  {
    if ivs == [(0, total)] {
      forall x: nat | x < total
        ensures Covers(ivs, x)
      {
        assert ivs[0].0 <= x < ivs[0].1;
      }
    }
    if forall x: nat | x < total :: Covers(ivs, x) {
      assert Covers(ivs, 0);
      var k :| 0 <= k < |ivs| && ivs[k].0 <= 0 < ivs[k].1;
      assert ivs[0].0 <= ivs[k].0 && k == 0;
      var e := ivs[0].1;
      assert Covers(ivs, if e < total then e else 0);
      assert e == total;
      assert ivs[0].0 <= ivs[|ivs| - 1].0 <= ivs[|ivs| - 1].1 <= total && |ivs| == 1;
      assert ivs[0] == (0, total);
    }
  }

  /** The merge loop of `add_fragment`. */
  method MergeIn(ivs: seq<Interval>, begin: nat, end: nat) returns (merged: seq<Interval>)
    requires Normal(ivs) && begin <= end
    ensures merged == Merge(ivs, begin, end)
    ensures Normal(merged) && forall x: nat :: Covers(merged, x) <==> Covers(ivs, x) || begin <= x < end
  {
    merged := [];
    var curBegin, curEnd := begin, end;
    for k := 0 to |ivs|
      invariant merged + Merge(ivs[k..], curBegin, curEnd) == Merge(ivs, begin, end)
    {
      var iv := ivs[k];
      assert ivs[k..][0] == iv && ivs[k..][1..] == ivs[k + 1..];
      if iv.1 < curBegin {
        merged := merged + [iv];
      } else if iv.0 > curEnd {
        merged := merged + [(curBegin, curEnd)];
        curBegin, curEnd := iv.0, iv.1;
      } else {
        curBegin, curEnd := Min(curBegin, iv.0), Max(curEnd, iv.1);
      }
    }
    merged := merged + [(curBegin, curEnd)];
    var total := UpperBound(ivs, end);
    MergeNormal(ivs, begin, end, -1, total);
    forall x: nat
      ensures Covers(merged, x) <==> Covers(ivs, x) || begin <= x < end
    {
      MergeCovers(ivs, begin, end, x);
    }
  }

  lemma {:induction false} UpperBound(ivs: seq<Interval>, least: nat) returns (total: nat)
    ensures Within(ivs, total) && least <= total
    decreases |ivs|
  {
    if ivs == [] {
      total := least;
    } else {
      total := UpperBound(ivs[1..], Max(least, ivs[0].1));
      assert forall i | 1 <= i < |ivs| :: ivs[i] == ivs[1..][i - 1];
    }
  }
}
