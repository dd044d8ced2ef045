/** Finite sums over maps, and subsequences. */
module Sums {

  ghost function SumBy<K, V>(m: map<K, V>, f: V -> nat): nat {
    if m == map[] then 0
    else
      var k :| k in m;
      f(m[k]) + SumBy(m - {k}, f)
  }

  /** Any key can be summed first. */
  lemma {:induction false} SumSplit<K, V>(m: map<K, V>, f: V -> nat, k: K)
    requires k in m
    ensures SumBy(m, f) == f(m[k]) + SumBy(m - {k}, f)
    decreases |m|
  {
    var j :| j in m && SumBy(m, f) == f(m[j]) + SumBy(m - {j}, f);
    if j != k {
      SumSplit(m - {j}, f, k);
      SumSplit(m - {k}, f, j);
      assert m - {j} - {k} == m - {k} - {j};
    }
  }

  lemma SumUpdate<K, V>(m: map<K, V>, f: V -> nat, k: K, v: V)
    ensures SumBy(m[k := v], f) == f(v) + SumBy(m - {k}, f)
    ensures k in m ==> SumBy(m[k := v], f) + f(m[k]) == SumBy(m, f) + f(v)
    ensures k !in m ==> SumBy(m[k := v], f) == SumBy(m, f) + f(v)
  {
    SumSplit(m[k := v], f, k);
    assert m[k := v] - {k} == m - {k};
    if k in m { SumSplit(m, f, k); } else { assert m - {k} == m; }
  }

  /** A sum of pointwise sums is the sum of the sums. */
  lemma {:induction false} SumAdd<K, V>(m: map<K, V>, f: V -> nat, g: V -> nat, h: V -> nat)
    requires forall k | k in m :: f(m[k]) == g(m[k]) + h(m[k])
    ensures SumBy(m, f) == SumBy(m, g) + SumBy(m, h)
    decreases |m|
  {
    if m != map[] {
      var k :| k in m;
      SumSplit(m, f, k);
      SumSplit(m, g, k);
      SumSplit(m, h, k);
      SumAdd(m - {k}, f, g, h);
    }
  }

  lemma {:induction false} SumZero<K, V>(m: map<K, V>, f: V -> nat)
    requires forall k | k in m :: f(m[k]) == 0
    ensures SumBy(m, f) == 0
    decreases |m|
  {
    if m != map[] {
      var k :| k in m;
      SumSplit(m, f, k);
      SumZero(m - {k}, f);
    }
  }

  /** `a` is `b` with some elements left out. */
  ghost predicate SubSeq<T>(a: seq<T>, b: seq<T>)
    decreases |b|
  {
    || a == []
    || (b != [] && ((a[|a| - 1] == b[|b| - 1] && SubSeq(a[..|a| - 1], b[..|b| - 1])) || SubSeq(a, b[..|b| - 1])))
  }

  lemma {:induction false} SubSeqSnoc<T>(a: seq<T>, b: seq<T>, x: T)
    requires SubSeq(a, b)
    ensures SubSeq(a + [x], b + [x]) && SubSeq(a, b + [x])
  {
    assert (a + [x])[..|a|] == a && (b + [x])[..|b|] == b;
  }

  lemma {:induction false} SubSeqRefl<T>(a: seq<T>)
    ensures SubSeq(a, a)
  {
    if a != [] { SubSeqRefl(a[..|a| - 1]); }
  }

  lemma {:induction false} SubSeqTrans<T>(a: seq<T>, b: seq<T>, c: seq<T>)
    requires SubSeq(a, b) && SubSeq(b, c)
    ensures SubSeq(a, c)
    decreases |b| + |c|
  {
    if a != [] {
      var b1, c1 := b[..|b| - 1], c[..|c| - 1];
      if b[|b| - 1] == c[|c| - 1] && SubSeq(b1, c1) {
        if a[|a| - 1] == b[|b| - 1] && SubSeq(a[..|a| - 1], b1) {
          SubSeqTrans(a[..|a| - 1], b1, c1);
        } else {
          SubSeqTrans(a, b1, c1);
        }
      } else {
        SubSeqTrans(a, b, c1);
      }
    }
  }

  /** Leaving out one element. */
  lemma {:induction false} SubSeqDrop<T>(pre: seq<T>, x: T, post: seq<T>)
    ensures SubSeq(pre + post, pre + [x] + post)
    decreases |post|
  {
    if post == [] {
      SubSeqRefl(pre);
      SubSeqSnoc(pre, pre, x);
      assert pre + post == pre && pre + [x] + post == pre + [x];
    } else {
      var last := post[|post| - 1];
      SubSeqDrop(pre, x, post[..|post| - 1]);
      SubSeqSnoc(pre + post[..|post| - 1], pre + [x] + post[..|post| - 1], last);
      assert pre + post == pre + post[..|post| - 1] + [last];
      assert pre + [x] + post == pre + [x] + post[..|post| - 1] + [last];
    }
  }

  lemma {:induction false} SubSeqElements<T>(a: seq<T>, b: seq<T>)
    requires SubSeq(a, b)
    ensures forall x | x in a :: x in b
    decreases |b|
  {
    if a != [] {
      var b1 := b[..|b| - 1];
      if a[|a| - 1] == b[|b| - 1] && SubSeq(a[..|a| - 1], b1) {
        SubSeqElements(a[..|a| - 1], b1);
        assert a == a[..|a| - 1] + [a[|a| - 1]] && b == b1 + [b[|b| - 1]];
      } else {
        SubSeqElements(a, b1);
      }
    }
  }

  ghost predicate Distinct<T, K>(a: seq<T>, key: T -> K) {
    forall i, j | 0 <= i < j < |a| :: key(a[i]) != key(a[j])
  }

  lemma {:induction false} SubSeqDistinct<T, K>(a: seq<T>, b: seq<T>, key: T -> K)
    requires SubSeq(a, b) && Distinct(b, key)
    ensures Distinct(a, key)
    decreases |b|
  {
    if a != [] {
      var b1, a1 := b[..|b| - 1], a[..|a| - 1];
      if a[|a| - 1] == b[|b| - 1] && SubSeq(a1, b1) {
        SubSeqDistinct(a1, b1, key);
        SubSeqElements(a1, b1);
        forall i, j | 0 <= i < j < |a|
          ensures key(a[i]) != key(a[j])
        {
          if j == |a| - 1 {
            assert a1[i] in b1;
            var k :| 0 <= k < |b1| && b1[k] == a1[i];
            assert b[k] == a[i];
          } else {
            assert a1[i] == a[i] && a1[j] == a[j];
          }
        }
      } else {
        SubSeqDistinct(a, b1, key);
      }
    }
  }
}
