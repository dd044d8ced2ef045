/** The discovery table: which snapshot of a participant is kept. */
module Announces {
  import opened Base
  import opened Discovery

  /** A received ANNOUNCE: the peer it came through, its seq and its snapshot. */
  datatype Announce = Announce(peer: nat, sn: nat, snap: Snapshot)

  type Table = map<Guid, Announce>

  predicate IsStale(t: Table, a: Announce) {
    a.snap.participant in t && t[a.snap.participant].sn >= a.sn
  }

  function Learn(t: Table, a: Announce): Table {
    if IsStale(t, a) then t else t[a.snap.participant := a]
  }

  function LearnAll(t: Table, es: seq<Announce>): Table {
    if es == [] then t else Learn(LearnAll(t, es[..|es| - 1]), es[|es| - 1])
  }

  function At(t: Table, g: Guid): Option<Announce> {
    if g in t then Some(t[g]) else None
  }

  predicate About(a: Announce, g: Guid) { a.snap.participant == g }

  /** es[k] is newer than every announce of its participant before it. */
  ghost predicate FirstAt(es: seq<Announce>, k: int, g: Guid, a: Announce) {
    && 0 <= k < |es| && es[k] == a && About(a, g)
    && forall j | 0 <= j < k && About(es[j], g) :: es[j].sn < a.sn
  }

  /** `now` is the latest of what was known before and the announces received:
      nothing is newer, and among equals it is the one that came first. */
  ghost predicate Latest(before: Option<Announce>, es: seq<Announce>, g: Guid, now: Option<Announce>) {
    match now
    case None => before.None? && forall j | 0 <= j < |es| :: !About(es[j], g)
    case Some(a) =>
      && (forall j | 0 <= j < |es| && About(es[j], g) :: es[j].sn <= a.sn)
      && (before.Some? ==> before.value.sn <= a.sn)
      && if before.Some? && before.value.sn == a.sn then a == before.value else exists k :: FirstAt(es, k, g, a)
  }

  lemma LatestOther(before: Option<Announce>, es: seq<Announce>, g: Guid, now: Option<Announce>, a: Announce)
    requires Latest(before, es, g, now) && !About(a, g)
    ensures Latest(before, es + [a], g, now)
  {
    if now.Some? && !(before.Some? && before.value.sn == now.value.sn) {
      var k :| FirstAt(es, k, g, now.value);
      assert FirstAt(es + [a], k, g, now.value);
    }
  }

  lemma LatestStep(before: Option<Announce>, es: seq<Announce>, g: Guid, now: Option<Announce>, a: Announce)
    requires Latest(before, es, g, now) && About(a, g)
    ensures Latest(before, es + [a], g, if now.Some? && now.value.sn >= a.sn then now else Some(a))
  {
    var fs := es + [a];
    if now.Some? && now.value.sn >= a.sn {
      if !(before.Some? && before.value.sn == now.value.sn) {
        var k :| FirstAt(es, k, g, now.value);
        assert FirstAt(fs, k, g, now.value);
      }
    } else {
      assert FirstAt(fs, |es|, g, a);
    }
  }

  /** After any announces, in any order and with repeats, the table holds the
      first-received announce of highest seq, unless what it held before is as
      new. */
  lemma {:induction false} LatestWins(t: Table, es: seq<Announce>, g: Guid)
    ensures Latest(At(t, g), es, g, At(LearnAll(t, es), g))
  {
    hide Latest;
    if es == [] {
      LatestEmpty(At(t, g), g);
    } else {
      var pre, a := es[..|es| - 1], es[|es| - 1];
      LatestWins(t, pre, g);
      assert pre + [a] == es;
      if About(a, g) {
        LatestStep(At(t, g), pre, g, At(LearnAll(t, pre), g), a);
      } else {
        LatestOther(At(t, g), pre, g, At(LearnAll(t, pre), g), a);
      }
    }
  }

  lemma LatestEmpty(before: Option<Announce>, g: Guid)
    ensures Latest(before, [], g, before)
  {
  }

  // ---- does the order matter? ----

  ghost predicate IsTop(es: seq<Announce>, a: Announce) {
    a in es && forall b | b in es && About(b, a.snap.participant) :: b.sn <= a.sn
  }

  /** Announces of one participant's highest seq carry the same snapshot. */
  ghost predicate TopsAgree(es: seq<Announce>) {
    forall a, b | IsTop(es, a) && IsTop(es, b) :: About(b, a.snap.participant) ==> a.snap == b.snap
  }

  ghost predicate SameSet(es: seq<Announce>, fs: seq<Announce>) {
    forall a :: a in es <==> a in fs
  }

  ghost predicate SameSnapshots(t: Table, t': Table) {
    t.Keys == t'.Keys && forall g | g in t :: t[g].sn == t'[g].sn && t[g].snap == t'[g].snap
  }

  /** What is learned from nothing is a top announce of the run. */
  lemma LearnedIsTop(es: seq<Announce>, g: Guid)
    ensures match At(LearnAll(map[], es), g)
            case None => forall a | a in es :: !About(a, g)
            case Some(a) => IsTop(es, a) && About(a, g)
  {
    hide LearnAll;
    LatestWins(map[], es, g);
    forall a | a in es
      ensures exists k :: 0 <= k < |es| && es[k] == a
    {
    }
    match At(LearnAll(map[], es), g)
    case None =>
    case Some(a) =>
      var k :| FirstAt(es, k, g, a);
  }

  /** If equal seqs carry equal snapshots the table depends only on the set of
      announces received. */
  lemma SetDetermined(es: seq<Announce>, fs: seq<Announce>)
    requires SameSet(es, fs) && TopsAgree(es)
    ensures SameSnapshots(LearnAll(map[], es), LearnAll(map[], fs))
  {
    hide LearnAll, IsTop;
    var t, t' := LearnAll(map[], es), LearnAll(map[], fs);
    forall g: Guid
      ensures g in t <==> g in t'
      ensures g in t ==> t[g].sn == t'[g].sn && t[g].snap == t'[g].snap
    {
      LearnedIsTop(es, g);
      LearnedIsTop(fs, g);
      if g in t && g in t' {
        SameTops(es, fs, t[g], t'[g]);
      } else if g in t {
        TopIsIn(es, t[g]);
      } else if g in t' {
        TopIsIn(fs, t'[g]);
      }
    }
  }

  lemma TopIsIn(es: seq<Announce>, a: Announce)
    requires IsTop(es, a)
    ensures a in es
  {
  }

  lemma SameTops(es: seq<Announce>, fs: seq<Announce>, a: Announce, b: Announce)
    requires SameSet(es, fs) && IsTop(es, a) && IsTop(fs, b) && About(b, a.snap.participant)
    ensures IsTop(es, b) && a.sn == b.sn
  {
    assert b in es && a in fs;
  }

  /** If they do not, the order decides: the same set received in another order
      leaves another table. */
  lemma OrderDecides(es: seq<Announce>) returns (fs: seq<Announce>)
    requires !TopsAgree(es)
    ensures SameSet(es, fs) && !SameSnapshots(LearnAll(map[], es), LearnAll(map[], fs))
  {
    hide LearnAll, IsTop;
    var a, b :| IsTop(es, a) && IsTop(es, b) && About(b, a.snap.participant) && a.snap != b.snap;
    TopIsIn(es, a);
    TopIsIn(es, b);
    TopFirst(es, a);
    TopFirst(es, b);
    var g, t := a.snap.participant, LearnAll(map[], es);
    fs := if g in t && t[g].snap == a.snap then [b] + es else [a] + es;
  }

  /** A top announce received first stays. */
  lemma TopFirst(es: seq<Announce>, a: Announce)
    requires IsTop(es, a)
    ensures At(LearnAll(map[], [a] + es), a.snap.participant) == Some(a)
  {
    var fs, g := [a] + es, a.snap.participant;
    LatestWins(map[], fs, g);
    hide LearnAll;
    forall j | 0 <= j < |fs| && About(fs[j], g)
      ensures fs[j].sn <= a.sn
    {
      if j > 0 { assert fs[j] == es[j - 1] && es[j - 1] in es; }
    }
    assert fs[0] == a;
  }
}
