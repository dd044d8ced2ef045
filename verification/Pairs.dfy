/** One reader's view of one writer while the answer to its NACK arrives: what
    each frame of the answer does to the track and to the writer's partials. */
module Pairs {
  import opened Base
  import opened Words
  import opened Frames
  import opened Writers
  import opened Systems
  import F = Fragments
  import I = Intervals
  import W = Window

  predicate IsData(p: Packet, w: Guid, sn: nat) {
    p.frame.Data? && p.frame.writer == w && p.frame.sn == sn
  }

  predicate IsFrag(p: Packet, w: Guid, sn: nat) {
    p.frame.DataFrag? && p.frame.writer == w && p.frame.sn == sn
  }

  ghost predicate GapSeen(seen: seq<Packet>) {
    exists k :: 0 <= k < |seen| && seen[k].frame.Gap?
  }

  /** The fragment lies in a partial of the sample that is not complete. */
  ghost predicate Absorbed(ps: map<F.Key, F.Partial>, key: F.Key, e: Sample, f: Frame)
    requires f.DataFrag?
  {
    && key in ps
    && (exists x: nat :: x < |e.payload| && !I.Covers(ps[key].intervals, x))
    && forall x: nat | f.offset <= x < f.offset + |f.chunk| :: I.Covers(ps[key].intervals, x)
  }

  /** Neither the sample's DATA frame nor its last missing fragment has arrived
      yet. */
  ghost predicate Pending(ps: map<F.Key, F.Partial>, w: Guid, e: Sample, seen: seq<Packet>) {
    && (forall k | 0 <= k < |seen| :: !IsData(seen[k], w, e.sn))
    && forall k | 0 <= k < |seen| && IsFrag(seen[k], w, e.sn) :: Absorbed(ps, (w, e.sn), e, seen[k].frame)
  }

  /** The plan of an answer: resend `want`, close the rest up to `end`. */
  ghost predicate PlanOk(t0: W.Track, want: seq<Sample>, end: nat) {
    && (forall e | e in want :: e.sn !in t0.got && t0.rx.last < e.sn <= t0.rx.last + 64 && e.sn > end)
    && (forall e, x | e in want && x in want :: e.sn == x.sn ==> e == x)
    && (end > 0 ==> t0.rx.last < end)
  }

  /** The base was a received seq and stayed where it was, or it was missing and
      so is the base now. */
  ghost predicate BaseKept(t0: W.Track, t: W.Track) {
    && (t.rx.last + 1 in t.got <==> t0.rx.last + 1 in t0.got)
    && (t0.rx.last + 1 in t0.got ==> t.rx.last == t0.rx.last)
  }

  /** Where the pair stands after the frames `seen`. */
  ghost predicate Progress(t0: W.Track, want: seq<Sample>, end: nat, w: Guid,
                           t: W.Track, ps: map<F.Key, F.Partial>, seen: seq<Packet>)
  {
    && t0.rx.last <= t.rx.last && t0.got <= t.got
    && (forall e | e in want :: e.sn in t.got || (e.sn > t.rx.last && Pending(ps, w, e, seen)))
    && (end == 0 ==> BaseKept(t0, t))
    && (end > 0 ==> if GapSeen(seen) then t.rx.last >= end else t.rx.last == t0.rx.last)
  }

  lemma NothingSeen(t0: W.Track, want: seq<Sample>, end: nat, w: Guid, ps: map<F.Key, F.Partial>)
    requires PlanOk(t0, want, end)
    ensures Progress(t0, want, end, w, t0, ps, [])
  {
  }

  lemma GapSeenSnoc(seen: seq<Packet>, p: Packet)
    ensures GapSeen(seen + [p]) <==> GapSeen(seen) || p.frame.Gap?
  {
    if GapSeen(seen) {
      var k :| 0 <= k < |seen| && seen[k].frame.Gap?;
      assert (seen + [p])[k].frame.Gap?;
    }
    if p.frame.Gap? { assert (seen + [p])[|seen|].frame.Gap?; }
  }

  /** Frames of other samples leave a pending sample pending. */
  lemma PendingOther(ps: map<F.Key, F.Partial>, ps': map<F.Key, F.Partial>, w: Guid, e: Sample, seen: seq<Packet>,
                     p: Packet)
    requires Pending(ps, w, e, seen) && !IsData(p, w, e.sn) && !IsFrag(p, w, e.sn)
    requires (w, e.sn) in ps ==> (w, e.sn) in ps' && ps'[(w, e.sn)] == ps[(w, e.sn)]
    ensures Pending(ps', w, e, seen + [p])
  {
    hide I.Covers;
    var all := seen + [p];
    assert forall k | 0 <= k < |seen| :: all[k] == seen[k];
  }

  /** A fragment that completes nothing leaves its sample pending. */
  lemma PendingAbsorbs(ps: map<F.Key, F.Partial>, ps': map<F.Key, F.Partial>, w: Guid, e: Sample, seen: seq<Packet>,
                       p: Packet)
    requires Pending(ps, w, e, seen) && IsFrag(p, w, e.sn)
    requires Absorbed(ps', (w, e.sn), e, p.frame)
    requires (w, e.sn) in ps ==>
               forall x: nat :: I.Covers(ps[(w, e.sn)].intervals, x) ==> I.Covers(ps'[(w, e.sn)].intervals, x)
    ensures Pending(ps', w, e, seen + [p])
  {
    hide I.Covers;
    var all := seen + [p];
    assert forall k | 0 <= k < |seen| :: all[k] == seen[k];
  }

  // ---- the track under one frame ----

  lemma BaseBit(rx: W.Rx, got: set<nat>)
    requires W.Pictures(rx, got)
    ensures Bit(rx.window, 0) <==> rx.last + 1 in got
  {
    assert Bit(rx.window, 0) <==> rx.last + 1 + 0 in got;
  }

  /** The base itself arrives: the baseline moves to just below the next missing
      seq. */
  lemma BaseArrives(t: W.Track)
    requires W.TrackInv(t)
    ensures var t' := W.OnData(t, t.rx.last + 1);
            && t'.got == t.got + {t.rx.last + 1} && t'.rx.last > t.rx.last
            && t'.rx.last + 1 !in t'.got
            && forall s | t.rx.last < s <= t'.rx.last :: s in t'.got
  {
    W.NextIsSlide(t);
    var got := t.got;
    var next := W.Rx(t.rx.last + 1, Shr(t.rx.window, 1));
    assert W.Pictures(next, got) by { W.ShiftPictures(t.rx, got, 1); }
    hide W.OnData, W.Enqueue, W.TrackInv, W.Pictures, W.Slide, Shr, Bit;
    W.SlidePictures(next, got);
    BaseBit(W.Slide(next), got);
  }

  /** A seq of the window above the base arrives: the baseline stays. */
  lemma AboveBaseArrives(t: W.Track, sn: nat)
    requires W.TrackInv(t) && t.rx.last + 1 < sn <= t.rx.last + 64
    ensures var t' := W.OnData(t, sn);
            t'.got == t.got + {sn} && t'.rx.last == t.rx.last
  {
    hide W.TrackInv;
    W.DataKeeps(t, sn);
  }

  /** A retransmitted sample of the round: it is received now, the baseline only
      moved over receipts, and a base once received stays. */
  lemma ResentArrives(t0: W.Track, t: W.Track, sn: nat)
    requires W.TrackInv(t) && t0.rx.last <= t.rx.last && t0.got <= t.got
    requires t0.rx.last < sn <= t0.rx.last + 64 && sn !in t0.got
    requires sn in t.got || sn > t.rx.last
    ensures var t' := W.OnData(t, sn);
            && sn in t'.got && t.got <= t'.got && t.rx.last <= t'.rx.last
            && (forall s | t.rx.last < s <= t'.rx.last :: s in t'.got)
            && (BaseKept(t0, t) ==> BaseKept(t0, t'))
            && (sn > t.rx.last + 1 ==> t'.rx.last == t.rx.last)
  {
    hide W.OnData, W.TrackInv;
    if sn <= t.rx.last {
      OldArrives(t, sn);
    } else if sn == t.rx.last + 1 {
      BaseArrives(t);
    } else {
      AboveBaseArrives(t, sn);
    }
  }

  lemma OldArrives(t: W.Track, sn: nat)
    requires sn <= t.rx.last
    ensures W.OnData(t, sn).rx == t.rx && W.OnData(t, sn).got == t.got
  {
  }

  // ---- progress under one frame ----

  lemma SampleProgress(t0: W.Track, want: seq<Sample>, end: nat, w: Guid, t: W.Track,
                       ps: map<F.Key, F.Partial>, ps': map<F.Key, F.Partial>, seen: seq<Packet>, p: Packet, e: Sample)
    requires PlanOk(t0, want, end) && W.TrackInv(t) && Progress(t0, want, end, w, t, ps, seen)
    requires e in want && (IsData(p, w, e.sn) || IsFrag(p, w, e.sn))
    requires forall k | k in ps && k != (w, e.sn) :: k in ps' && ps'[k] == ps[k]
    ensures Progress(t0, want, end, w, W.OnData(t, e.sn), ps', seen + [p])
  {
    hide W.OnData, W.TrackInv, Pending;
    var t' := W.OnData(t, e.sn);
    ResentArrives(t0, t, e.sn);
    forall x | x in want
      ensures x.sn in t'.got || (x.sn > t'.rx.last && Pending(ps', w, x, seen + [p]))
    {
      if x.sn !in t'.got {
        PendingOther(ps, ps', w, x, seen, p);
      }
    }
    GapSeenSnoc(seen, p);
  }

  lemma PieceProgress(t0: W.Track, want: seq<Sample>, end: nat, w: Guid, t: W.Track,
                      ps: map<F.Key, F.Partial>, ps': map<F.Key, F.Partial>, seen: seq<Packet>, p: Packet, e: Sample)
    requires PlanOk(t0, want, end) && Progress(t0, want, end, w, t, ps, seen)
    requires e in want && IsFrag(p, w, e.sn) && Absorbed(ps', (w, e.sn), e, p.frame)
    requires (w, e.sn) in ps ==>
               forall x: nat :: I.Covers(ps[(w, e.sn)].intervals, x) ==> I.Covers(ps'[(w, e.sn)].intervals, x)
    requires forall k | k in ps && k != (w, e.sn) :: k in ps' && ps'[k] == ps[k]
    ensures Progress(t0, want, end, w, t, ps', seen + [p])
  {
    hide Absorbed, Pending, I.Covers;
    forall x | x in want && x.sn !in t.got
      ensures x.sn > t.rx.last && Pending(ps', w, x, seen + [p])
    {
      if x.sn == e.sn {
        PendingAbsorbs(ps, ps', w, e, seen, p);
      } else {
        PendingOther(ps, ps', w, x, seen, p);
      }
    }
    GapSeenSnoc(seen, p);
  }

  lemma GapProgress(t0: W.Track, want: seq<Sample>, end: nat, w: Guid, t: W.Track, t': W.Track,
                    ps: map<F.Key, F.Partial>, seen: seq<Packet>, p: Packet)
    requires PlanOk(t0, want, end) && Progress(t0, want, end, w, t, ps, seen)
    requires p.frame.Gap? && end > 0
    requires t'.got == t.got && t'.rx.last == Max(end, t.rx.last)
    ensures Progress(t0, want, end, w, t', ps, seen + [p])
  {
    hide Pending;
    forall x | x in want && x.sn !in t.got
      ensures x.sn > t'.rx.last && Pending(ps, w, x, seen + [p])
    {
      PendingOther(ps, ps, w, x, seen, p);
    }
    GapSeenSnoc(seen, p);
  }

  // ---- when everything has arrived ----

  /** Once every fragment of a tiling has been seen, or the DATA frame, nothing
      is pending. */
  lemma AllSeen(ps: map<F.Key, F.Partial>, w: Guid, e: Sample, seen: seq<Packet>, src: Host, dst: Host, fs: seq<Frame>)
    requires forall k | 0 <= k < |fs| :: Packet(src, dst, fs[k]) in seen
    requires (|fs| == 1 && fs[0].Data? && fs[0].writer == w && fs[0].sn == e.sn) ||
             (e.payload != [] && F.Tiles(fs, 0, e.payload) &&
              forall k | 0 <= k < |fs| :: fs[k].DataFrag? && fs[k].writer == w && fs[k].sn == e.sn)
    ensures !Pending(ps, w, e, seen)
  {
    hide I.Covers;
    var first := Seen(seen, Packet(src, dst, fs[0]));
    if fs[0].Data? {
      assert IsData(seen[first], w, e.sn);
    } else if Pending(ps, w, e, seen) {
      assert IsFrag(seen[first], w, e.sn);
      forall x: nat | x < |e.payload|
        ensures I.Covers(ps[(w, e.sn)].intervals, x)
      {
        var k := F.TilesCover(fs, 0, e.payload, x);
        var at := Seen(seen, Packet(src, dst, fs[k]));
        assert IsFrag(seen[at], w, e.sn);
      }
    }
  }

  lemma Seen(ps: seq<Packet>, p: Packet) returns (k: nat)
    requires p in ps
    ensures k < |ps| && ps[k] == p
  {
    k :| 0 <= k < |ps| && ps[k] == p;
  }
}
