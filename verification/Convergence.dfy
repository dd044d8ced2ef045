/** Repeated lossless rounds: when they move the baseline, how far, and the
    state in which they never do. */
module Convergence {
  import opened Base
  import opened Frames
  import opened Writers
  import opened Readers
  import opened Systems
  import opened Invariants
  import opened Pairs
  import opened Healing
  import W = Window

  ghost predicate Holds(c: Core, w: Guid) {
    w in c.writers && c.writers[w].state.history != []
  }

  /** The base of the NACK is a received seq and the writer has no GAP for it. */
  ghost predicate Stuck(c: Core, g: Guid, w: Guid)
    requires g in c.readers && w in c.writers
  {
    Track(c, g, w).rx.last + 1 in Track(c, g, w).got && GapTop(c, g, w) == 0
  }

  // ---- one round ----

  /** All that the rest needs to know of a round. */
  ghost predicate RoundDone(c: Core, c': Core, g: Guid, w: Guid, env: Env)
    requires g in c.readers && w in c.writers
  {
    && Ready(c', g, w, env) && c'.writers == c.writers
    && Clamp(c'.readers[g]) == Clamp(c.readers[g]) && c'.readers[g].birthUs == c.readers[g].birthUs
    && var t, t', end := Track(c, g, w), Track(c', g, w), GapTop(c, g, w);
    && t.rx.last <= t'.rx.last && t.got <= t'.got
    && (if end == 0 then BaseKept(t, t') else t'.rx.last >= end)
    && forall e | e in Wanted(c, g, w) :: e.sn in t'.got
  }

  lemma RoundEffect(c: Core, c': Core, g: Guid, w: Guid, env: Env)
    requires Ready(c, g, w, env) && IsRound(c, c', g, w, env)
    ensures RoundDone(c, c', g, w, env)
  {
    hide CoreInv, IsRound, Wanted, GapTop, Answer, TrackOf, Pending, Arriving, PlanOk;
    var seen := RoundArrives(c, c', g, w, env);
    ArrivingFacts(c, c', g, w, env, seen);
    if GapTop(c, g, w) > 0 {
      var gap := Packet(c.writers[w].host, c.readers[g].host, Gap(w, g, Track(c, g, w).rx.last + 1, GapTop(c, g, w)));
      AnswerIff(c, g, w, env, gap);
      var k := Seen(seen, gap);
      assert seen[k].frame.Gap?;
    }
    forall e | e in Wanted(c, g, w)
      ensures e.sn in Track(c', g, w).got
    {
      WantedArrives(c, c', g, w, env, seen, e);
    }
  }

  /** A published seq of the window that is neither received nor in the GAP is
      asked for and resent. */
  lemma Available(c: Core, g: Guid, w: Guid, sn: nat) returns (e: Sample)
    requires CoreInv(c) && g in c.readers && Holds(c, w) && sn <= c.writers[w].state.sn
    requires var t := Track(c, g, w); t.rx.last < sn <= t.rx.last + 64 && sn !in t.got && sn > GapTop(c, g, w)
    ensures e in Wanted(c, g, w) && e.sn == sn
  {
    hide CoreInv, Wanted, GapTop, TrackOf, WriterInv, Monotone, W.TrackInv, W.Pictures;
    PairFacts(c, g, w);
    GapTopIff(c, g, w, sn);
    var s := c.writers[w].state;
    FindContiguous(s.history, s.sn, sn);
    e := s.history[sn - (s.sn - |s.history|) - 1];
    WantedIff(c, g, w, e);
  }

  /** A lossless round moves the baseline if and only if the base was missing or
      the answer holds a GAP. */
  lemma RoundMovesIff(c: Core, c': Core, g: Guid, w: Guid, env: Env)
    requires Ready(c, g, w, env) && IsRound(c, c', g, w, env)
    requires Holds(c, w) && Track(c, g, w).rx.last < c.writers[w].state.sn
    ensures g in c'.readers
    ensures Track(c', g, w).rx.last > Track(c, g, w).rx.last <==> !Stuck(c, g, w)
  {
    hide CoreInv, IsRound, Wanted, GapTop, TrackOf;
    RoundEffect(c, c', g, w, env);
    GapTopIff(c, g, w, 0);
    var t := Track(c, g, w);
    if GapTop(c, g, w) == 0 && t.rx.last + 1 !in t.got {
      var e := Available(c, g, w, t.rx.last + 1);
    }
  }

  /** When the base is missing and nothing asked for is unavailable, the baseline
      passes the whole window or reaches the writer's seq, and the same holds of
      the next round. */
  lemma RoundReaches(c: Core, c': Core, g: Guid, w: Guid, env: Env)
    requires Ready(c, g, w, env) && IsRound(c, c', g, w, env) && Holds(c, w)
    requires Track(c, g, w).rx.last + 1 !in Track(c, g, w).got && GapTop(c, g, w) == 0
    ensures RoundDone(c, c', g, w, env)
    ensures Track(c', g, w).rx.last >= Min(Track(c, g, w).rx.last + 64, c.writers[w].state.sn)
    ensures Track(c', g, w).rx.last + 1 !in Track(c', g, w).got && GapTop(c', g, w) == 0
  {
    hide CoreInv, IsRound, Wanted, GapTop, TrackOf;
    RoundEffect(c, c', g, w, env);
    var t, t' := Track(c, g, w), Track(c', g, w);
    if t'.rx.last < Min(t.rx.last + 64, c.writers[w].state.sn) {
      var e := Available(c, g, w, t'.rx.last + 1);
    }
    GapTopIff(c, g, w, t.rx.last + 1);
    NoGapAfter(c, c', g, w, env, t.rx.last + 1);
  }

  /** Where a seq up to the new base will be sent, the next answer holds no GAP. */
  lemma NoGapAfter(c: Core, c': Core, g: Guid, w: Guid, env: Env, sn: nat)
    requires Ready(c, g, w, env) && Holds(c, w) && RoundDone(c, c', g, w, env) && sn <= Track(c', g, w).rx.last + 1
    requires !WillNeverSend(c.writers[w].state.history, sn, Clamp(c.readers[g]), c.readers[g].birthUs)
    ensures GapTop(c', g, w) == 0
  {
    hide CoreInv, Wanted, GapTop, TrackOf, WillNeverSend, WriterInv, W.TrackInv, W.Pictures;
    PairFacts(c, g, w);
    GapTopIff(c', g, w, 0);
    var s, r, end := c.writers[w].state, c.readers[g], GapTop(c', g, w);
    if end > 0 {
      NeverSentIsPrefix(s.history, s.sn, Clamp(r), r.birthUs, sn, end);
    }
  }

  // ---- many rounds ----

  ghost predicate Rounds(cs: seq<Core>, g: Guid, w: Guid, env: Env) {
    cs != [] && forall k | 0 < k < |cs| :: IsRound(cs[k - 1], cs[k], g, w, env)
  }

  lemma RoundsPrefix(cs: seq<Core>, g: Guid, w: Guid, env: Env)
    requires Rounds(cs, g, w, env) && |cs| > 1
    ensures Rounds(cs[..|cs| - 1], g, w, env) && IsRound(cs[|cs| - 2], cs[|cs| - 1], g, w, env)
  {
    hide IsRound;
  }

  /** Convergence: each round gains 64 seqs until the writer's seq is reached. */
  lemma {:induction false} Converges(cs: seq<Core>, g: Guid, w: Guid, env: Env)
    requires Rounds(cs, g, w, env) && Ready(cs[0], g, w, env) && Holds(cs[0], w)
    requires Track(cs[0], g, w).rx.last + 1 !in Track(cs[0], g, w).got && GapTop(cs[0], g, w) == 0
    ensures var c := cs[|cs| - 1];
            && Ready(c, g, w, env) && c.writers == cs[0].writers
            && Track(c, g, w).rx.last + 1 !in Track(c, g, w).got && GapTop(c, g, w) == 0
            && Track(c, g, w).rx.last >= Min(Track(cs[0], g, w).rx.last + 64 * (|cs| - 1), c.writers[w].state.sn)
    decreases |cs|
  {
    hide CoreInv, IsRound, Wanted, GapTop, TrackOf, Rounds;
    assert cs != [] by { RoundsSome(cs, g, w, env); }
    if |cs| > 1 {
      RoundsPrefix(cs, g, w, env);
      Converges(cs[..|cs| - 1], g, w, env);
      RoundReaches(cs[|cs| - 2], cs[|cs| - 1], g, w, env);
    }
  }

  lemma RoundsSome(cs: seq<Core>, g: Guid, w: Guid, env: Env)
    requires Rounds(cs, g, w, env)
    ensures cs != []
  {
  }

  /** A stuck pair stays as it is, however many rounds there are. */
  lemma StuckStays(c: Core, c': Core, g: Guid, w: Guid, env: Env)
    requires Ready(c, g, w, env) && IsRound(c, c', g, w, env) && Holds(c, w) && Stuck(c, g, w)
    ensures RoundDone(c, c', g, w, env)
    ensures Stuck(c', g, w) && Track(c', g, w).rx.last == Track(c, g, w).rx.last
  {
    hide CoreInv, IsRound, Wanted, GapTop, TrackOf, WillNeverSend;
    RoundEffect(c, c', g, w, env);
    GapTopIff(c', g, w, 0);
    GapTopIff(c, g, w, GapTop(c', g, w));
  }

  /** Without assuming anything of the base: every round gains at least one seq
      until the writer's seq is reached, or the pair is stuck by then. */
  lemma {:induction false} ConvergesOrSticks(cs: seq<Core>, g: Guid, w: Guid, env: Env)
    requires Rounds(cs, g, w, env) && Ready(cs[0], g, w, env) && Holds(cs[0], w)
    ensures var c := cs[|cs| - 1];
            && Ready(c, g, w, env) && c.writers == cs[0].writers
            && Track(cs[0], g, w).rx.last <= Track(c, g, w).rx.last
            && (Stuck(c, g, w) ||
                Track(c, g, w).rx.last >= Min(Track(cs[0], g, w).rx.last + |cs| - 1, c.writers[w].state.sn))
            && (Stuck(cs[0], g, w) ==> Stuck(c, g, w) && Track(c, g, w).rx.last == Track(cs[0], g, w).rx.last)
    decreases |cs|
  {
    hide CoreInv, IsRound, Wanted, GapTop, TrackOf, Rounds;
    assert cs != [] by { RoundsSome(cs, g, w, env); }
    if |cs| > 1 {
      RoundsPrefix(cs, g, w, env);
      ConvergesOrSticks(cs[..|cs| - 1], g, w, env);
      var pre, c := cs[|cs| - 2], cs[|cs| - 1];
      RoundEffect(pre, c, g, w, env);
      if Stuck(pre, g, w) {
        StuckStays(pre, c, g, w, env);
      } else if Track(pre, g, w).rx.last < pre.writers[w].state.sn {
        RoundMovesIff(pre, c, g, w, env);
      }
    }
  }

  // ---- the answer in the order it is sent ----

  /** The round in which the frames arrive as `handle_acknack` sends them: every
      resend, then the GAP. */
  ghost predicate IsOrderedRound(c: Core, c': Core, g: Guid, w: Guid, env: Env)
    requires g in c.readers && w in c.writers
  {
    exists pre: seq<Packet>, gap: Packet ::
      && gap.frame.Gap? && (forall p | p in pre :: !p.frame.Gap?)
      && (forall p :: p in pre + [gap] <==> p in Answer(c, g, w, env))
      && c' == ReceiveAll(c, pre + [gap], env)
  }

  /** In-order delivery with a GAP in the answer puts the baseline on the GAP's
      end, and the next base is a received seq if and only if the writer had
      published it and it was in the window: the GAP comes after the very resend
      it should have made contiguous. */
  lemma OrderedGapSticksIff(c: Core, c': Core, g: Guid, w: Guid, env: Env)
    requires Ready(c, g, w, env) && Holds(c, w) && IsOrderedRound(c, c', g, w, env)
    ensures var t, end := Track(c, g, w), GapTop(c, g, w);
            && g in c'.readers && end > 0 && Track(c', g, w).rx.last == end
            && (end + 1 in Track(c', g, w).got <==> end < Min(t.rx.last + 64, c.writers[w].state.sn))
  {
    hide CoreInv, Wanted, GapTop, Answer, HandleFrame, Arriving, TrackOf;
    var pre: seq<Packet>, gap: Packet :| gap.frame.Gap? && (forall p | p in pre :: !p.frame.Gap?)
      && (forall p :: p in pre + [gap] <==> p in Answer(c, g, w, env))
      && c' == ReceiveAll(c, pre + [gap], env);
    assert gap in pre + [gap];
    TheGap(c, g, w, env, gap);
    assert forall p | p in pre :: p in pre + [gap];
    AllArrive(c, g, w, env, pre);
    var c1 := ReceiveAll(c, pre, env);
    assert (pre + [gap])[..|pre|] == pre && (pre + [gap])[|pre|] == gap;
    assert c' == HandleFrame(c1, gap.src, gap.dst, gap.frame, env).0;
    ResendsArrived(c, c1, g, w, env, pre);
    GapComesLast(c, c1, g, w, env, gap);
  }

  /** So when the seq after the GAP had not been received before, as for every
      late-joining reader, the pair is stuck from then on. */
  lemma OrderedGapSticks(c: Core, c': Core, g: Guid, w: Guid, env: Env)
    requires Ready(c, g, w, env) && Holds(c, w) && IsOrderedRound(c, c', g, w, env)
    requires var t, end := Track(c, g, w), GapTop(c, g, w);
             end + 1 !in t.got && end < Min(t.rx.last + 64, c.writers[w].state.sn)
    ensures RoundDone(c, c', g, w, env) && Stuck(c', g, w)
  {
    hide CoreInv, Wanted, GapTop, Answer, TrackOf, WillNeverSend, RoundDone, ReceiveAll, WriterInv, W.TrackInv,
      W.Pictures;
    OrderedGapSticksIff(c, c', g, w, env);
    RoundEffect(c, c', g, w, env);
    GapTopIff(c, g, w, GapTop(c, g, w) + 1);
    NoGapAfter(c, c', g, w, env, GapTop(c, g, w) + 1);
  }

  /** After the resends and before the GAP. */
  lemma ResendsArrived(c: Core, c1: Core, g: Guid, w: Guid, env: Env, pre: seq<Packet>)
    requires Ready(c, g, w, env) && Holds(c, w) && Arriving(c, c1, g, w, env, pre) && GapTop(c, g, w) > 0
    requires forall p | p in pre :: !p.frame.Gap?
    requires forall p | p in Answer(c, g, w, env) && !p.frame.Gap? :: p in pre
    ensures CoreInv(c1) && g in c1.readers && c1.readers[g].host == c.readers[g].host
    ensures var t, t1, end := Track(c, g, w), Track(c1, g, w), GapTop(c, g, w);
            && t.rx.last < end && t1.rx.last == t.rx.last
            && (end + 1 in t1.got <==> end < Min(t.rx.last + 64, c.writers[w].state.sn))
  {
    hide CoreInv, Grows, Wanted, GapTop, Answer, Arriving, TrackOf, Pending, WillNeverSend, W.TrackInv;
    ArrivingFacts(c, c1, g, w, env, pre);
    var t, end := Track(c, g, w), GapTop(c, g, w);
    GapTopIff(c, g, w, end);
    GotBounds(c1, g, w, end + 1);
    if end < Min(t.rx.last + 64, c.writers[w].state.sn) && end + 1 !in t.got {
      var e := Available(c, g, w, end + 1);
      WantedArrives(c, c1, g, w, env, pre, e);
    }
  }

  lemma GotBounds(c: Core, g: Guid, w: Guid, sn: nat)
    requires CoreInv(c) && g in c.readers
    ensures var t := Track(c, g, w);
            sn in t.got ==> w in c.writers && sn <= t.rx.last + 64 && sn <= c.writers[w].state.sn
  {
    hide NeverDue, TableOk, HandoverOk;
    var r := c.readers[g];
    assert ReaderOk(c, r);
    TracksInv(r.state, w);
    if w in r.state.tracks {
      assert PairOk(c, r, w, r.state.tracks[w]);
      assert WriterOk(c.nowUs, c.writers[w]);
    }
  }

  lemma GapComesLast(c: Core, c1: Core, g: Guid, w: Guid, env: Env, gap: Packet)
    requires g in c.readers && w in c.writers && CoreInv(c1) && g in c1.readers
    requires c1.readers[g].host == c.readers[g].host
    requires GapTop(c, g, w) > Track(c, g, w).rx.last && Track(c1, g, w).rx.last == Track(c, g, w).rx.last
    requires gap.dst == c.readers[g].host && gap.frame == Gap(w, g, Track(c, g, w).rx.last + 1, GapTop(c, g, w))
    ensures var c' := HandleFrame(c1, gap.src, gap.dst, gap.frame, env).0;
            && g in c'.readers && Track(c', g, w).rx.last == GapTop(c, g, w)
            && Track(c', g, w).got == Track(c1, g, w).got
  {
    hide CoreInv, GapTop, TrackOf, HandleGap;
    GapEffect(c1, g, w, gap.frame);
  }

  lemma TheGap(c: Core, g: Guid, w: Guid, env: Env, gap: Packet)
    requires Ready(c, g, w, env) && gap in Answer(c, g, w, env) && gap.frame.Gap?
    ensures GapTop(c, g, w) > 0
    ensures gap == Packet(c.writers[w].host, c.readers[g].host, Gap(w, g, Track(c, g, w).rx.last + 1, GapTop(c, g, w)))
  {
    hide CoreInv, Wanted, GapTop, TrackOf, Answer, SendSample;
    AnswerIff(c, g, w, env, gap);
    var src, dst, flags := c.writers[w].host, c.readers[g].host, Flags(c.writers[w]);
    if e :| e in Wanted(c, g, w) && gap in SendSample(src, dst, flags, w, e, env.mtu) {
      SendShape(src, dst, flags, w, e, env.mtu, gap);
    }
  }
}
