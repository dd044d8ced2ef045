/** A sample all of whose frames arrive is delivered, whatever else happens in
    the run. */
module Delivery {
  import opened Base
  import opened Frames
  import opened Guarantees
  import opened Healing
  import opened Invariants
  import opened Pairs
  import opened Preservation
  import opened Projection
  import opened Readers
  import opened Systems
  import Runs
  import opened Writers
  import F = Fragments
  import I = Intervals
  import W = Window

  /** Nothing more is to come of the seq for this reader: it is received, or the
      baseline has passed it. */
  ghost predicate Settled(c: Core, g: Guid, w: Guid, sn: nat)
    requires g in c.readers
  {
    sn in Track(c, g, w).got || sn <= Track(c, g, w).rx.last
  }

  /** A published sample and a reader that matches its writer. */
  ghost predicate Due(c: Core, g: Guid, w: Guid, e: Sample) {
    && g in c.readers && w in c.writers && Matches(c.readers[g], c.writers[w])
    && Published(c, w, e.sn) && SampleAt(c, w, e.sn) == e
  }

  /** The frames that a step receives at h through this peer. */
  ghost function Heard(s: Sys, step: Step, h: Host, peer: nat): seq<Packet> {
    if step.Receive? && step.p in s.net && step.p.dst == h && step.env.peer == peer then [step.p] else []
  }

  ghost function HeardIn(steps: seq<Step>, more: seq<Step>, h: Host, peer: nat): seq<Packet>
    decreases |more|
  {
    if more == [] then []
    else
      var pre := more[..|more| - 1];
      HeardIn(steps, pre, h, peer) + Heard(Exec(steps + pre), more[|more| - 1], h, peer)
  }

  /** The step does not work against the sample: its frames find the writer
      discovered, and no sweep and no peer-down takes its partial away. */
  ghost predicate Spares(s: Sys, step: Step, h: Host, peer: nat, w: Guid, sn: nat) {
    match step
    case Receive(p, env) => p.dst == h && env.peer == peer && (IsData(p, w, sn) || IsFrag(p, w, sn)) ==> env.discovered
    case _ => (w, sn) in PartialsAt(s.core, h, peer) ==> (w, sn) in PartialsAt(Apply(s, step).core, h, peer)
  }

  ghost predicate AllSpare(steps: seq<Step>, more: seq<Step>, h: Host, peer: nat, w: Guid, sn: nat) {
    forall k | 0 <= k < |more| :: Spares(Exec(steps + more[..k]), more[k], h, peer, w, sn)
  }

  ghost predicate Outlook(c: Core, g: Guid, w: Guid, e: Sample, peer: nat, heard: seq<Packet>)
    requires g in c.readers
  {
    Settled(c, g, w, e.sn) || Pending(PartialsAt(c, c.readers[g].host, peer), w, e, heard)
  }

  lemma DueGrows(c: Core, c': Core, g: Guid, w: Guid, e: Sample)
    requires Due(c, g, w, e) && Grows(c, c')
    ensures Due(c', g, w, e) && c'.readers[g].host == c.readers[g].host
    ensures Settled(c, g, w, e.sn) ==> Settled(c', g, w, e.sn)
  {
    hide TrackOf, SampleAt, Settled;
    SettledGrows(c, c', g, w, e.sn);
    PublishedGrows(c, c', w, e.sn);
    assert ReaderGrows(c.readers[g], c'.readers[g]) && WriterGrows(c.writers[w], c'.writers[w]);
  }

  /** The sample's partial, if there is one, is still there as it was. */
  ghost predicate Kept(c: Core, c': Core, h: Host, peer: nat, key: F.Key) {
    var ps, ps' := PartialsAt(c, h, peer), PartialsAt(c', h, peer);
    key in ps ==> key in ps' && ps'[key] == ps[key]
  }

  lemma KeptOutlook(c: Core, c': Core, g: Guid, w: Guid, e: Sample, peer: nat, heard: seq<Packet>, more: seq<Packet>)
    requires Due(c, g, w, e) && Grows(c, c') && Outlook(c, g, w, e, peer, heard)
    requires Kept(c, c', c.readers[g].host, peer, (w, e.sn))
    requires |more| <= 1 && forall p | p in more :: !IsData(p, w, e.sn) && !IsFrag(p, w, e.sn)
    ensures g in c'.readers && Outlook(c', g, w, e, peer, heard + more)
  {
    hide Due, Grows, Settled, PartialsAt, Absorbed, I.Covers;
    DueGrows(c, c', g, w, e);
    DueFacts(c, g, w, e);
    DueFacts(c', g, w, e);
    if !Settled(c', g, w, e.sn) {
      if more == [] {
        assert heard + more == heard;
        KeptPending(c, c', c.readers[g].host, peer, w, e, heard);
      } else {
        assert more == [more[0]];
        var h := c.readers[g].host;
        PendingOther(PartialsAt(c, h, peer), PartialsAt(c', h, peer), w, e, heard, more[0]);
      }
    }
  }

  lemma DueFacts(c: Core, g: Guid, w: Guid, e: Sample)
    requires Due(c, g, w, e)
    ensures g in c.readers && w in c.writers && Matches(c.readers[g], c.writers[w])
    ensures Published(c, w, e.sn) && SampleAt(c, w, e.sn) == e
  {
  }

  lemma KeptPending(c: Core, c': Core, h: Host, peer: nat, w: Guid, e: Sample, heard: seq<Packet>)
    requires Kept(c, c', h, peer, (w, e.sn)) && Pending(PartialsAt(c, h, peer), w, e, heard)
    ensures Pending(PartialsAt(c', h, peer), w, e, heard)
  {
    hide PartialsAt, I.Covers;
  }

  // ---- what each kind of step does ----

  lemma OnlySweepsAndDrops(c: Core, step: Step, h: Host, peer: nat, key: F.Key)
    requires key in PartialsAt(c, h, peer) ==> key in PartialsAt(Spontaneous(c, step).0, h, peer)
    ensures Kept(c, Spontaneous(c, step).0, h, peer, key)
  {
    hide Publish, Targets, SendSample, Alive, Deliver, Take, SweepQueue;
  }

  lemma OtherFrames(c: Core, p: Packet, env: Env, h: Host, peer: nat, w: Guid, sn: nat)
    requires p.dst != h || env.peer != peer || !IsFrag(p, w, sn)
    ensures Kept(c, HandleFrame(c, p.src, p.dst, p.frame, env).0, h, peer, (w, sn))
  {
    hide Deliver, Resends, GapEnd, SendSample, NackState, Skip, F.AddFragment, F.AllSound;
    if p.frame.DataFrag? && Receivable(c, p.dst, p.frame, env) {
      F.AddFragmentSound(PartialsAt(c, p.dst, env.peer), p.frame, env.time);
    }
  }

  lemma SampleSettles(c: Core, src: Host, g: Guid, w: Guid, sn: nat, pubMs: nat, payload: Bytes)
    requires CoreInv(c) && w in c.writers && g in c.readers && Matches(c.readers[g], c.writers[w])
    ensures var c' := HandleSample(c, src, c.readers[g].host, w, sn, pubMs, payload, true).0;
            g in c'.readers && Settled(c', g, w, sn)
  {
    hide CoreInv, HandleSample, TrackOf, W.OnData, W.TrackInv;
    SampleEffect(c, src, g, w, sn, pubMs, payload);
    PairTrack(c, g, w);
    W.DataKeeps(Track(c, g, w), sn);
  }

  lemma PairTrack(c: Core, g: Guid, w: Guid)
    requires CoreInv(c) && g in c.readers
    ensures W.TrackInv(Track(c, g, w))
  {
    ReaderInvOf(c, g);
    TracksInv(c.readers[g].state, w);
  }

  lemma DataOutlook(c: Core, g: Guid, w: Guid, e: Sample, p: Packet, env: Env, heard: seq<Packet>)
    requires CoreInv(c) && Due(c, g, w, e) && IsData(p, w, e.sn) && p.dst == c.readers[g].host && env.discovered
    ensures var c' := HandleFrame(c, p.src, p.dst, p.frame, env).0;
            g in c'.readers && Outlook(c', g, w, e, env.peer, heard)
  {
    hide CoreInv, HandleSample, Settled, Pending;
    SampleSettles(c, p.src, g, w, e.sn, p.frame.pubMs, p.frame.payload);
  }

  lemma PieceOutlook(c: Core, g: Guid, w: Guid, e: Sample, p: Packet, env: Env, heard: seq<Packet>)
    requires CoreInv(c) && PacketOk(c, p) && Due(c, g, w, e) && IsFrag(p, w, e.sn)
    requires p.dst == c.readers[g].host && env.discovered && Outlook(c, g, w, e, env.peer, heard)
    ensures var c' := HandleFrame(c, p.src, p.dst, p.frame, env).0;
            g in c'.readers && Outlook(c', g, w, e, env.peer, heard + [p])
  {
    hide CoreInv, PacketOk, HandleSample, Settled, Pending, Absorbed, Published, SampleAt, F.AddFragment, I.Covers;
    PieceEffect(c, p.src, p.dst, w, e, p.frame, env);
    var ps := PartialsAt(c, p.dst, env.peer);
    var (ps', out) := F.AddFragment(ps, p.frame, env.time);
    var c1 := c.(partials := c.partials[(p.dst, env.peer) := ps']);
    match out
    case Some(b) =>
      FragCore(c, p.src, p.dst, p.frame, env);
      SampleSettles(c1, p.src, g, w, e.sn, p.frame.pubMs, b);
    case None =>
      SameSettled(c, c1, g, w, e.sn);
      if Pending(ps, w, e, heard) { PendingAbsorbs(ps, ps', w, e, heard, p); }
  }

  lemma SameSettled(c: Core, c': Core, g: Guid, w: Guid, sn: nat)
    requires c'.readers == c.readers && g in c.readers
    ensures Settled(c', g, w, sn) == Settled(c, g, w, sn)
  {
  }

  lemma StepOutlook(s: Sys, step: Step, g: Guid, w: Guid, e: Sample, peer: nat, heard: seq<Packet>)
    requires Inv(s) && Due(s.core, g, w, e) && Outlook(s.core, g, w, e, peer, heard)
    requires Spares(s, step, s.core.readers[g].host, peer, w, e.sn)
    ensures var c' := Apply(s, step).core;
            && Due(c', g, w, e) && c'.readers[g].host == s.core.readers[g].host
            && Outlook(c', g, w, e, peer, heard + Heard(s, step, s.core.readers[g].host, peer))
  {
    hide CoreInv, PacketOk, Grows, Due, Outlook, HandleFrame, Spontaneous, PartialsAt, Kept;
    DueFacts(s.core, g, w, e);
    StepKeeps(s, step);
    DueGrows(s.core, Apply(s, step).core, g, w, e);
    var h := s.core.readers[g].host;
    var key := (w, e.sn);
    if !step.Receive? {
      OnlySweepsAndDrops(s.core, step, h, peer, key);
      KeptOutlook(s.core, Apply(s, step).core, g, w, e, peer, heard, []);
    } else if step.p !in s.net {
      SameKept(s.core, h, peer, key);
      KeptOutlook(s.core, s.core, g, w, e, peer, heard, []);
    } else if step.p.dst == h && step.env.peer == peer && (IsData(step.p, w, e.sn) || IsFrag(step.p, w, e.sn)) {
      if step.p.frame.Data? {
        DataOutlook(s.core, g, w, e, step.p, step.env, heard + [step.p]);
      } else {
        PieceOutlook(s.core, g, w, e, step.p, step.env, heard);
      }
    } else {
      OtherFrames(s.core, step.p, step.env, h, peer, w, e.sn);
      KeptOutlook(s.core, Apply(s, step).core, g, w, e, peer, heard, Heard(s, step, h, peer));
    }
  }

  lemma SameKept(c: Core, h: Host, peer: nat, key: F.Key)
    ensures Kept(c, c, h, peer, key)
  {
  }

  // ---- the run ----

  lemma {:induction false} RunOutlook(steps: seq<Step>, more: seq<Step>, g: Guid, w: Guid, e: Sample, peer: nat)
    requires Due(Exec(steps).core, g, w, e)
    requires AllSpare(steps, more, Exec(steps).core.readers[g].host, peer, w, e.sn)
    ensures var c := Exec(steps + more).core;
            var h := Exec(steps).core.readers[g].host;
            && Due(c, g, w, e) && c.readers[g].host == h
            && Outlook(c, g, w, e, peer, HeardIn(steps, more, h, peer))
    decreases |more|
  {
    hide Due, Outlook, Apply, Heard, Spares, Inv;
    DueFacts(Exec(steps).core, g, w, e);
    if more == [] {
      assert steps + more == steps;
      NothingHeard(Exec(steps).core, g, w, e, peer);
    } else {
      var n := |more| - 1;
      var pre, step := more[..n], more[n];
      var h := Exec(steps).core.readers[g].host;
      assert AllSpare(steps, pre, h, peer, w, e.sn) by { SparePrefix(steps, more, h, peer, w, e.sn); }
      RunOutlook(steps, pre, g, w, e, peer);
      RunKeeps(steps + pre);
      assert Spares(Exec(steps + more[..n]), more[n], h, peer, w, e.sn);
      assert (steps + more)[..|steps + more| - 1] == steps + pre;
      DueFacts(Exec(steps + pre).core, g, w, e);
      StepOutlook(Exec(steps + pre), step, g, w, e, peer, HeardIn(steps, pre, h, peer));
    }
  }

  lemma NothingHeard(c: Core, g: Guid, w: Guid, e: Sample, peer: nat)
    requires g in c.readers
    ensures Outlook(c, g, w, e, peer, [])
  {
  }

  lemma SparePrefix(steps: seq<Step>, more: seq<Step>, h: Host, peer: nat, w: Guid, sn: nat)
    requires more != [] && AllSpare(steps, more, h, peer, w, sn)
    ensures AllSpare(steps, more[..|more| - 1], h, peer, w, sn)
  {
    hide Spares, Exec;
    var pre := more[..|more| - 1];
    forall k | 0 <= k < |pre|
      ensures Spares(Exec(steps + pre[..k]), pre[k], h, peer, w, sn)
    {
      assert pre[..k] == more[..k];
      assert Spares(Exec(steps + more[..k]), more[k], h, peer, w, sn);
    }
  }

  /** All frames of one split of the sample, towards h. */
  ghost predicate Complete(heard: seq<Packet>, src: Host, h: Host, flags: nat, w: Guid, e: Sample, mtu: nat) {
    && (mtu > F.FRAME_OVERHEAD || HEADER_SIZE + DATA_FIXED + |e.payload| <= mtu)
    && forall p | p in SendSample(src, h, flags, w, e, mtu) :: p in heard
  }

  /** Delivery: from any reachable state on, a run in which all frames of a sample
      arrive, in any order and among anything else, leaves the sample received or
      below the baseline, whatever is lost, duplicated or reordered besides. */
  lemma Delivered(steps: seq<Step>, more: seq<Step>, g: Guid, w: Guid, e: Sample, peer: nat,
                  src: Host, flags: nat, mtu: nat)
    requires Due(Exec(steps).core, g, w, e)
    requires var h := Exec(steps).core.readers[g].host;
             && AllSpare(steps, more, h, peer, w, e.sn)
             && Complete(HeardIn(steps, more, h, peer), src, h, flags, w, e, mtu)
    ensures var c := Exec(steps + more).core;
            g in c.readers && Settled(c, g, w, e.sn)
  {
    hide Due, Settled, Exec, HeardIn, AllSpare, PartialsAt, Pending;
    DueFacts(Exec(steps).core, g, w, e);
    RunOutlook(steps, more, g, w, e, peer);
    DueFacts(Exec(steps + more).core, g, w, e);
    var h := Exec(steps).core.readers[g].host;
    AllHeard(PartialsAt(Exec(steps + more).core, h, peer), HeardIn(steps, more, h, peer), src, h, flags, w, e, mtu);
  }

  lemma AllHeard(ps: map<F.Key, F.Partial>, heard: seq<Packet>, src: Host, h: Host, flags: nat, w: Guid, e: Sample,
                 mtu: nat)
    requires Complete(heard, src, h, flags, w, e, mtu)
    ensures !Pending(ps, w, e, heard)
  {
    hide Pending, F.Tiles;
    var fs := F.Fragment(flags, w, e.sn, e.pubMs, e.payload, mtu);
    forall k | 0 <= k < |fs|
      ensures Packet(src, h, fs[k]) in heard
    {
      assert Packet(src, h, fs[k]) in SendSample(src, h, flags, w, e, mtu);
    }
    if HEADER_SIZE + DATA_FIXED + |e.payload| > mtu {
      F.ChunksTile(flags, w, e.sn, e.pubMs, e.payload, 0, mtu - F.FRAME_OVERHEAD);
    }
    AllSeen(ps, w, e, heard, src, h, fs);
  }

  // ---- answers ----

  /** Healing over any run: each seq of [base, base + 63] that is held and allowed
      when the writer answers is settled in every run in which the resends of the
      answer arrive, whatever arrives besides. */
  lemma AnswerDelivers(steps: seq<Step>, more: seq<Step>, g: Guid, w: Guid, env: Env, e: Sample)
    requires var c := Exec(steps).core;
             && Ready(c, g, w, env) && e in c.writers[w].state.history
             && Entitled(e, Clamp(c.readers[g]), c.readers[g].birthUs)
             && Track(c, g, w).rx.last < e.sn <= Track(c, g, w).rx.last + 64
             && AllSpare(steps, more, c.readers[g].host, env.peer, w, e.sn)
             && forall p | p in Answer(c, g, w, env) && !p.frame.Gap? ::
                  p in HeardIn(steps, more, c.readers[g].host, env.peer)
    ensures var c' := Exec(steps + more).core;
            g in c'.readers && Settled(c', g, w, e.sn)
  {
    hide Exec, HeardIn, AllSpare, CoreInv, Answer, SendSample, Settled, Wanted, GapTop, Published, SampleAt, TrackOf;
    var c := Exec(steps).core;
    HeldIsDue(c, g, w, env, e);
    WantedIff(c, g, w, e);
    if e in Wanted(c, g, w) {
      var src, h, flags := c.writers[w].host, c.readers[g].host, Flags(c.writers[w]);
      forall p | p in SendSample(src, h, flags, w, e, env.mtu)
        ensures p in HeardIn(steps, more, h, env.peer)
      {
        AnswerIff(c, g, w, env, p);
        SendShape(src, h, flags, w, e, env.mtu, p);
      }
      Delivered(steps, more, g, w, e, env.peer, src, flags, env.mtu);
    } else {
      GotSettles(c, g, w, e.sn);
      StaysSettled(steps, more, g, w, e.sn);
    }
  }

  lemma HeldIsDue(c: Core, g: Guid, w: Guid, env: Env, e: Sample)
    requires Ready(c, g, w, env) && e in c.writers[w].state.history
    ensures Due(c, g, w, e)
  {
    hide CoreInv, Published, SampleAt, TrackOf;
    PairFacts(c, g, w);
    HeldIsPublished(c, w, e);
  }

  lemma GotSettles(c: Core, g: Guid, w: Guid, sn: nat)
    requires g in c.readers && sn in Track(c, g, w).got
    ensures Settled(c, g, w, sn)
  {
  }

  lemma SettledGrows(c: Core, c': Core, g: Guid, w: Guid, sn: nat)
    requires Grows(c, c') && g in c.readers
    ensures g in c'.readers && (Settled(c, g, w, sn) ==> Settled(c', g, w, sn))
  {
    hide TrackOf, WriterGrows;
    assert ReaderGrows(c.readers[g], c'.readers[g]);
  }

  lemma StaysSettled(steps: seq<Step>, more: seq<Step>, g: Guid, w: Guid, sn: nat)
    requires g in Exec(steps).core.readers && Settled(Exec(steps).core, g, w, sn)
    ensures var c := Exec(steps + more).core; g in c.readers && Settled(c, g, w, sn)
  {
    hide Exec, Settled, Grows;
    RunGrows(steps, more);
    SettledGrows(Exec(steps).core, Exec(steps + more).core, g, w, sn);
  }

  // ---- calls in progress ----

  /** A sample handed to a reader of the writer's own participant is settled once
      the call has enqueued it, whatever happened before and happens after. */
  lemma HandoverSettles(steps: seq<Step>, more: seq<Step>, k: nat, h: Handover)
    requires h in Exec(steps).core.local && k < |more| && more[k] == Enqueue(h)
    ensures var c := Exec(steps + more).core; h.reader in c.readers && Settled(c, h.reader, h.writer, h.sample.sn)
  {
    hide Exec, Settled, CoreInv, Apply;
    var before, after := steps + more[..k], steps + more[..k + 1];
    CallsStay(steps, more[..k], h);
    RunKeeps(before);
    EnqueueSettles(Exec(before), h);
    assert after == before + [more[k]];
    Runs.ExecSnoc(before, more[k]);
    assert steps + more == after + more[k + 1..];
    StaysSettled(after, more[k + 1..], h.reader, h.writer, h.sample.sn);
  }

  lemma EnqueueSettles(s: Sys, h: Handover)
    requires CoreInv(s.core) && h in s.core.local
    ensures var c' := Apply(s, Enqueue(h)).core;
            h.reader in c'.readers && Settled(c', h.reader, h.writer, h.sample.sn)
  {
    hide ReaderOk, TableOk, WriterOk, Deliver, ReaderInv, TrackOf, W.OnData, W.TrackInv;
    assert HandoverOk(s.core, h);
    var c, g, w, e := s.core, h.reader, h.writer, h.sample;
    ReaderInvOf(c, g);
    PairTrack(c, g, w);
    DeliverKeeps(c.readers[g].state, Item(w, e.sn, e.pubMs, e.payload, c.writers[w].state.qos.lifespanMs), NowMs(c));
    W.DataKeeps(Track(c, g, w), e.sn);
  }

  lemma {:induction false} CallsStay(steps: seq<Step>, more: seq<Step>, h: Handover)
    requires h in Exec(steps).core.local
    ensures h in Exec(steps + more).core.local
    decreases |more|
  {
    hide Apply;
    if more == [] {
      assert steps + more == steps;
    } else {
      var pre := more[..|more| - 1];
      CallsStay(steps, pre, h);
      assert (steps + more)[..|steps + more| - 1] == steps + pre;
      CallStays(Exec(steps + pre), more[|more| - 1], h);
    }
  }

  lemma CallStays(s: Sys, step: Step, h: Handover)
    requires h in s.core.local
    ensures h in Apply(s, step).core.local
  {
    hide Deliver, Skip, Take, SweepQueue, Publish, Targets, SendSample, Alive, Resends, GapEnd, NackState,
      F.AddFragment, F.AllSound;
  }

  // ---- live samples ----

  /** `ps` are frames of the sample alone, and all of one split of it. */
  ghost predicate JustTheFrames(ps: seq<Packet>, src: Host, h: Host, flags: nat, w: Guid, e: Sample, mtu: nat) {
    && (forall p | p in ps :: p.dst == h && (IsData(p, w, e.sn) || IsFrag(p, w, e.sn)))
    && Complete(ps, src, h, flags, w, e, mtu)
  }

  /** When nothing but the frames of a sample above the baseline arrives, in any
      order and any number of times, the reader accepts it. */
  lemma OwnFrames(steps: seq<Step>, ps: seq<Packet>, g: Guid, w: Guid, e: Sample, env: Env,
                  src: Host, flags: nat, mtu: nat)
    requires Due(Exec(steps).core, g, w, e) && Track(Exec(steps).core, g, w).rx.last < e.sn
    requires env.discovered && forall p | p in ps :: p in Exec(steps).net
    requires JustTheFrames(ps, src, Exec(steps).core.readers[g].host, flags, w, e, mtu)
    ensures var c := Exec(steps + Runs.Receives(ps, env)).core;
            g in c.readers && e.sn in Track(c, g, w).got
  {
    hide Exec, Due, HeardIn, Complete, Spares, TrackOf, PairEvents;
    var more := Runs.Receives(ps, env);
    DueFacts(Exec(steps).core, g, w, e);
    var h := Exec(steps).core.readers[g].host;
    OwnHeard(steps, ps, env, h);
    assert AllSpare(steps, more, h, env.peer, w, e.sn) by {
      forall k | 0 <= k < |more|
        ensures Spares(Exec(steps + more[..k]), more[k], h, env.peer, w, e.sn)
      {
        ReceiveSpares(Exec(steps + more[..k]), ps[k], env, h, w, e.sn);
      }
    }
    Delivered(steps, more, g, w, e, env.peer, src, flags, mtu);
    NotPassed(steps, ps, g, w, e, env);
  }

  lemma ReceiveSpares(s: Sys, p: Packet, env: Env, h: Host, w: Guid, sn: nat)
    requires env.discovered
    ensures Spares(s, Receive(p, env), h, env.peer, w, sn)
  {
  }

  lemma HeardNothing(steps: seq<Step>, h: Host, peer: nat)
    ensures HeardIn(steps, [], h, peer) == []
  {
  }

  lemma HeardSnoc(steps: seq<Step>, more: seq<Step>, step: Step, h: Host, peer: nat)
    ensures HeardIn(steps, more + [step], h, peer) ==
            HeardIn(steps, more, h, peer) + Heard(Exec(steps + more), step, h, peer)
  {
    hide Exec, Heard;
    assert (more + [step])[..|more|] == more;
  }

  lemma {:induction false} OwnHeard(steps: seq<Step>, ps: seq<Packet>, env: Env, h: Host)
    requires forall p | p in ps :: p in Exec(steps).net && p.dst == h
    ensures HeardIn(steps, Runs.Receives(ps, env), h, env.peer) == ps
    decreases |ps|
  {
    hide Exec, HeardIn, ReceiveAll;
    if ps == [] {
      HeardNothing(steps, h, env.peer);
    } else {
      var pre, p := ps[..|ps| - 1], ps[|ps| - 1];
      OwnHeard(steps, pre, env, h);
      Runs.ReceiveAllIsRun(steps, pre, env);
      assert Runs.Receives(ps, env) == Runs.Receives(pre, env) + [Receive(p, env)];
      HeardSnoc(steps, Runs.Receives(pre, env), Receive(p, env), h, env.peer);
      assert ps == pre + [p];
    }
  }

  /** Only the sample itself could move the baseline, and then it is received. */
  lemma {:induction false} NotPassed(steps: seq<Step>, ps: seq<Packet>, g: Guid, w: Guid, e: Sample, env: Env)
    requires Due(Exec(steps).core, g, w, e) && Track(Exec(steps).core, g, w).rx.last < e.sn
    requires forall p | p in ps :: p in Exec(steps).net && (IsData(p, w, e.sn) || IsFrag(p, w, e.sn))
    ensures var c := Exec(steps + Runs.Receives(ps, env)).core;
            && g in c.readers
            && (e.sn in Track(c, g, w).got || Track(c, g, w).rx.last == Track(Exec(steps).core, g, w).rx.last)
    decreases |ps|
  {
    hide Exec, Due, TrackOf, StepEvents, W.TrackInv;
    var more := Runs.Receives(ps, env);
    DueFacts(Exec(steps).core, g, w, e);
    if ps == [] {
      assert steps + more == steps;
    } else {
      var pre, p := ps[..|ps| - 1], ps[|ps| - 1];
      NotPassed(steps, pre, g, w, e, env);
      assert steps + more == steps + Runs.Receives(pre, env) + [Receive(p, env)];
      var at := steps + Runs.Receives(pre, env);
      Runs.ExecSnoc(at, Receive(p, env));
      RunKeeps(at);
      OwnEvent(Exec(at), p, env, g, w, e.sn);
      ReaderInvOf(Exec(at).core, g);
      StepTrack(Exec(at), Receive(p, env), g, w);
      PairTrack(Exec(at).core, g, w);
      AtMostItself(Track(Exec(at).core, g, w), StepEvents(Exec(at), Receive(p, env), g, w), e.sn);
    }
  }

  lemma OwnEvent(s: Sys, p: Packet, env: Env, g: Guid, w: Guid, sn: nat)
    requires IsData(p, w, sn) || IsFrag(p, w, sn)
    ensures var es := StepEvents(s, Receive(p, env), g, w); es == [] || es == [W.Arrival(sn)]
  {
  }

  lemma AtMostItself(t: W.Track, es: seq<W.Event>, sn: nat)
    requires W.TrackInv(t) && (es == [] || es == [W.Arrival(sn)])
    ensures var t' := After(t, es);
            t.got <= t'.got && (sn in t'.got || t'.rx.last == t.rx.last)
  {
    hide W.OnData, W.TrackInv;
    if es != [] {
      W.DataKeeps(t, sn);
      if sn <= t.rx.last { OldArrives(t, sn); }
    }
  }

  /** Live delivery: an accepted write is sent to every known matching reader,
      split if need be; its frames are in flight afterwards, and the reader
      accepts the sample when they arrive, in any order and any number of times. */
  lemma LiveDelivery(steps: seq<Step>, w: Guid, payload: Bytes, known: set<Guid>, mtus: map<Host, nat>,
                     g: Guid, env: Env, ps: seq<Packet>)
    requires var c := Exec(steps).core;
             && w in c.writers && g in c.readers && g in known && Matches(c.readers[g], c.writers[w])
             && HandleWrite(c, w, payload, known, mtus).0 != c && env.discovered
    requires var c := Exec(steps).core;
             var n, h := c.writers[w], c.readers[g].host;
             var e := Sample(n.state.sn + 1, NowMs(c), c.nowUs, payload);
             var mtu := MtuTo(mtus, h);
             && (mtu > F.FRAME_OVERHEAD || HEADER_SIZE + DATA_FIXED + |payload| <= mtu)
             && forall p :: p in ps <==> p in SendSample(n.host, h, Flags(n), w, e, mtu)
    ensures var sent := steps + [Write(w, payload, known, mtus)];
            var c := Exec(sent + Runs.Receives(ps, env)).core;
            && (forall p | p in ps :: p in Exec(sent).net)
            && g in c.readers && Exec(steps).core.writers[w].state.sn + 1 in Track(c, g, w).got
  {
    hide Exec, CoreInv, HandleWrite, SendSample, TrackOf, MtuTo;
    var c := Exec(steps).core;
    var n, h := c.writers[w], c.readers[g].host;
    var e := Sample(n.state.sn + 1, NowMs(c), c.nowUs, payload);
    var step := Write(w, payload, known, mtus);
    RunKeeps(steps);
    Runs.ExecSnoc(steps, step);
    NewIsNew(c, g, w);
    Written(c, w, payload, known, mtus);
    WriterStays(c, w, payload, known, mtus);
    forall p | p in ps
      ensures p in Exec(steps + [step]).net && p.dst == h && (IsData(p, w, e.sn) || IsFrag(p, w, e.sn))
    {
      NewIsSent(c, w, payload, known, mtus, g, p);
      SendShape(n.host, h, Flags(n), w, e, MtuTo(mtus, h), p);
    }
    OwnFrames(steps + [step], ps, g, w, e, env, n.host, Flags(n), MtuTo(mtus, h));
  }

  lemma WriterStays(c: Core, w: Guid, payload: Bytes, known: set<Guid>, mtus: map<Host, nat>)
    requires w in c.writers
    ensures w in HandleWrite(c, w, payload, known, mtus).0.writers
  {
    hide Publish, Targets, SendSample;
  }
}
