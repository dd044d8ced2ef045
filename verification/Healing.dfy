/** What one lossless heartbeat / ACKNACK / answer round achieves, the answer's
    frames arriving in any order and any number of times, and what repeated
    rounds converge to. */
module Healing {
  import opened Base
  import opened Words
  import opened Frames
  import opened Writers
  import opened Readers
  import opened Systems
  import opened Invariants
  import opened Preservation
  import opened Pairs
  import F = Fragments
  import I = Intervals
  import W = Window

  /** Receive these packets, in this order. */
  ghost function ReceiveAll(c: Core, ps: seq<Packet>, env: Env): Core {
    if ps == [] then c
    else
      var p := ps[|ps| - 1];
      HandleFrame(ReceiveAll(c, ps[..|ps| - 1], env), p.src, p.dst, p.frame, env).0
  }

  /** What the writer answers to the reader's present NACK. */
  ghost function Answer(c: Core, g: Guid, w: Guid, env: Env): set<Packet>
    requires g in c.readers && w in c.writers
  {
    HandleAckNack(c, c.readers[g].host, c.writers[w].host, Nack(g, c.readers[g], w), env).1
  }

  /** One round: every frame of the answer arrives, at least once each. */
  ghost predicate IsRound(c: Core, c': Core, g: Guid, w: Guid, env: Env) {
    g in c.readers && w in c.writers &&
    exists ps: seq<Packet> ::
      (forall p :: p in ps <==> p in Answer(c, g, w, env)) && c' == ReceiveAll(c, ps, env)
  }

  /** A matched pair, discovered, on a transport wide enough for a fragment. */
  ghost predicate Ready(c: Core, g: Guid, w: Guid, env: Env) {
    && CoreInv(c) && g in c.readers && w in c.writers && Matches(c.readers[g], c.writers[w])
    && env.discovered && env.mtu > F.FRAME_OVERHEAD
  }

  ghost function Track(c: Core, g: Guid, w: Guid): W.Track
    requires g in c.readers
  {
    TrackOf(c.readers[g].state, w)
  }

  ghost function Wanted(c: Core, g: Guid, w: Guid): seq<Sample>
    requires g in c.readers && w in c.writers
  {
    var t := Track(c, g, w);
    Resends(c.writers[w].state.history, t.rx.last + 1, t.rx.window, Clamp(c.readers[g]), c.readers[g].birthUs, 64)
  }

  ghost function GapTop(c: Core, g: Guid, w: Guid): nat
    requires g in c.readers && w in c.writers
  {
    var t := Track(c, g, w);
    GapEnd(c.writers[w].state.history, t.rx.last + 1, t.rx.window, Clamp(c.readers[g]), c.readers[g].birthUs, 64)
  }

  ghost predicate Arriving(c0: Core, c: Core, g: Guid, w: Guid, env: Env, seen: seq<Packet>)
    requires g in c0.readers && w in c0.writers
  {
    && CoreInv(c) && Grows(c0, c) && c.writers == c0.writers && g in c.readers
    && Progress(Track(c0, g, w), Wanted(c0, g, w), GapTop(c0, g, w), w,
                Track(c, g, w), PartialsAt(c, c.readers[g].host, env.peer), seen)
  }

  // ---- the heartbeat ----

  /** A heartbeat with the writer's present seq makes a reliable reader send its
      present NACK exactly when its base is not above that seq. */
  lemma HeartbeatAsks(c: Core, g: Guid, w: Guid, env: Env, first: nat)
    requires Ready(c, g, w, env) && c.readers[g].state.qos.reliability == RELIABLE
    ensures var src, dst := c.writers[w].host, c.readers[g].host;
            Packet(dst, src, Nack(g, c.readers[g], w))
              in HandleHeartbeat(c, src, dst, Heartbeat(w, first, c.writers[w].state.sn), env).1
            <==> Track(c, g, w).rx.last < c.writers[w].state.sn
  {
    hide CoreInv;
  }

  // ---- what the answer is made of ----

  lemma PairFacts(c: Core, g: Guid, w: Guid)
    requires CoreInv(c) && g in c.readers && w in c.writers
    ensures var s, t := c.writers[w].state, Track(c, g, w);
            && WriterInv(s) && Contiguous(s.history, s.sn) && Monotone(s.history)
            && W.TrackInv(t) && W.Pictures(t.rx, t.got)
  {
    hide TableOk, HandoverOk, Justified, NeverDue;
    assert WriterOk(c.nowUs, c.writers[w]) && ReaderOk(c, c.readers[g]);
    TracksInv(c.readers[g].state, w);
    HistoryContiguous(c.writers[w].state);
    HistoryMonotone(c.writers[w].state);
  }

  /** Window bit k of a picture. */
  lemma BitIsGot(rx: W.Rx, got: set<nat>, sn: nat)
    requires W.Pictures(rx, got) && rx.last < sn <= rx.last + 64
    ensures Bit(rx.window, sn - rx.last - 1) <==> sn in got
  {
    var i: nat := sn - rx.last - 1;
    assert Bit(rx.window, i) <==> rx.last + 1 + i in got;
  }

  /** Asked and answered: what is held, allowed and not received, within the
      window. */
  lemma WantedIff(c: Core, g: Guid, w: Guid, e: Sample)
    requires CoreInv(c) && g in c.readers && w in c.writers
    ensures var t := Track(c, g, w);
            e in Wanted(c, g, w) <==>
              && e in c.writers[w].state.history && Entitled(e, Clamp(c.readers[g]), c.readers[g].birthUs)
              && t.rx.last < e.sn <= t.rx.last + 64 && e.sn !in t.got
  {
    hide CoreInv, WriterInv, Contiguous, Monotone, Resends, W.TrackInv, W.Pictures, TrackOf;
    var s, r, t := c.writers[w].state, c.readers[g], Track(c, g, w);
    PairFacts(c, g, w);
    ResendIff(s.history, s.sn, t.rx.last + 1, t.rx.window, Clamp(r), r.birthUs, 64, e);
    if t.rx.last < e.sn <= t.rx.last + 64 { BitIsGot(t.rx, t.got, e.sn); }
  }

  /** The GAP of the answer: its end was asked for, and an unreceived seq of the
      window lies in it exactly when it will never be sent. */
  lemma GapTopIff(c: Core, g: Guid, w: Guid, sn: nat)
    requires CoreInv(c) && g in c.readers && w in c.writers
    ensures var t, end := Track(c, g, w), GapTop(c, g, w);
            var h, clamp, birthUs := c.writers[w].state.history, Clamp(c.readers[g]), c.readers[g].birthUs;
            && (end > 0 ==> t.rx.last < end <= t.rx.last + 64 && end !in t.got && WillNeverSend(h, end, clamp, birthUs))
            && (t.rx.last < sn <= t.rx.last + 64 && sn !in t.got ==>
                 && (WillNeverSend(h, sn, clamp, birthUs) ==> sn <= end)
                 && (h != [] && sn <= end ==> WillNeverSend(h, sn, clamp, birthUs)))
  {
    hide CoreInv, WriterInv, Contiguous, Monotone, Resends, GapEnd, WillNeverSend, W.TrackInv, W.Pictures, TrackOf;
    var s, r, t := c.writers[w].state, c.readers[g], Track(c, g, w);
    PairFacts(c, g, w);
    GapEndIsHighest(s.history, t.rx.last + 1, t.rx.window, Clamp(r), r.birthUs, 64);
    var end := GapTop(c, g, w);
    if end > 0 { BitIsGot(t.rx, t.got, end); }
    if t.rx.last < sn <= t.rx.last + 64 && sn !in t.got {
      BitIsGot(t.rx, t.got, sn);
      var i: nat := sn - t.rx.last - 1;
      assert !Bit(t.rx.window, i) && t.rx.last + 1 + i == sn;
      if s.history != [] {
        AnswerPartition(s.history, s.sn, t.rx.last + 1, t.rx.window, Clamp(r), r.birthUs, i);
      }
    }
  }

  /** What is held, allowed and asked for will be sent. */
  lemma HeldIsSent(h: seq<Sample>, last: nat, e: Sample, clamp: bool, birthUs: nat)
    requires Contiguous(h, last) && e in h && Entitled(e, clamp, birthUs)
    ensures !WillNeverSend(h, e.sn, clamp, birthUs)
  {
    FindContiguous(h, last, e.sn);
    InHistory(h, last, e);
  }

  lemma WantedFacts(c: Core, g: Guid, w: Guid, e: Sample)
    requires CoreInv(c) && g in c.readers && w in c.writers && e in Wanted(c, g, w)
    ensures Published(c, w, e.sn) && SampleAt(c, w, e.sn) == e && e.sn > GapTop(c, g, w)
  {
    hide CoreInv, Monotone, GapEnd, Wanted, GapTop, WillNeverSend, W.TrackInv, W.Pictures, TrackOf;
    WantedIff(c, g, w, e);
    PairFacts(c, g, w);
    HeldIsPublished(c, w, e);
    GapTopIff(c, g, w, e.sn);
    var s, r := c.writers[w].state, c.readers[g];
    HeldIsSent(s.history, s.sn, e, Clamp(r), r.birthUs);
  }

  lemma Plan(c: Core, g: Guid, w: Guid)
    requires CoreInv(c) && g in c.readers && w in c.writers
    ensures PlanOk(Track(c, g, w), Wanted(c, g, w), GapTop(c, g, w))
  {
    hide CoreInv, Wanted, GapTop, TrackOf, Published, SampleAt;
    forall e | e in Wanted(c, g, w)
      ensures var t := Track(c, g, w);
              e.sn !in t.got && t.rx.last < e.sn <= t.rx.last + 64 && e.sn > GapTop(c, g, w)
      ensures Published(c, w, e.sn) && SampleAt(c, w, e.sn) == e
    {
      WantedIff(c, g, w, e);
      WantedFacts(c, g, w, e);
    }
    GapTopIff(c, g, w, 0);
  }

  lemma AnswerIff(c: Core, g: Guid, w: Guid, env: Env, p: Packet)
    requires Ready(c, g, w, env)
    ensures var src, dst := c.writers[w].host, c.readers[g].host;
            p in Answer(c, g, w, env) <==>
              || (exists e :: e in Wanted(c, g, w) && p in SendSample(src, dst, Flags(c.writers[w]), w, e, env.mtu))
              || (GapTop(c, g, w) > 0 && p == Packet(src, dst, Gap(w, g, Track(c, g, w).rx.last + 1, GapTop(c, g, w))))
  {
    hide CoreInv, Resends, GapEnd, SendSample;
  }

  lemma AnswerOk(c: Core, g: Guid, w: Guid, env: Env)
    requires Ready(c, g, w, env)
    ensures NetOk(c, Answer(c, g, w, env))
  {
    hide CoreInv, HandleAckNack, NackState, PacketOk, NackTrue;
    NackIsTrue(c, g, w, c.writers[w].host);
    AckNackKeeps(c, c.readers[g].host, c.writers[w].host, Nack(g, c.readers[g], w), env);
  }

  lemma SendShape(src: Host, dst: Host, flags: nat, w: Guid, e: Sample, mtu: nat, p: Packet)
    requires p in SendSample(src, dst, flags, w, e, mtu)
    ensures p.src == src && p.dst == dst && (IsData(p, w, e.sn) || IsFrag(p, w, e.sn))
  {
    if HEADER_SIZE + DATA_FIXED + |e.payload| > mtu && mtu > F.FRAME_OVERHEAD {
      F.ChunksTile(flags, w, e.sn, e.pubMs, e.payload, 0, mtu - F.FRAME_OVERHEAD);
    }
  }

  // ---- the effect of one frame on the pair ----

  lemma SampleEffect(c: Core, src: Host, g: Guid, w: Guid, sn: nat, pubMs: nat, payload: Bytes)
    requires CoreInv(c) && w in c.writers && g in c.readers && Matches(c.readers[g], c.writers[w])
    ensures var h := c.readers[g].host;
            var c' := HandleSample(c, src, h, w, sn, pubMs, payload, true).0;
            && g in c'.readers && Track(c', g, w) == W.OnData(Track(c, g, w), sn)
            && c'.readers[g].host == h && c'.writers == c.writers && c'.partials == c.partials
  {
    hide Deliver, ReaderInv, W.OnData;
    var r := c.readers[g];
    assert ReaderOk(c, r);
    DeliverKeeps(r.state, Item(w, sn, pubMs, payload, c.writers[w].state.qos.lifespanMs), NowMs(c));
  }

  lemma GapEffect(c: Core, g: Guid, w: Guid, f: Frame)
    requires CoreInv(c) && g in c.readers && f.Gap? && f.writer == w && f.reader == g && f.start <= f.end
    ensures var h := c.readers[g].host;
            var c' := HandleGap(c, h, f).0;
            var t, t' := Track(c, g, w), Track(c', g, w);
            && g in c'.readers && t'.got == t.got && t'.rx.last == Max(f.end, t.rx.last)
            && c'.readers[g].host == h && c'.writers == c.writers && c'.partials == c.partials
  {
    assert ReaderOk(c, c.readers[g]);
    GapOnState(c.readers[g].state, w, f.end);
  }

  lemma GapOnState(r: ReaderState, w: Guid, end: nat)
    requires ReaderInv(r)
    ensures var t, t' := TrackOf(r, w), TrackOf(Skip(r, w, end), w);
            t'.got == t.got && t'.rx.last == Max(end, t.rx.last)
  {
    hide ReaderInv, Skip;
    TracksInv(r, w);
    SkipKeeps(r, w, end);
  }

  lemma TableHere(c: Core, h: Host, peer: nat)
    requires CoreInv(c)
    ensures TableOk(c, h, PartialsAt(c, h, peer))
  {
    hide TableOk, ReaderOk, WriterOk, HandoverOk;
    if (h, peer) in c.partials {
      assert TableOk(c, h, c.partials[(h, peer)]);
    } else {
      EmptyTable(c, h);
    }
  }

  lemma EmptyTable(c: Core, h: Host)
    ensures TableOk(c, h, map[])
  {
  }

  /** A fragment of a published sample either completes it, and then the payload
      is what was published, or is absorbed. Other samples' partials stay. */
  lemma PieceEffect(c: Core, src: Host, h: Host, w: Guid, e: Sample, f: Frame, env: Env)
    requires CoreInv(c) && PacketOk(c, Packet(src, h, f)) && f.DataFrag? && f.writer == w && f.sn == e.sn
    requires Published(c, w, e.sn) && SampleAt(c, w, e.sn) == e
    ensures Receivable(c, h, f, env)
    ensures var ps := PartialsAt(c, h, env.peer);
            var (ps', out) := F.AddFragment(ps, f, env.time);
            && (forall k | k in ps && k != (w, e.sn) :: k in ps' && ps'[k] == ps[k])
            && (out.Some? ==> out.value == e.payload)
            && (out.None? ==> Absorbed(ps', (w, e.sn), e, f))
            && (out.None? && (w, e.sn) in ps ==>
                  forall x: nat :: I.Covers(ps[(w, e.sn)].intervals, x) ==> I.Covers(ps'[(w, e.sn)].intervals, x))
  {
    hide CoreInv, PacketOk, Published, SampleAt, Justified, F.Agrees, F.AddFragment, F.PieceOf, F.AllSound, I.Covers;
    FragAddable(c, src, h, f);
    TableHere(c, h, env.peer);
    var ps := PartialsAt(c, h, env.peer);
    TableEntry(c, h, ps, (w, e.sn));
    F.AddFragmentSound(ps, f, env.time);
    F.AddPiece(ps, f, e.payload, env.time);
  }

  lemma TableEntry(c: Core, h: Host, ps: map<F.Key, F.Partial>, k: F.Key)
    requires TableOk(c, h, ps)
    ensures F.AllSound(ps)
    ensures k in ps ==> Published(c, k.0, k.1) && F.Agrees(ps[k], SampleAt(c, k.0, k.1).payload)
  {
  }

  // ---- one frame of the answer ----

  lemma ArrivingFacts(c0: Core, c: Core, g: Guid, w: Guid, env: Env, seen: seq<Packet>)
    requires g in c0.readers && w in c0.writers && Arriving(c0, c, g, w, env, seen)
    ensures CoreInv(c) && Grows(c0, c) && c.writers == c0.writers && g in c.readers
    ensures c.readers[g].host == c0.readers[g].host
    ensures Matches(c0.readers[g], c0.writers[w]) == Matches(c.readers[g], c.writers[w])
    ensures Progress(Track(c0, g, w), Wanted(c0, g, w), GapTop(c0, g, w), w,
                     Track(c, g, w), PartialsAt(c, c.readers[g].host, env.peer), seen)
    ensures W.TrackInv(Track(c, g, w))
  {
    hide Progress, WriterGrows;
    assert ReaderGrows(c0.readers[g], c.readers[g]);
    TracksInv(c.readers[g].state, w) by { assert ReaderOk(c, c.readers[g]); }
  }

  lemma DataArrives(c0: Core, c: Core, g: Guid, w: Guid, env: Env, seen: seq<Packet>, p: Packet, e: Sample)
    requires Ready(c0, g, w, env) && Arriving(c0, c, g, w, env, seen) && e in Wanted(c0, g, w)
    requires IsData(p, w, e.sn) && p.dst == c0.readers[g].host
    ensures var c' := HandleFrame(c, p.src, p.dst, p.frame, env).0;
            CoreInv(c') && Grows(c0, c') ==> Arriving(c0, c', g, w, env, seen + [p])
  {
    hide CoreInv, Grows, HandleSample, Wanted, GapTop, PlanOk, Progress, Arriving, TrackOf, W.OnData, W.TrackInv;
    ArrivingFacts(c0, c, g, w, env, seen);
    Plan(c0, g, w);
    SampleEffect(c, p.src, g, w, e.sn, p.frame.pubMs, p.frame.payload);
    var ps := PartialsAt(c, p.dst, env.peer);
    SampleProgress(Track(c0, g, w), Wanted(c0, g, w), GapTop(c0, g, w), w, Track(c, g, w), ps, ps, seen, p, e);
    Arrived(c0, HandleFrame(c, p.src, p.dst, p.frame, env).0, g, w, env, seen + [p]);
  }

  /** `Arriving` from its parts. */
  lemma Arrived(c0: Core, c: Core, g: Guid, w: Guid, env: Env, seen: seq<Packet>)
    requires g in c0.readers && w in c0.writers && g in c.readers && c.writers == c0.writers
    requires Progress(Track(c0, g, w), Wanted(c0, g, w), GapTop(c0, g, w), w,
                      Track(c, g, w), PartialsAt(c, c.readers[g].host, env.peer), seen)
    ensures CoreInv(c) && Grows(c0, c) ==> Arriving(c0, c, g, w, env, seen)
  {
    hide CoreInv, Grows, Progress, Wanted, GapTop;
  }

  lemma GapArrives(c0: Core, c: Core, g: Guid, w: Guid, env: Env, seen: seq<Packet>, p: Packet)
    requires Ready(c0, g, w, env) && Arriving(c0, c, g, w, env, seen) && GapTop(c0, g, w) > 0
    requires p.frame == Gap(w, g, Track(c0, g, w).rx.last + 1, GapTop(c0, g, w)) && p.dst == c0.readers[g].host
    ensures var c' := HandleFrame(c, p.src, p.dst, p.frame, env).0;
            CoreInv(c') && Grows(c0, c') ==> Arriving(c0, c', g, w, env, seen + [p])
  {
    hide CoreInv, Grows, HandleGap, Wanted, GapTop, Progress, Arriving, TrackOf, W.TrackInv;
    ArrivingFacts(c0, c, g, w, env, seen);
    Plan(c0, g, w);
    GapEffect(c, g, w, p.frame);
    var c' := HandleFrame(c, p.src, p.dst, p.frame, env).0;
    GapProgress(Track(c0, g, w), Wanted(c0, g, w), GapTop(c0, g, w), w, Track(c, g, w), Track(c', g, w),
                PartialsAt(c, p.dst, env.peer), seen, p);
    Arrived(c0, c', g, w, env, seen + [p]);
  }

  lemma FragArrives(c0: Core, c: Core, g: Guid, w: Guid, env: Env, seen: seq<Packet>, p: Packet, e: Sample)
    requires Ready(c0, g, w, env) && Arriving(c0, c, g, w, env, seen) && e in Wanted(c0, g, w)
    requires IsFrag(p, w, e.sn) && p.dst == c0.readers[g].host && PacketOk(c, p)
    requires Published(c, w, e.sn) && SampleAt(c, w, e.sn) == e
    ensures var c' := HandleFrame(c, p.src, p.dst, p.frame, env).0;
            CoreInv(c') && Grows(c0, c') ==> Arriving(c0, c', g, w, env, seen + [p])
  {
    hide CoreInv, Grows, HandleSample, Wanted, GapTop, PlanOk, Progress, Arriving, PacketOk, Published, SampleAt,
      Absorbed, TrackOf, F.AddFragment, W.OnData, W.TrackInv, I.Covers;
    ArrivingFacts(c0, c, g, w, env, seen);
    Plan(c0, g, w);
    PieceEffect(c, p.src, p.dst, w, e, p.frame, env);
    var ps := PartialsAt(c, p.dst, env.peer);
    var (ps', out) := F.AddFragment(ps, p.frame, env.time);
    var c1 := c.(partials := c.partials[(p.dst, env.peer) := ps']);
    var c' := HandleFrame(c, p.src, p.dst, p.frame, env).0;
    match out
    case Some(b) =>
      FragCore(c, p.src, p.dst, p.frame, env);
      SampleEffect(c1, p.src, g, w, e.sn, p.frame.pubMs, b);
      SampleProgress(Track(c0, g, w), Wanted(c0, g, w), GapTop(c0, g, w), w, Track(c, g, w), ps, ps', seen, p, e);
      Arrived(c0, c', g, w, env, seen + [p]);
    case None =>
      PieceProgress(Track(c0, g, w), Wanted(c0, g, w), GapTop(c0, g, w), w, Track(c, g, w), ps, ps', seen, p, e);
      Arrived(c0, c', g, w, env, seen + [p]);
  }

  /** Storing the new table keeps the invariant. */
  lemma FragCore(c: Core, src: Host, dst: Host, f: Frame, env: Env)
    requires CoreInv(c) && f.DataFrag? && PacketOk(c, Packet(src, dst, f)) && Receivable(c, dst, f, env)
    ensures var ps := F.AddFragment(PartialsAt(c, dst, env.peer), f, env.time).0;
            CoreInv(c.(partials := c.partials[(dst, env.peer) := ps]))
  {
    hide PacketOk, ReaderOk, WriterOk, TableOk, HandoverOk, Grows, Published, SampleAt, Justified, F.AddFragment,
      F.PieceOf;
    FragAddable(c, src, dst, f);
    TableHere(c, dst, env.peer);
    FragTable(c, dst, PartialsAt(c, dst, env.peer), f, env.time);
    var c1 := c.(partials := c.partials[(dst, env.peer) := F.AddFragment(PartialsAt(c, dst, env.peer), f, env.time).0]);
    SameEndpointsGrow(c, c1);
    CoreCloses(c, c1);
  }

  lemma PacketArrives(c0: Core, c: Core, g: Guid, w: Guid, env: Env, seen: seq<Packet>, p: Packet)
    requires Ready(c0, g, w, env) && Arriving(c0, c, g, w, env, seen) && p in Answer(c0, g, w, env)
    ensures Arriving(c0, HandleFrame(c, p.src, p.dst, p.frame, env).0, g, w, env, seen + [p])
  {
    hide CoreInv, Grows, Wanted, GapTop, SendSample, HandleFrame, Arriving, PacketOk, Published, SampleAt, Answer,
      TrackOf;
    AnswerIff(c0, g, w, env, p);
    AnswerOk(c0, g, w, env);
    ArrivingFacts(c0, c, g, w, env, seen);
    PacketOkGrows(c0, c, p);
    ReceiveKeeps(c, p, env);
    GrowsTrans(c0, c, HandleFrame(c, p.src, p.dst, p.frame, env).0);
    if e :| e in Wanted(c0, g, w) &&
            p in SendSample(c0.writers[w].host, c0.readers[g].host, Flags(c0.writers[w]), w, e, env.mtu)
    {
      SendShape(c0.writers[w].host, c0.readers[g].host, Flags(c0.writers[w]), w, e, env.mtu, p);
      if p.frame.Data? {
        DataArrives(c0, c, g, w, env, seen, p, e);
      } else {
        WantedFacts(c0, g, w, e);
        PublishedGrows(c0, c, w, e.sn);
        FragArrives(c0, c, g, w, env, seen, p, e);
      }
    } else {
      GapArrives(c0, c, g, w, env, seen, p);
    }
  }

  // ---- the whole round ----

  lemma {:induction false} AllArrive(c0: Core, g: Guid, w: Guid, env: Env, ps: seq<Packet>)
    requires Ready(c0, g, w, env) && forall p | p in ps :: p in Answer(c0, g, w, env)
    ensures Arriving(c0, ReceiveAll(c0, ps, env), g, w, env, ps)
    decreases |ps|
  {
    hide Ready, Answer, HandleFrame, Arriving;
    if ps == [] {
      NothingYet(c0, g, w, env);
    } else {
      var pre := ps[..|ps| - 1];
      AllArrive(c0, g, w, env, pre);
      PacketArrives(c0, ReceiveAll(c0, pre, env), g, w, env, pre, ps[|ps| - 1]);
      assert pre + [ps[|ps| - 1]] == ps;
    }
  }

  lemma NothingYet(c0: Core, g: Guid, w: Guid, env: Env)
    requires Ready(c0, g, w, env)
    ensures Arriving(c0, c0, g, w, env, [])
  {
    hide CoreInv, Grows, Wanted, GapTop, Progress;
    Plan(c0, g, w);
    NothingSeen(Track(c0, g, w), Wanted(c0, g, w), GapTop(c0, g, w), w, PartialsAt(c0, c0.readers[g].host, env.peer));
    GrowsRefl(c0);
  }

  /** When all of the answer but its GAP has arrived, a wanted sample is
      received. */
  lemma WantedArrives(c0: Core, c: Core, g: Guid, w: Guid, env: Env, seen: seq<Packet>, e: Sample)
    requires Ready(c0, g, w, env) && Arriving(c0, c, g, w, env, seen) && e in Wanted(c0, g, w)
    requires forall p | p in Answer(c0, g, w, env) && !p.frame.Gap? :: p in seen
    ensures e.sn in Track(c, g, w).got
  {
    hide CoreInv, Grows, Wanted, GapTop, Pending, TrackOf, Answer, F.Tiles;
    var src, dst, flags := c0.writers[w].host, c0.readers[g].host, Flags(c0.writers[w]);
    var fs := F.Fragment(flags, w, e.sn, e.pubMs, e.payload, env.mtu);
    forall k | 0 <= k < |fs|
      ensures Packet(src, dst, fs[k]) in seen
    {
      assert Packet(src, dst, fs[k]) in SendSample(src, dst, flags, w, e, env.mtu);
      AnswerIff(c0, g, w, env, Packet(src, dst, fs[k]));
      SendShape(src, dst, flags, w, e, env.mtu, Packet(src, dst, fs[k]));
    }
    if HEADER_SIZE + DATA_FIXED + |e.payload| > env.mtu {
      F.ChunksTile(flags, w, e.sn, e.pubMs, e.payload, 0, env.mtu - F.FRAME_OVERHEAD);
    }
    AllSeen(PartialsAt(c, c.readers[g].host, env.peer), w, e, seen, src, dst, fs);
  }

  lemma RoundArrives(c: Core, c': Core, g: Guid, w: Guid, env: Env) returns (seen: seq<Packet>)
    requires Ready(c, g, w, env) && IsRound(c, c', g, w, env)
    ensures Arriving(c, c', g, w, env, seen) && forall p :: p in seen <==> p in Answer(c, g, w, env)
  {
    hide Ready, Answer, Arriving;
    seen :| (forall p :: p in seen <==> p in Answer(c, g, w, env)) && c' == ReceiveAll(c, seen, env);
    AllArrive(c, g, w, env, seen);
  }

  /** Healing: after one lossless round, in any order and with any repetition,
      the reader has every seq of [base, base + 63] that the writer holds and
      the reader is entitled to. */
  lemma RoundHeals(c: Core, c': Core, g: Guid, w: Guid, env: Env, e: Sample)
    requires Ready(c, g, w, env) && IsRound(c, c', g, w, env)
    requires e in c.writers[w].state.history && Entitled(e, Clamp(c.readers[g]), c.readers[g].birthUs)
    requires Track(c, g, w).rx.last < e.sn <= Track(c, g, w).rx.last + 64
    ensures g in c'.readers && e.sn in Track(c', g, w).got
  {
    hide CoreInv, Grows, IsRound, Wanted, GapTop, Answer, TrackOf, Pending, W.TrackInv;
    var seen := RoundArrives(c, c', g, w, env);
    WantedIff(c, g, w, e);
    if e in Wanted(c, g, w) { WantedArrives(c, c', g, w, env, seen, e); }
  }
}
