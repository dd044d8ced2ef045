/** Every step of the protocol keeps the invariant. */
module Preservation {
  import opened Base
  import opened Words
  import opened Frames
  import opened Writers
  import opened Readers
  import opened Systems
  import opened Invariants
  import F = Fragments
  import W = Window

  lemma ReaderGrowsRefl(r: ReaderNode)
    ensures ReaderGrows(r, r)
  {
  }

  lemma GrowsRefl(c: Core)
    ensures Grows(c, c)
  {
  }

  // ---- one reader ----

  /** Everything but the state of its queue and tracks. */
  predicate SameReader(r: ReaderNode, r': ReaderNode) {
    && r'.host == r.host && r'.topic == r.topic && r'.typeName == r.typeName
    && r'.birthUs == r.birthUs && r'.state.qos == r.state.qos
  }

  lemma MatchesGrows(r: ReaderNode, r': ReaderNode, w: WriterNode, w': WriterNode)
    requires (r' == r || ReaderGrows(r, r')) && (w' == w || WriterGrows(w, w'))
    ensures Matches(r', w') == Matches(r, w) && r'.state.qos == r.state.qos
  {
  }

  lemma ReaderIsOk(c: Core, g: Guid)
    requires CoreInv(c) && g in c.readers
    ensures ReaderOk(c, c.readers[g])
  {
  }

  lemma ReaderInvOf(c: Core, g: Guid)
    requires CoreInv(c) && g in c.readers
    ensures ReaderInv(c.readers[g].state)
  {
    ReaderIsOk(c, g);
  }

  /** A genuine, justified sample may be delivered to any matching reader of the
      host. */
  lemma DeliverToOk(c: Core, r: ReaderNode, item: Item, nowMs: nat)
    requires ReaderOk(c, r) && Genuine(c, item) && Justified(c, r.host, item.writer, item.sn)
    requires WriterInv(c.writers[item.writer].state) && Matches(r, c.writers[item.writer])
    ensures ReaderOk(c, DeliverTo(r, item, nowMs)) && ReaderGrows(r, DeliverTo(r, item, nowMs))
  {
    hide ReaderInv, Deliver, Justified, NeverDue, SampleAt, W.OnData, W.Enqueue, W.TrackInv;
    var r' := DeliverTo(r, item, nowMs);
    var t := TrackOf(r.state, item.writer);
    DeliverKeeps(r.state, item, nowMs);
    TracksInv(r.state, item.writer);
    W.DataKeeps(t, item.sn);
    var t' := W.OnData(t, item.sn);
    assert PairOk(c, r, item.writer, t) by { FreshPairOk(c, r, item.writer); }
    assert PairOk(c, r', item.writer, t') by { DataPairOk(c, r, r', item.writer, item.sn, t); }
    forall w | w in r'.state.tracks
      ensures PairOk(c, r', w, r'.state.tracks[w])
    {
      if w != item.writer {
        assert TrackOf(r'.state, w) == TrackOf(r.state, w);
        OtherTracks(r.state, r'.state, w);
        SamePairOk(c, r, r', w, r.state.tracks[w]);
      }
    }
  }

  lemma OtherTracks(s: ReaderState, s': ReaderState, w: Guid)
    requires ReaderInv(s') && w in s'.tracks && TrackOf(s', w) == TrackOf(s, w)
    ensures w in s.tracks && s'.tracks[w] == s.tracks[w]
  {
  }

  /** A track not yet begun is fine for any writer. */
  lemma FreshPairOk(c: Core, r: ReaderNode, w: Guid)
    requires ReaderOk(c, r) && w in c.writers
    ensures PairOk(c, r, w, TrackOf(r.state, w))
  {
  }

  lemma SamePairOk(c: Core, r: ReaderNode, r': ReaderNode, w: Guid, t: W.Track)
    requires PairOk(c, r, w, t)
    requires SameReader(r, r')
    ensures PairOk(c, r', w, t)
  {
    hide Justified, NeverDue;
    forall s | s in t.gapLost
      ensures NeverDue(c, r', w, s)
    {
      NeverDueSame(c, r, r', w, s);
    }
  }

  lemma DataPairOk(c: Core, r: ReaderNode, r': ReaderNode, w: Guid, sn: nat, t: W.Track)
    requires PairOk(c, r, w, t) && W.TrackInv(t) && Justified(c, r.host, w, sn)
    requires Published(c, w, sn) && WriterInv(c.writers[w].state) && Matches(r, c.writers[w])
    requires SameReader(r, r')
    ensures PairOk(c, r', w, W.OnData(t, sn))
  {
    hide NeverDue, W.OnData, W.Enqueue, W.TrackInv;
    W.DataKeeps(t, sn);
    var t' := W.OnData(t, sn);
    if t'.rx.last > t.rx.last {
      assert Justified(c, r.host, w, t'.rx.last);
    }
    assert PairOk(c, r, w, t');
    SamePairOk(c, r, r', w, t');
  }

  /** A GAP may be applied when all of it below the baseline's reach is either
      received or out of the reader's reach. */
  lemma SkipOk(c: Core, r: ReaderNode, w: Guid, start: nat, end: nat)
    requires ReaderOk(c, r) && w in c.writers && WriterInv(c.writers[w].state)
    requires start <= TrackOf(r.state, w).rx.last + 1 && NeverDue(c, r, w, end)
    requires forall s | start <= s <= end :: s in TrackOf(r.state, w).got || NeverDue(c, r, w, s)
    ensures var r' := r.(state := Skip(r.state, w, end));
            ReaderOk(c, r') && ReaderGrows(r, r')
  {
    hide ReaderInv, Skip, Justified, NeverDue, SampleAt, W.OnGap, W.SkipTo, W.TrackInv, W.Missing;
    var r' := r.(state := Skip(r.state, w, end));
    var t := TrackOf(r.state, w);
    SkipKeeps(r.state, w, end);
    TracksInv(r.state, w);
    W.GapKeeps(t, end);
    FreshPairOk(c, r, w);
    assert PairOk(c, r', w, W.OnGap(t, end)) by { GapPairOk(c, r, r', w, start, end, t); }
    forall v | v in r'.state.tracks
      ensures PairOk(c, r', v, r'.state.tracks[v])
    {
      if v != w {
        assert TrackOf(r'.state, v) == TrackOf(r.state, v);
        OtherTracks(r.state, r'.state, v);
        SamePairOk(c, r, r', v, r.state.tracks[v]);
      }
    }
  }

  lemma GapPairOk(c: Core, r: ReaderNode, r': ReaderNode, w: Guid, start: nat, end: nat, t: W.Track)
    requires PairOk(c, r, w, t) && W.TrackInv(t) && WriterInv(c.writers[w].state)
    requires start <= t.rx.last + 1 && NeverDue(c, r, w, end)
    requires forall s | start <= s <= end :: s in t.got || NeverDue(c, r, w, s)
    requires SameReader(r, r')
    ensures PairOk(c, r', w, W.OnGap(t, end))
  {
    hide Justified, W.TrackInv;
    W.GapKeeps(t, end);
    var t' := W.OnGap(t, end);
    forall s | s in t'.gapLost
      ensures NeverDue(c, r, w, s)
    {
      if s !in t.gapLost { assert s in W.Missing(t.got, t.rx.last, end); }
    }
    assert end <= c.writers[w].state.sn;
    assert PairOk(c, r, w, t');
    SamePairOk(c, r, r', w, t');
  }

  /** Dropping or taking queued items concerns nobody else. */
  lemma QueueOnlyOk(c: Core, r: ReaderNode, state: ReaderState)
    requires ReaderOk(c, r) && ReaderInv(state)
    requires state.tracks == r.state.tracks && state.queued == r.state.queued && state.qos == r.state.qos
    ensures ReaderOk(c, r.(state := state)) && ReaderGrows(r, r.(state := state))
  {
    hide ReaderInv, Justified, NeverDue;
    var r' := r.(state := state);
    forall w | w in r'.state.tracks
      ensures PairOk(c, r', w, r'.state.tracks[w])
    {
      SamePairOk(c, r, r', w, r.state.tracks[w]);
    }
  }

  // ---- outgoing frames ----

  /** A reliable reader may ask. */
  lemma NackOk(c: Core, g: Guid, w: Guid, dst: Host)
    requires CoreInv(c) && g in c.readers && w in c.writers && Matches(c.readers[g], c.writers[w])
    requires c.readers[g].state.qos.reliability == RELIABLE
    ensures PacketOk(c, Packet(c.readers[g].host, dst, Nack(g, c.readers[g], w)))
  {
    hide CoreInv, TrackOf;
    NackIsTrue(c, g, w, dst);
  }

  lemma NackIsTrue(c: Core, g: Guid, w: Guid, dst: Host)
    requires CoreInv(c) && g in c.readers && w in c.writers && Matches(c.readers[g], c.writers[w])
    ensures NackTrue(c, Packet(c.readers[g].host, dst, Nack(g, c.readers[g], w)))
  {
    hide CoreInv, TrackOf, W.Pictures;
    NackFacts(c, g, w);
    var t := TrackOf(c.readers[g].state, w);
    forall i: nat | i < 64 && Bit(t.rx.window, i)
      ensures t.rx.last + 1 + i in t.got
    {
      PictureBit(t.rx, t.got, i);
    }
  }

  lemma NackFacts(c: Core, g: Guid, w: Guid)
    requires CoreInv(c) && g in c.readers && w in c.writers
    ensures var t := TrackOf(c.readers[g].state, w);
            W.Pictures(t.rx, t.got) && t.rx.last + 1 < U64 && t.rx.window < U64
  {
    hide ReaderInv, Justified, NeverDue, TableOk, HandoverOk, WriterInv;
    var r := c.readers[g];
    assert ReaderOk(c, r) && WriterOk(c.nowUs, c.writers[w]);
    FreshPairOk(c, r, w);
    TracksInv(r.state, w);
  }

  lemma PictureBit(rx: W.Rx, got: set<nat>, i: nat)
    requires W.Pictures(rx, got) && i < 64 && Bit(rx.window, i)
    ensures rx.last + 1 + i in got
  {
  }

  /** Every frame of a published, justified sample may be sent. */
  lemma SendOk(c: Core, src: Host, dst: Host, flags: nat, w: Guid, s: Sample, mtu: nat)
    requires CoreInv(c) && Published(c, w, s.sn) && SampleAt(c, w, s.sn) == s && Justified(c, dst, w, s.sn)
    requires flags == Flags(c.writers[w])
    ensures NetOk(c, SendSample(src, dst, flags, w, s, mtu))
  {
    hide ReaderOk, TableOk, HandoverOk, Justified;
    assert WriterOk(c.nowUs, c.writers[w]);
    assert s.pubMs == s.pubUs / 1000 <= s.pubUs <= c.nowUs;
    F.FragmentShape(flags, w, s.sn, s.pubMs, s.payload, mtu);
    var fs := F.Fragment(flags, w, s.sn, s.pubMs, s.payload, mtu);
    forall p | p in SendSample(src, dst, flags, w, s, mtu)
      ensures PacketOk(c, p)
    {
      var k :| 0 <= k < |fs| && fs[k] == p.frame;
      FrameOk(c, src, dst, flags, w, s, fs[k]);
    }
  }

  lemma FrameOk(c: Core, src: Host, dst: Host, flags: nat, w: Guid, s: Sample, f: Frame)
    requires Published(c, w, s.sn) && SampleAt(c, w, s.sn) == s && Justified(c, dst, w, s.sn) && Fits(f)
    requires flags == Flags(c.writers[w])
    requires f == Data(flags, w, s.sn, s.pubMs, s.payload) ||
             (F.PieceOf(f, w, s.sn, s.payload) && f.chunk != [] && f.pubMs == s.pubMs && f.flags == flags)
    ensures PacketOk(c, Packet(src, dst, f))
  {
  }

  // ---- the receiving handlers ----

  lemma SampleKeeps(c: Core, src: Host, dst: Host, w: Guid, sn: nat, pubMs: nat, payload: Bytes, discovered: bool)
    requires CoreInv(c) && Justified(c, dst, w, sn) && Published(c, w, sn)
    requires SampleAt(c, w, sn).payload == payload && SampleAt(c, w, sn).pubMs == pubMs
    ensures var (c', out) := HandleSample(c, src, dst, w, sn, pubMs, payload, discovered);
            CoreInv(c') && Grows(c, c') && NetOk(c', out)
  {
    hide ReaderOk, ReaderGrows, Justified, SampleAt, TableOk, HandoverOk, Deliver, NackState, PacketOk;
    var (c', out) := HandleSample(c, src, dst, w, sn, pubMs, payload, discovered);
    if discovered {
      var item := Item(w, sn, pubMs, payload, c.writers[w].state.qos.lifespanMs);
      assert WriterOk(c.nowUs, c.writers[w]);
      forall g | g in c.readers
        ensures g in c'.readers && ReaderOk(c, c'.readers[g]) && ReaderGrows(c.readers[g], c'.readers[g])
      {
        ReaderGrowsRefl(c.readers[g]);
        if Offered(c, dst, c.readers[g], w) { DeliverToOk(c, c.readers[g], item, NowMs(c)); }
      }
      CoreCloses(c, c');
      forall p | p in out
        ensures PacketOk(c', p)
      {
        var g :| g in c.readers && Offered(c, dst, c.readers[g], w) && c.readers[g].state.qos.reliability == RELIABLE &&
                 p == Packet(dst, src, Nack(g, c'.readers[g], w));
        assert c'.readers[g].host == dst;
        MatchesGrows(c.readers[g], c'.readers[g], c.writers[w], c'.writers[w]);
        NackOk(c', g, w, src);
      }
    } else {
      GrowsRefl(c);
    }
  }

  lemma FragKeeps(c: Core, src: Host, dst: Host, f: Frame, env: Env)
    requires CoreInv(c) && f.DataFrag? && PacketOk(c, Packet(src, dst, f))
    ensures Receivable(c, dst, f, env)
    ensures var (c', out) := HandleFrag(c, src, dst, f, env);
            CoreInv(c') && Grows(c, c') && NetOk(c', out)
  {
    hide ReaderOk, ReaderGrows, Justified, SampleAt, HandoverOk, F.Agrees, F.AddFragment, F.PieceOf;
    var ps := PartialsAt(c, dst, env.peer);
    assert TableOk(c, dst, ps) by {
      if (dst, env.peer) in c.partials { assert TableOk(c, dst, c.partials[(dst, env.peer)]); }
    }
    FragAddable(c, src, dst, f);
    var (ps', o) := F.AddFragment(ps, f, env.time);
    FragTable(c, dst, ps, f, env.time);
    var c1 := c.(partials := c.partials[(dst, env.peer) := ps']);
    assert Grows(c, c1) by { GrowsRefl(c); SameEndpointsGrow(c, c1); }
    CoreCloses(c, c1);
    if o.Some? {
      JustifiedGrows(c, c1, dst, f.writer, f.sn);
      PublishedGrows(c, c1, f.writer, f.sn);
      SampleKeeps(c1, src, dst, f.writer, f.sn, f.pubMs, o.value, env.discovered);
      GrowsTrans(c, c1, HandleFrag(c, src, dst, f, env).0);
    }
  }

  lemma SameEndpointsGrow(c: Core, c': Core)
    requires c'.writers == c.writers && c'.readers == c.readers && c.nowUs <= c'.nowUs
    ensures Grows(c, c')
  {
  }

  lemma FragAddable(c: Core, src: Host, dst: Host, f: Frame)
    requires f.DataFrag? && PacketOk(c, Packet(src, dst, f))
    ensures F.Addable(f) && Justified(c, dst, f.writer, f.sn) && Published(c, f.writer, f.sn)
    ensures SampleAt(c, f.writer, f.sn).payload != [] && SampleAt(c, f.writer, f.sn).pubMs == f.pubMs
    ensures F.PieceOf(f, f.writer, f.sn, SampleAt(c, f.writer, f.sn).payload)
  {
  }

  /** The reassembler's table stays consistent, and what it completes is the
      published payload. */
  lemma FragTable(c: Core, dst: Host, ps: map<F.Key, F.Partial>, f: Frame, time: nat)
    requires TableOk(c, dst, ps) && F.Addable(f)
    requires Justified(c, dst, f.writer, f.sn) && Published(c, f.writer, f.sn)
    requires SampleAt(c, f.writer, f.sn).payload != []
    requires F.PieceOf(f, f.writer, f.sn, SampleAt(c, f.writer, f.sn).payload)
    ensures var (ps', o) := F.AddFragment(ps, f, time);
            TableOk(c, dst, ps') && (o.Some? ==> o.value == SampleAt(c, f.writer, f.sn).payload)
  {
    hide Justified, SampleAt, F.Agrees, F.AddFragment, F.PieceOf, F.Sound;
    F.AddFragmentSound(ps, f, time);
    F.AddPiece(ps, f, SampleAt(c, f.writer, f.sn).payload, time);
  }

  lemma AckNackKeeps(c: Core, src: Host, dst: Host, f: Frame, env: Env)
    requires CoreInv(c) && f.AckNack? && NackTrue(c, Packet(src, dst, f))
    ensures var (c', out) := HandleAckNack(c, src, dst, f, env);
            c' == c && NetOk(c, out)
  {
    hide ReaderOk, TableOk, HandoverOk, Justified, Resends, GapEnd, SendSample, PacketOk, NackTrue;
    var (c', out) := HandleAckNack(c, src, dst, f, env);
    if out != {} {
      var w, r := c.writers[f.writer], c.readers[f.reader];
      AckNackFacts(c, src, dst, f);
      assert WriterOk(c.nowUs, w);
      HistoryContiguous(w.state);
      forall p | p in out
        ensures PacketOk(c, p)
      {
        if e :| e in Resends(w.state.history, f.base, f.bitmap, Clamp(r), r.birthUs, 64) &&
                p in SendSample(dst, src, Flags(w), f.writer, e, env.mtu)
        {
          ResendIff(w.state.history, w.state.sn, f.base, f.bitmap, Clamp(r), r.birthUs, 64, e);
          HeldIsPublished(c, f.writer, e);
          assert MayGet(c, r, f.writer, e.sn);
          assert Justified(c, src, f.writer, e.sn) by { JustifiedBy(c, f.reader, f.writer, e.sn); }
          SendOk(c, dst, src, Flags(w), f.writer, e, env.mtu);
        } else {
          AnswerGapOk(c, src, dst, f);
        }
      }
    }
  }

  lemma JustifiedBy(c: Core, g: Guid, w: Guid, sn: nat)
    requires g in c.readers && MayGet(c, c.readers[g], w, sn)
    ensures Justified(c, c.readers[g].host, w, sn)
  {
  }

  lemma AckNackFacts(c: Core, src: Host, dst: Host, f: Frame)
    requires f.AckNack? && NackTrue(c, Packet(src, dst, f))
    ensures f.reader in c.readers && c.readers[f.reader].host == src && f.writer in c.writers
    ensures Matches(c.readers[f.reader], c.writers[f.writer])
    ensures 1 <= f.base <= TrackOf(c.readers[f.reader].state, f.writer).rx.last + 1
    ensures forall i: nat | i < 64 && Bit(f.bitmap, i) :: f.base + i in TrackOf(c.readers[f.reader].state, f.writer).got
  {
  }

  lemma HeldIsPublished(c: Core, w: Guid, e: Sample)
    requires w in c.writers && WriterInv(c.writers[w].state) && e in c.writers[w].state.history
    ensures Published(c, w, e.sn) && SampleAt(c, w, e.sn) == e
  {
    var s := c.writers[w].state;
    HistoryContiguous(s);
    InHistory(s.history, s.sn, e);
  }

  lemma HistoryMonotone(w: WriterState)
    requires WriterInv(w) && Monotone(w.log)
    ensures Monotone(w.history)
  {
    HistoryContiguous(w);
  }

  /** What a writer will never send is exactly what is out of the reader's
      reach. */
  lemma NeverSentIff(c: Core, g: Guid, r: ReaderNode, sn: nat)
    requires g in c.writers && WriterInv(c.writers[g].state) && c.writers[g].state.history != [] && sn >= 1
    ensures WillNeverSend(c.writers[g].state.history, sn, Clamp(r), r.birthUs) ==> NeverDue(c, r, g, sn)
    ensures NeverDue(c, r, g, sn) && Monotone(c.writers[g].state.log) ==>
              WillNeverSend(c.writers[g].state.history, sn, Clamp(r), r.birthUs)
  {
    var w := c.writers[g].state;
    HistoryContiguous(w);
    FindContiguous(w.history, w.sn, sn);
  }

  lemma AnswerGapOk(c: Core, src: Host, dst: Host, f: Frame)
    requires CoreInv(c) && f.AckNack? && NackTrue(c, Packet(src, dst, f))
    requires var w, r := c.writers[f.writer], c.readers[f.reader];
             GapEnd(w.state.history, f.base, f.bitmap, Clamp(r), r.birthUs, 64) > 0
    ensures var w, r := c.writers[f.writer], c.readers[f.reader];
            var end := GapEnd(w.state.history, f.base, f.bitmap, Clamp(r), r.birthUs, 64);
            PacketOk(c, Packet(dst, src, Gap(f.writer, f.reader, f.base, end)))
  {
    hide ReaderOk, TableOk, HandoverOk, Justified, NeverDue;
    var w, r := c.writers[f.writer], c.readers[f.reader];
    var h := w.state.history;
    var end := GapEnd(h, f.base, f.bitmap, Clamp(r), r.birthUs, 64);
    assert WriterOk(c.nowUs, w);
    HistoryContiguous(w.state);
    HistoryMonotone(w.state);
    GapEndIsHighest(h, f.base, f.bitmap, Clamp(r), r.birthUs, 64);
    NeverSentIsPrefix(h, w.state.sn, Clamp(r), r.birthUs, end, end);
    NeverSentIff(c, f.writer, r, end);
    forall s | f.base <= s <= end
      ensures s in TrackOf(r.state, f.writer).got || NeverDue(c, r, f.writer, s)
    {
      if !Bit(f.bitmap, s - f.base) {
        NeverSentIsPrefix(h, w.state.sn, Clamp(r), r.birthUs, s, end);
        NeverSentIff(c, f.writer, r, s);
      } else {
        assert f.base + (s - f.base) in TrackOf(r.state, f.writer).got;
      }
    }
  }

  lemma HeartbeatKeeps(c: Core, src: Host, dst: Host, f: Frame, env: Env)
    requires CoreInv(c) && f.Heartbeat?
    ensures var (c', out) := HandleHeartbeat(c, src, dst, f, env);
            c' == c && NetOk(c, out)
  {
    hide CoreInv, PacketOk, NackState;
    var (c', out) := HandleHeartbeat(c, src, dst, f, env);
    forall p | p in out
      ensures PacketOk(c, p)
    {
      var g :| g in c.readers && Offered(c, dst, c.readers[g], f.writer) &&
               c.readers[g].state.qos.reliability == RELIABLE && p == Packet(dst, src, Nack(g, c.readers[g], f.writer));
      NackOk(c, g, f.writer, src);
    }
  }

  lemma GapKeepsInv(c: Core, src: Host, dst: Host, f: Frame)
    requires CoreInv(c) && f.Gap? && PacketOk(c, Packet(src, dst, f))
    ensures var (c', out) := HandleGap(c, dst, f);
            CoreInv(c') && Grows(c, c') && out == {}
  {
    hide ReaderOk, ReaderGrows, TableOk, HandoverOk, Skip;
    GrowsRefl(c);
    var r := c.readers[f.reader];
    assert WriterOk(c.nowUs, c.writers[f.writer]);
    SkipOk(c, r, f.writer, f.start, f.end);
    var c' := c.(readers := c.readers[f.reader := r.(state := Skip(r.state, f.writer, f.end))]);
    forall g | g in c.readers
      ensures ReaderGrows(c.readers[g], c'.readers[g])
    {
      ReaderGrowsRefl(c.readers[g]);
    }
    CoreCloses(c, c');
  }

  lemma ReceiveKeeps(c: Core, p: Packet, env: Env)
    requires CoreInv(c) && PacketOk(c, p)
    ensures var (c', out) := HandleFrame(c, p.src, p.dst, p.frame, env);
            CoreInv(c') && Grows(c, c') && NetOk(c', out)
  {
    GrowsRefl(c);
    var f := p.frame;
    match f
    case Data(_, w, sn, pubMs, payload) => SampleKeeps(c, p.src, p.dst, w, sn, pubMs, payload, env.discovered);
    case DataFrag(_, _, _, _, _, _, _) => FragKeeps(c, p.src, p.dst, f, env);
    case AckNack(_, _, _, _) => AckNackKeeps(c, p.src, p.dst, f, env);
    case Heartbeat(_, _, _) => HeartbeatKeeps(c, p.src, p.dst, f, env);
    case Gap(_, _, _, _) => GapKeepsInv(c, p.src, p.dst, f);
  }

  // ---- the spontaneous steps ----

  lemma WriteKeeps(c: Core, g: Guid, payload: Bytes, known: set<Guid>, mtus: map<Host, nat>)
    requires CoreInv(c)
    ensures var (c', out) := HandleWrite(c, g, payload, known, mtus);
            CoreInv(c') && Grows(c, c') && NetOk(c', out)
  {
    hide ReaderOk, ReaderGrows, TableOk, SendSample, Publish, PacketOk, Targets;
    GrowsRefl(c);
    if g in c.writers && Writable(c, c.writers[g], payload) {
      var w := c.writers[g];
      assert WriterOk(c.nowUs, w);
      PublishKeeps(w.state, payload, c.nowUs, NowMs(c));
      var (state, ok) := Publish(w.state, payload, c.nowUs, NowMs(c));
      if ok {
        var s := Sample(state.sn, NowMs(c), c.nowUs, payload);
        var w' := w.(state := state);
        var (c', out) := HandleWrite(c, g, payload, known, mtus);
        PublishedOk(c, w, payload);
        WriteGrows(c, c', g, w');
        assert Published(c', g, s.sn) && SampleAt(c', g, s.sn) == s;
        forall h | h in c'.local && h !in c.local
          ensures HandoverOk(c', h)
        {
          BornBefore(c, h.reader);
        }
        CoreCloses(c, c');
        WriteOutOk(c, c', g, s, known, mtus);
      }
    }
  }

  lemma BornBefore(c: Core, g: Guid)
    requires CoreInv(c) && g in c.readers
    ensures c.readers[g].birthUs <= c.nowUs
  {
    assert ReaderOk(c, c.readers[g]);
  }

  lemma PublishedOk(c: Core, w: WriterNode, payload: Bytes)
    requires WriterOk(c.nowUs, w) && Writable(c, w, payload) && Publish(w.state, payload, c.nowUs, NowMs(c)).1
    ensures WriterOk(c.nowUs, w.(state := Publish(w.state, payload, c.nowUs, NowMs(c)).0))
  {
    PublishKeeps(w.state, payload, c.nowUs, NowMs(c));
    if KeepsAll(w.state.qos) { KeepAllKeepsAll(w.state, payload, c.nowUs, NowMs(c)); }
  }

  lemma WriteGrows(c: Core, c': Core, g: Guid, w': WriterNode)
    requires g in c.writers && c'.writers == c.writers[g := w'] && c'.readers == c.readers && c'.nowUs == c.nowUs
    requires WriterGrows(c.writers[g], w')
    ensures Grows(c, c')
  {
    forall r | r in c.readers
      ensures ReaderGrows(c.readers[r], c'.readers[r])
    {
      ReaderGrowsRefl(c.readers[r]);
    }
  }

  /** The live send only goes where a matching reader already exists, and a
      reader that exists was born before now. */
  lemma WriteOutOk(c: Core, c': Core, g: Guid, s: Sample, known: set<Guid>, mtus: map<Host, nat>)
    requires CoreInv(c) && CoreInv(c') && g in c.writers && c'.readers == c.readers && s.pubUs == c.nowUs
    requires Published(c', g, s.sn) && SampleAt(c', g, s.sn) == s && WriterGrows(c.writers[g], c'.writers[g])
    ensures var w := c.writers[g];
            NetOk(c', set h, p | h in Targets(c, w, known) &&
                                 p in SendSample(w.host, h, Flags(w), g, s, MtuTo(mtus, h)) :: p)
  {
    hide CoreInv, PacketOk, SendSample;
    var w := c.writers[g];
    forall h, p | h in Targets(c, w, known) && p in SendSample(w.host, h, Flags(w), g, s, MtuTo(mtus, h))
      ensures PacketOk(c', p)
    {
      var r :| r in known && r in c.readers && c.readers[r].host == h && Matches(c.readers[r], w);
      BornBefore(c, r);
      MatchesGrows(c.readers[r], c.readers[r], w, c'.writers[g]);
      JustifiedBy(c', r, g, s.sn);
      SendOk(c', w.host, h, Flags(w), g, s, MtuTo(mtus, h));
    }
  }

  lemma ReplayKeeps(c: Core, g: Guid, r: Guid, mtu: nat)
    requires CoreInv(c)
    ensures var (c', out) := HandleReplay(c, g, r, mtu); c' == c && NetOk(c, out)
  {
    hide ReaderOk, TableOk, HandoverOk, PacketOk, SendSample;
    var (c', out) := HandleReplay(c, g, r, mtu);
    forall p | p in out
      ensures PacketOk(c, p)
    {
      var w := c.writers[g];
      assert WriterOk(c.nowUs, w);
      var e :| e in Alive(c, w) && p in SendSample(w.host, c.readers[r].host, Flags(w), g, e, mtu);
      HeldIsPublished(c, g, e);
      JustifiedBy(c, r, g, e.sn);
      SendOk(c, w.host, c.readers[r].host, Flags(w), g, e, mtu);
    }
  }

  lemma LocalReplayKeeps(c: Core, g: Guid, r: Guid)
    requires CoreInv(c)
    ensures var (c', out) := HandleLocalReplay(c, g, r); CoreInv(c') && Grows(c, c') && out == {}
  {
    hide ReaderOk, TableOk;
    var (c', out) := HandleLocalReplay(c, g, r);
    SameEndpointsGrow(c, c');
    forall h | h in c'.local && h !in c.local
      ensures HandoverOk(c', h)
    {
      assert WriterOk(c.nowUs, c.writers[g]);
      HeldIsPublished(c, g, h.sample);
    }
    CoreCloses(c, c');
  }

  /** Changing one reader, to one that is fine and has grown. */
  lemma OneReaderKeeps(c: Core, c': Core, g: Guid, r: ReaderNode)
    requires CoreInv(c) && g in c.readers && c' == c.(readers := c.readers[g := r])
    requires ReaderOk(c, r) && ReaderGrows(c.readers[g], r)
    ensures CoreInv(c') && Grows(c, c')
  {
    hide ReaderOk, ReaderGrows, TableOk, HandoverOk;
    forall x | x in c.readers
      ensures ReaderGrows(c.readers[x], c'.readers[x])
    {
      ReaderGrowsRefl(c.readers[x]);
    }
    CoreCloses(c, c');
  }

  lemma HandoverKeeps(c: Core, h: Handover)
    requires CoreInv(c)
    ensures var (c', out) := HandleHandover(c, h); CoreInv(c') && Grows(c, c') && out == {}
  {
    hide ReaderOk, ReaderGrows, TableOk, Deliver;
    GrowsRefl(c);
    if h in c.local && h.reader in c.readers && h.writer in c.writers {
      var e, r := h.sample, c.readers[h.reader];
      assert HandoverOk(c, h) && WriterOk(c.nowUs, c.writers[h.writer]);
      JustifiedBy(c, h.reader, h.writer, e.sn);
      var item := Item(h.writer, e.sn, e.pubMs, e.payload, c.writers[h.writer].state.qos.lifespanMs);
      DeliverToOk(c, r, item, NowMs(c));
      OneReaderKeeps(c, HandleHandover(c, h).0, h.reader, DeliverTo(r, item, NowMs(c)));
    }
  }

  lemma CreateReaderKeeps(c: Core, g: Guid, r: ReaderNode)
    requires CoreInv(c) && NewGuid(c, g) && r.state == Fresh(r.state.qos) && r.birthUs == c.nowUs
    ensures var c' := c.(readers := c.readers[g := r]); CoreInv(c') && Grows(c, c')
  {
    hide ReaderGrows, TableOk, HandoverOk;
    var c' := c.(readers := c.readers[g := r]);
    forall x | x in c.readers
      ensures ReaderGrows(c.readers[x], c'.readers[x])
    {
      ReaderGrowsRefl(c.readers[x]);
    }
    assert ReaderOk(c, r);
    CoreCloses(c, c');
  }

  lemma CreateWriterKeeps(c: Core, g: Guid, w: WriterNode)
    requires CoreInv(c) && NewGuid(c, g) && w.state == WriterState(w.state.qos, 0, [], [])
    ensures var c' := c.(writers := c.writers[g := w]); CoreInv(c') && Grows(c, c')
  {
    hide ReaderOk, ReaderGrows, TableOk, HandoverOk;
    var c' := c.(writers := c.writers[g := w]);
    forall x | x in c.readers
      ensures ReaderGrows(c.readers[x], c'.readers[x])
    {
      ReaderGrowsRefl(c.readers[x]);
    }
    assert WriterOk(c'.nowUs, w);
    CoreCloses(c, c');
  }

  lemma QueueStepKeeps(c: Core, g: Guid, state: ReaderState)
    requires CoreInv(c) && g in c.readers
    requires state == Take(c.readers[g].state, NowMs(c)).0 || state == SweepQueue(c.readers[g].state, NowMs(c))
    ensures CoreInv(OnReader(c, g, state)) && Grows(c, OnReader(c, g, state))
  {
    hide ReaderInv, ReaderGrows, TableOk, HandoverOk, Genuine, PairOk;
    var r := c.readers[g];
    assert ReaderOk(c, r);
    TakeKeeps(r.state, NowMs(c));
    QueueOnlyOk(c, r, state);
    OneReaderKeeps(c, OnReader(c, g, state), g, r.(state := state));
  }

  lemma PartialsKeep(c: Core, c': Core)
    requires CoreInv(c) && c' == c.(partials := c'.partials)
    requires forall k | k in c'.partials :: k in c.partials && c'.partials[k].Keys <= c.partials[k].Keys &&
               forall x | x in c'.partials[k] :: c'.partials[k][x] == c.partials[k][x]
    ensures CoreInv(c') && Grows(c, c')
  {
    hide ReaderOk, HandoverOk, Justified, F.Agrees;
    SameEndpointsGrow(c, c');
    forall k | k in c'.partials
      ensures TableOk(c, k.0, c'.partials[k])
    {
      assert TableOk(c, k.0, c.partials[k]);
    }
    CoreCloses(c, c');
  }

  lemma SpontaneousKeeps(c: Core, step: Step)
    requires CoreInv(c)
    ensures var (c', out) := Spontaneous(c, step);
            CoreInv(c') && Grows(c, c') && NetOk(c', out)
  {
    hide CoreInv, Grows, PacketOk;
    GrowsRefl(c);
    match step
    case Tick(us) => if c.nowUs <= us < U64 { TickKeeps(c, us); }
    case CreateWriter(g, host, topic, typeName, qos) =>
      if NewGuid(c, g) { CreateWriterKeeps(c, g, WriterNode(host, topic, typeName, WriterState(qos, 0, [], []))); }
    case CreateReader(g, host, topic, typeName, qos, ignoreLocal) =>
      if NewGuid(c, g) {
        CreateReaderKeeps(c, g, ReaderNode(host, topic, typeName, c.nowUs, ignoreLocal, Fresh(qos)));
      }
    case Write(g, payload, known, mtus) => WriteKeeps(c, g, payload, known, mtus);
    case Beat(g, dst) => BeatKeeps(c, g, dst);
    case Replay(g, r, mtu) => ReplayKeeps(c, g, r, mtu);
    case LocalReplay(g, r) => LocalReplayKeeps(c, g, r);
    case Enqueue(h) => HandoverKeeps(c, h);
    case Receive(_, _) =>
    case TakeOne(r) =>
      if r in c.readers { QueueStepKeeps(c, r, Take(c.readers[r].state, NowMs(c)).0); }
    case SweepReader(r) =>
      if r in c.readers { QueueStepKeeps(c, r, SweepQueue(c.readers[r].state, NowMs(c))); }
    case SweepPartials(_, _, _, _) => PartialsKeep(c, Spontaneous(c, step).0);
    case DropPeer(_, _) => PartialsKeep(c, Spontaneous(c, step).0);
  }

  lemma TickKeeps(c: Core, us: nat)
    requires CoreInv(c) && c.nowUs <= us < U64
    ensures CoreInv(c.(nowUs := us)) && Grows(c, c.(nowUs := us))
  {
    hide ReaderOk, TableOk, HandoverOk;
    var c' := c.(nowUs := us);
    SameEndpointsGrow(c, c');
    CoreCloses(c, c');
  }

  lemma BeatKeeps(c: Core, g: Guid, dst: Host)
    requires CoreInv(c)
    ensures var (c', out) := HandleBeat(c, g, dst); c' == c && NetOk(c, out)
  {
    if g in c.writers {
      var w := c.writers[g];
      assert WriterOk(c.nowUs, w);
      HistoryContiguous(w.state);
    }
  }

  // ---- every step, every run ----

  lemma StepKeeps(s: Sys, step: Step)
    requires Inv(s)
    ensures Inv(Apply(s, step)) && Grows(s.core, Apply(s, step).core)
  {
    hide CoreInv, Grows, PacketOk, HandleFrame, Spontaneous;
    GrowsRefl(s.core);
    if step.Receive? {
      if step.p in s.net { ReceiveKeeps(s.core, step.p, step.env); }
    } else {
      SpontaneousKeeps(s.core, step);
    }
    NetOkGrows(s.core, Apply(s, step).core, s.net);
  }

  lemma {:induction false} RunKeeps(steps: seq<Step>)
    ensures Inv(Exec(steps))
  {
    if steps != [] {
      RunKeeps(steps[..|steps| - 1]);
      StepKeeps(Exec(steps[..|steps| - 1]), steps[|steps| - 1]);
    }
  }

  lemma {:induction false} RunGrows(steps: seq<Step>, more: seq<Step>)
    ensures Grows(Exec(steps).core, Exec(steps + more).core)
    decreases |more|
  {
    hide Grows, Inv, Apply;
    if more == [] {
      assert steps + more == steps;
      GrowsRefl(Exec(steps).core);
    } else {
      var m := more[..|more| - 1];
      assert (steps + more)[..|steps + more| - 1] == steps + m;
      RunGrows(steps, m);
      RunKeeps(steps + m);
      StepKeeps(Exec(steps + m), more[|more| - 1]);
      GrowsTrans(Exec(steps).core, Exec(steps + m).core, Exec(steps + more).core);
    }
  }
}
