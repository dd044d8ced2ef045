/** What holds in every reachable state, over every run with loss, duplication
    and reordering. */
module Guarantees {
  import opened Base
  import opened Words
  import opened Frames
  import opened Writers
  import opened Readers
  import opened Systems
  import opened Invariants
  import opened Preservation
  import opened Projection
  import opened Sums
  import W = Window

  /** End to end: everything a reader ever queued is exactly what the writer
      published at that seq, each (writer, seq) at most once; what was taken and
      what is still queued is a part of it, in arrival order. */
  lemma EndToEnd(steps: seq<Step>, g: Guid)
    requires g in Exec(steps).core.readers
    ensures var c := Exec(steps).core;
            var r := c.readers[g].state;
            && (forall i | i in r.queued ::
                  i.writer in c.writers && 1 <= i.sn <= |c.writers[i.writer].state.log| &&
                  c.writers[i.writer].state.log[i.sn - 1].payload == i.payload)
            && Distinct(r.queued, (i: Item) => (i.writer, i.sn))
            && SubSeq(r.taken + r.queue, r.queued)
            && Distinct(r.taken + r.queue, (i: Item) => (i.writer, i.sn))
  {
    RunKeeps(steps);
    var c := Exec(steps).core;
    assert ReaderOk(c, c.readers[g]);
    DeliveredOnce(c.readers[g].state);
    forall i | i in c.readers[g].state.queued
      ensures Published(c, i.writer, i.sn) && SampleAt(c, i.writer, i.sn).payload == i.payload
    {
      assert Genuine(c, i);
    }
  }

  /** What is published never changes. */
  lemma PublishedForever(steps: seq<Step>, more: seq<Step>, w: Guid, sn: nat)
    requires Published(Exec(steps).core, w, sn)
    ensures Published(Exec(steps + more).core, w, sn)
    ensures SampleAt(Exec(steps + more).core, w, sn) == SampleAt(Exec(steps).core, w, sn)
  {
    RunGrows(steps, more);
    PublishedGrows(Exec(steps).core, Exec(steps + more).core, w, sn);
  }

  /** The writer's history is always empty or a contiguous run of seqs ending at
      its seq, within its cap, with publication times that do not decrease. */
  lemma HistoryShape(steps: seq<Step>, w: Guid)
    requires w in Exec(steps).core.writers
    ensures var s := Exec(steps).core.writers[w].state;
            Contiguous(s.history, s.sn) && |s.history| <= Cap(s.qos) && Monotone(s.history)
  {
    RunKeeps(steps);
    var c := Exec(steps).core;
    assert WriterOk(c.nowUs, c.writers[w]);
    HistoryContiguous(c.writers[w].state);
    HistoryMonotone(c.writers[w].state);
  }

  /** In every reachable state the answer to any NACK splits what it asks for:
      each unreceived published seq is resent or lies in the GAP, never both. */
  lemma NackAnswerPartition(steps: seq<Step>, w: Guid, r: Guid, base: nat, bitmap: nat, i: nat)
    requires w in Exec(steps).core.writers && r in Exec(steps).core.readers
    requires Exec(steps).core.writers[w].state.history != []
    requires i < 64 && !Bit(bitmap, i) && base + i > 0
    ensures var s, n := Exec(steps).core.writers[w].state, Exec(steps).core.readers[r];
            var resends := Resends(s.history, base, bitmap, Clamp(n), n.birthUs, 64);
            var resent := exists e :: e in resends && e.sn == base + i;
            var gapped := base + i <= GapEnd(s.history, base, bitmap, Clamp(n), n.birthUs, 64);
            && (base + i <= s.sn ==> resent != gapped)
            && (base + i > s.sn ==> !resent && !gapped)
            && (gapped <==> NeverDue(Exec(steps).core, n, w, base + i))
  {
    RunKeeps(steps);
    var c := Exec(steps).core;
    assert WriterOk(c.nowUs, c.writers[w]);
    HistoryShape(steps, w);
    var s, n := c.writers[w].state, c.readers[r];
    AnswerPartition(s.history, s.sn, base, bitmap, Clamp(n), n.birthUs, i);
    NeverSentIff(c, w, n, base + i);
  }

  /** Every GAP in flight starts within the reader's reach; every ACKNACK in flight
      comes from a reliable reader, and its set bits are received seqs. */
  lemma InFlight(steps: seq<Step>, p: Packet)
    requires p in Exec(steps).net
    ensures var c := Exec(steps).core;
            match p.frame
            case Gap(w, r, start, end) =>
              r in c.readers && start <= TrackOf(c.readers[r].state, w).rx.last + 1
            case AckNack(r, w, base, bitmap) =>
              && r in c.readers && c.readers[r].state.qos.reliability == RELIABLE
              && base <= TrackOf(c.readers[r].state, w).rx.last + 1
              && forall i: nat | i < 64 && Bit(bitmap, i) :: base + i in TrackOf(c.readers[r].state, w).got
            case _ => true
  {
    hide Exec, CoreInv, TrackOf, NeverDue, Justified, Published, SampleAt;
    RunKeeps(steps);
    assert PacketOk(Exec(steps).core, p);
  }

  /** GAP soundness: a seq that a GAP made a reader count lost was evicted or
      predates the VOLATILE reader, stays so for ever, and is never accepted. */
  lemma GapLossesAreSound(steps: seq<Step>, more: seq<Step>, g: Guid, w: Guid, sn: nat)
    requires g in Exec(steps).core.readers && sn in TrackOf(Exec(steps).core.readers[g].state, w).gapLost
    ensures var c' := Exec(steps + more).core;
            && g in c'.readers && NeverDue(c', c'.readers[g], w, sn)
            && sn !in TrackOf(c'.readers[g].state, w).got
  {
    var c, c' := Exec(steps).core, Exec(steps + more).core;
    RunKeeps(steps);
    RunKeeps(steps + more);
    RunGrows(steps, more);
    assert ReaderOk(c', c'.readers[g]) && ReaderGrows(c.readers[g], c'.readers[g]);
    var t := TrackOf(c'.readers[g].state, w);
    assert sn in t.gapLost;
    TracksInv(c'.readers[g].state, w);
    assert w in c'.readers[g].state.tracks;
  }

  /** The loss ledger over all writers of a reader. */
  lemma LostCount(steps: seq<Step>, g: Guid)
    requires g in Exec(steps).core.readers
    ensures var r := Exec(steps).core.readers[g].state;
            && r.lost == SumBy(r.tracks, (t: W.Track) => |W.Missing(t.got, t.base, t.rx.last)|)
                         + SumBy(r.tracks, (t: W.Track) => t.jumpBits)
  {
    RunKeeps(steps);
    var c := Exec(steps).core;
    assert ReaderOk(c, c.readers[g]);
    LostCountLedger(c.readers[g].state);
  }

  /** The receive state is what the data and GAPs that reached the pair in the
      run made of it: it pictures the accepted set, the NACK base is a received
      seq exactly when the last of them to move the baseline was a GAP that
      stopped just below a receipt, and the losses are counted exactly when no
      jump among them passed over receipts. */
  lemma ReceiveState(steps: seq<Step>, g: Guid, w: Guid)
    requires g in Exec(steps).core.readers
    ensures var t := TrackOf(Exec(steps).core.readers[g].state, w);
            var es := PairEvents(steps, g, w);
            && t == W.Run(es) && W.Pictures(t.rx, t.got)
            && (t.rx.last + 1 in t.got <==> W.EndsInStuckGap(es))
            && (t.lost == |W.Missing(t.got, t.base, t.rx.last)| <==> forall k: nat :: !W.JumpsOverReceipts(es, k))
  {
    hide Exec, PairEvents, TrackOf, W.TrackInv, W.Pictures, W.Run, W.EndsInStuckGap, W.JumpsOverReceipts, W.Missing;
    var es := PairEvents(steps, g, w);
    PairRun(steps, g, w);
    RunPictures(es);
    W.BaseReceivedIff(es);
    W.LossExactIff(es);
  }

  lemma RunPictures(es: seq<W.Event>)
    ensures W.Pictures(W.Run(es).rx, W.Run(es).got)
  {
    W.RunInv(es);
  }

  /** Every reader of g's participant that matches the writer, g included, is
      VOLATILE and was born no earlier than g. */
  ghost predicate Sheltered(c: Core, g: Guid, w: Guid) {
    && g in c.readers && w in c.writers
    && forall x | x in c.readers && c.readers[x].host == c.readers[g].host && Matches(c.readers[x], c.writers[w]) ::
         Clamp(c.readers[x]) && c.readers[x].birthUs >= c.readers[g].birthUs
  }

  /** Whatever a reader accepts comes from a writer it matches, and some matching
      reader of its participant was entitled to it; so a reader that is sheltered
      from the writer never accepts a sample published before its birth. */
  lemma VolatileJoinSafety(steps: seq<Step>, g: Guid, w: Guid, sn: nat)
    requires g in Exec(steps).core.readers && sn in TrackOf(Exec(steps).core.readers[g].state, w).got
    ensures var c := Exec(steps).core;
            && Published(c, w, sn) && Matches(c.readers[g], c.writers[w]) && Justified(c, c.readers[g].host, w, sn)
            && (Sheltered(c, g, w) ==> SampleAt(c, w, sn).pubUs >= c.readers[g].birthUs)
  {
    RunKeeps(steps);
    var c := Exec(steps).core;
    var r := c.readers[g];
    assert ReaderOk(c, r);
    assert PairOk(c, r, w, r.state.tracks[w]);
    var x :| x in c.readers && c.readers[x].host == r.host && MayGet(c, c.readers[x], w, sn);
  }

  /** The entitlement is per participant and no finer: a DATA frame is offered
      to every matching reader, which accepts it whenever it is new, whatever
      its birth. */
  lemma OfferedToAll(c: Core, src: Host, dst: Host, w: Guid, sn: nat, pubMs: nat, payload: Bytes, g: Guid)
    requires CoreInv(c) && w in c.writers && g in c.readers && Offered(c, dst, c.readers[g], w)
    ensures var t := TrackOf(c.readers[g].state, w);
            var t' := TrackOf(HandleSample(c, src, dst, w, sn, pubMs, payload, true).0.readers[g].state, w);
            sn in t'.got <==> sn in t.got || sn > t.rx.last
  {
    hide Deliver, ReaderInv, W.OnData, W.TrackInv, W.Enqueue;
    var r := c.readers[g];
    assert ReaderOk(c, r);
    var item := Item(w, sn, pubMs, payload, c.writers[w].state.qos.lifespanMs);
    DeliverKeeps(r.state, item, NowMs(c));
    TracksInv(r.state, w);
    W.DataKeeps(TrackOf(r.state, w), sn);
  }

  /** A received sample draws a NACK from exactly the reliable readers of a
      reliable writer that see a hole below it, and the NACK says what is missing
      after it. */
  lemma HoleAsks(c: Core, src: Host, dst: Host, w: Guid, sn: nat, pubMs: nat, payload: Bytes, g: Guid)
    requires CoreInv(c) && w in c.writers && g in c.readers
    ensures var (c', out) := HandleSample(c, src, dst, w, sn, pubMs, payload, true);
            && g in c'.readers
            && (Packet(dst, src, Nack(g, c'.readers[g], w)) in out <==>
                  && Offered(c, dst, c.readers[g], w) && HoleBelow(TrackOf(c.readers[g].state, w), sn)
                  && c.readers[g].state.qos.reliability == RELIABLE && c.writers[w].state.qos.reliability == RELIABLE)
  {
    hide Deliver, ReaderInv, HoleBelow, NackState;
    assert ReaderOk(c, c.readers[g]);
    DeliverKeeps(c.readers[g].state, Item(w, sn, pubMs, payload, c.writers[w].state.qos.lifespanMs), NowMs(c));
  }

  /** A sample just written is above everything any reader has of its writer. */
  lemma NewIsNew(c: Core, g: Guid, w: Guid)
    requires CoreInv(c) && w in c.writers && g in c.readers
    ensures TrackOf(c.readers[g].state, w).rx.last <= c.writers[w].state.sn
    ensures c.writers[w].state.sn + 1 !in TrackOf(c.readers[g].state, w).got
  {
    hide NeverDue;
    var r := c.readers[g];
    assert ReaderOk(c, r) && WriterOk(c.nowUs, c.writers[w]);
    FreshPairOk(c, r, w);
  }

  /** Local delivery: an accepted write is handed to every matching reader of the
      writer's own participant, and the reader accepts it. */
  lemma LocalDelivery(c: Core, w: Guid, payload: Bytes, known: set<Guid>, mtus: map<Host, nat>, g: Guid)
    requires CoreInv(c) && w in c.writers && g in c.readers
    requires c.readers[g].host == c.writers[w].host && !c.readers[g].ignoreLocal && Matches(c.readers[g], c.writers[w])
    requires HandleWrite(c, w, payload, known, mtus).0 != c
    ensures var c1 := HandleWrite(c, w, payload, known, mtus).0;
            var sn := c.writers[w].state.sn + 1;
            Published(c1, w, sn) && SampleAt(c1, w, sn).payload == payload &&
            var h := Handover(g, w, SampleAt(c1, w, sn));
            var c2 := HandleHandover(c1, h).0;
            h in c1.local && g in c2.readers && sn in TrackOf(c2.readers[g].state, w).got
  {
    hide CoreInv, Deliver, ReaderInv, Publish, TrackOf, Targets, SendSample, W.OnData, W.TrackInv;
    NewIsNew(c, g, w);
    Written(c, w, payload, known, mtus);
    var c1 := HandleWrite(c, w, payload, known, mtus).0;
    var s := SampleAt(c1, w, c.writers[w].state.sn + 1);
    ReaderInvOf(c, g);
    NewArrives(c.readers[g].state, Item(w, s.sn, s.pubMs, s.payload, c1.writers[w].state.qos.lifespanMs), NowMs(c1));
  }

  lemma NewArrives(r: ReaderState, item: Item, nowMs: nat)
    requires ReaderInv(r) && item.sn > TrackOf(r, item.writer).rx.last
    ensures item.sn in TrackOf(Deliver(r, item, nowMs).0, item.writer).got
  {
    hide ReaderInv, Deliver, TrackOf, W.OnData, W.TrackInv;
    DeliverKeeps(r, item, nowMs);
    TracksInv(r, item.writer);
    W.DataKeeps(TrackOf(r, item.writer), item.sn);
  }

  lemma Written(c: Core, w: Guid, payload: Bytes, known: set<Guid>, mtus: map<Host, nat>)
    requires CoreInv(c) && w in c.writers && HandleWrite(c, w, payload, known, mtus).0 != c
    ensures var c1 := HandleWrite(c, w, payload, known, mtus).0;
            var sn := c.writers[w].state.sn + 1;
            && Published(c1, w, sn) && SampleAt(c1, w, sn) == Sample(sn, NowMs(c), c.nowUs, payload)
            && c1.readers == c.readers && c1.nowUs == c.nowUs
            && (forall r :: Matches(r, c1.writers[w]) == Matches(r, c.writers[w]))
            && c1.local == c.local + set r | r in c.readers && c.readers[r].host == c.writers[w].host &&
                                             !c.readers[r].ignoreLocal && Matches(c.readers[r], c.writers[w])
                                     :: Handover(r, w, SampleAt(c1, w, sn))
  {
    hide ReaderOk, TableOk, HandoverOk, Publish, Targets, SendSample;
    var s := c.writers[w].state;
    assert WriterOk(c.nowUs, c.writers[w]);
    PublishKeeps(s, payload, c.nowUs, NowMs(c));
  }

  /** Every frame of an accepted write goes out towards every known matching
      reader. */
  lemma NewIsSent(c: Core, w: Guid, payload: Bytes, known: set<Guid>, mtus: map<Host, nat>, g: Guid, p: Packet)
    requires CoreInv(c) && w in c.writers && g in c.readers && g in known && Matches(c.readers[g], c.writers[w])
    requires HandleWrite(c, w, payload, known, mtus).0 != c
    requires var n, h := c.writers[w], c.readers[g].host;
             p in SendSample(n.host, h, Flags(n), w, Sample(n.state.sn + 1, NowMs(c), c.nowUs, payload), MtuTo(mtus, h))
    ensures p in HandleWrite(c, w, payload, known, mtus).1
  {
    hide CoreInv, Targets, SendSample;
    IsTarget(c, c.writers[w], known, g);
    assert c.readers[g].host in Targets(c, c.writers[w], known);
  }

  lemma IsTarget(c: Core, w: WriterNode, known: set<Guid>, g: Guid)
    requires g in known && g in c.readers && Matches(c.readers[g], w)
    ensures c.readers[g].host in Targets(c, w, known)
  {
  }

  /** KEEP_ALL, RELIABLE, no lifespan: the history is everything published, at
      most 256 samples; a full history rejects every write without changing
      anything. */
  lemma KeepAllHistory(steps: seq<Step>, w: Guid)
    requires w in Exec(steps).core.writers && KeepsAll(Exec(steps).core.writers[w].state.qos)
    ensures var c := Exec(steps).core;
            var s := c.writers[w].state;
            && s.history == s.log && s.sn <= KEEP_ALL_CAP
            && (s.sn == KEEP_ALL_CAP ==>
                  forall payload, known, mtus :: HandleWrite(c, w, payload, known, mtus) == (c, {}))
  {
    RunKeeps(steps);
    var c := Exec(steps).core;
    assert WriterOk(c.nowUs, c.writers[w]);
  }

  /** Such a writer never sends a GAP to a reader that is not VOLATILE or was
      born before the first sample, so what that reader lost of it was lost in
      window jumps. */
  lemma KeepAllNeverGaps(steps: seq<Step>, w: Guid, g: Guid)
    requires var c := Exec(steps).core;
             && w in c.writers && KeepsAll(c.writers[w].state.qos) && g in c.readers
             && (!Clamp(c.readers[g]) || c.writers[w].state.log == [] ||
                 c.readers[g].birthUs <= c.writers[w].state.log[0].pubUs)
    ensures var s := Exec(steps);
            && (forall p | p in s.net && p.frame.Gap? :: p.frame.writer != w || p.frame.reader != g)
            && TrackOf(s.core.readers[g].state, w).gapLost == {}
            && TrackOf(s.core.readers[g].state, w).lost == TrackOf(s.core.readers[g].state, w).jumpLost
  {
    hide ReaderInv, Justified, Exec;
    RunKeeps(steps);
    var c := Exec(steps).core;
    var r := c.readers[g];
    AllDue(c, w, r);
    forall p | p in Exec(steps).net && p.frame.Gap?
      ensures p.frame.writer != w || p.frame.reader != g
    {
      assert PacketOk(c, p);
    }
    NoGapLoss(c, w, r);
  }

  lemma AllDue(c: Core, w: Guid, r: ReaderNode)
    requires CoreInv(c) && w in c.writers && KeepsAll(c.writers[w].state.qos)
    requires !Clamp(r) || c.writers[w].state.log == [] || r.birthUs <= c.writers[w].state.log[0].pubUs
    ensures forall sn :: !NeverDue(c, r, w, sn)
  {
    assert WriterOk(c.nowUs, c.writers[w]);
  }

  lemma NoGapLoss(c: Core, w: Guid, r: ReaderNode)
    requires ReaderOk(c, r) && forall sn :: !NeverDue(c, r, w, sn)
    ensures var t := TrackOf(r.state, w); t.gapLost == {} && t.lost == t.jumpLost
  {
    hide NeverDue;
    TracksInv(r.state, w);
    var t := TrackOf(r.state, w);
    if w in r.state.tracks { assert PairOk(c, r, w, t); }
  }
}
