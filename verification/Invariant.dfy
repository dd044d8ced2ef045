/** The inductive invariant of the protocol, and how its parts survive growth of
    the state. */
module Invariants {
  import opened Base
  import opened Words
  import opened Frames
  import opened Writers
  import opened Readers
  import opened Systems
  import F = Fragments
  import W = Window

  // ---- facts about published samples ----

  ghost predicate Published(c: Core, w: Guid, sn: nat) {
    w in c.writers && 1 <= sn <= |c.writers[w].state.log|
  }

  ghost function SampleAt(c: Core, w: Guid, sn: nat): Sample
    requires Published(c, w, sn)
  {
    c.writers[w].state.log[sn - 1]
  }

  /** The reader may be given the sample: it is not VOLATILE, or the sample was
      published after its birth. */
  ghost predicate EntitledTo(c: Core, r: ReaderNode, w: Guid, sn: nat) {
    Published(c, w, sn) && Entitled(SampleAt(c, w, sn), Clamp(r), r.birthUs)
  }

  /** The reader matches the writer and may be given the sample. */
  ghost predicate MayGet(c: Core, r: ReaderNode, w: Guid, sn: nat) {
    EntitledTo(c, r, w, sn) && Matches(r, c.writers[w])
  }

  /** Some matching reader of the participant may be given the sample. */
  ghost predicate Justified(c: Core, h: Host, w: Guid, sn: nat) {
    exists g :: g in c.readers && c.readers[g].host == h && MayGet(c, c.readers[g], w, sn)
  }

  /** The sample will never be sent to this reader: it is no longer held, or it
      predates the VOLATILE reader. */
  ghost predicate NeverDue(c: Core, r: ReaderNode, w: Guid, sn: nat) {
    Published(c, w, sn) && (sn <= Evicted(c.writers[w].state) || !EntitledTo(c, r, w, sn))
  }

  predicate KeepsAll(qos: Qos) {
    qos.reliability == RELIABLE && qos.history == KEEP_ALL && qos.lifespanMs == 0
  }

  // ---- the invariant, part by part ----

  ghost predicate WriterOk(nowUs: nat, w: WriterNode) {
    && WriterInv(w.state) && Monotone(w.state.log)
    && (forall i | 0 <= i < |w.state.log| ::
          w.state.log[i].pubUs <= nowUs && HEADER_SIZE + FRAG_FIXED + |w.state.log[i].payload| < U32)
    && w.state.sn + 1 < U64
    && (KeepsAll(w.state.qos) ==> w.state.history == w.state.log)
  }

  ghost predicate PairOk(c: Core, r: ReaderNode, w: Guid, t: W.Track) {
    && w in c.writers && t.rx.last <= c.writers[w].state.sn
    && (t.got != {} ==> Matches(r, c.writers[w]))
    && (forall s | s in t.got :: Justified(c, r.host, w, s))
    && (forall s | s in t.gapLost :: NeverDue(c, r, w, s))
  }

  ghost predicate Genuine(c: Core, i: Item) {
    Published(c, i.writer, i.sn) &&
    SampleAt(c, i.writer, i.sn).payload == i.payload && SampleAt(c, i.writer, i.sn).pubMs == i.pubMs
  }

  ghost predicate ReaderOk(c: Core, r: ReaderNode) {
    && ReaderInv(r.state) && r.birthUs <= c.nowUs
    && (forall w | w in r.state.tracks :: PairOk(c, r, w, r.state.tracks[w]))
    && (forall i | i in r.state.queued :: Genuine(c, i))
  }

  ghost predicate TableOk(c: Core, h: Host, ps: map<F.Key, F.Partial>) {
    && F.AllSound(ps)
    && forall k | k in ps ::
         && Justified(c, h, k.0, k.1) && Published(c, k.0, k.1)
         && F.Agrees(ps[k], SampleAt(c, k.0, k.1).payload)
  }

  ghost predicate HandoverOk(c: Core, h: Handover) {
    && h.reader in c.readers && Published(c, h.writer, h.sample.sn)
    && SampleAt(c, h.writer, h.sample.sn) == h.sample
    && MayGet(c, c.readers[h.reader], h.writer, h.sample.sn)
    && c.readers[h.reader].host == c.writers[h.writer].host && !c.readers[h.reader].ignoreLocal
  }

  /** An ACKNACK comes from a matching reader, starts within its reach and reports
      only what it received. */
  ghost predicate NackTrue(c: Core, p: Packet)
    requires p.frame.AckNack?
  {
    var AckNack(r, w, base, bitmap) := p.frame;
    && Fits(p.frame)
    && r in c.readers && c.readers[r].host == p.src && w in c.writers && Matches(c.readers[r], c.writers[w])
    && 1 <= base <= TrackOf(c.readers[r].state, w).rx.last + 1
    && forall i: nat | i < 64 && Bit(bitmap, i) :: base + i in TrackOf(c.readers[r].state, w).got
  }

  /** What is true of every frame in flight. */
  ghost predicate PacketOk(c: Core, p: Packet) {
    Fits(p.frame) &&
    match p.frame
    case Data(flags, w, sn, pubMs, payload) =>
      && Justified(c, p.dst, w, sn) && Published(c, w, sn)
      && SampleAt(c, w, sn).payload == payload && SampleAt(c, w, sn).pubMs == pubMs
      && flags == Flags(c.writers[w])
    case DataFrag(flags, w, sn, pubMs, _, _, _) =>
      && Justified(c, p.dst, w, sn) && Published(c, w, sn)
      && SampleAt(c, w, sn).payload != [] && SampleAt(c, w, sn).pubMs == pubMs
      && F.PieceOf(p.frame, w, sn, SampleAt(c, w, sn).payload) && flags == Flags(c.writers[w])
    case AckNack(r, w, base, bitmap) => NackTrue(c, p) && c.readers[r].state.qos.reliability == RELIABLE
    case Heartbeat(w, first, last) => w in c.writers && last <= c.writers[w].state.sn
    case Gap(w, r, start, end) =>
      && r in c.readers && 1 <= start <= end
      && start <= TrackOf(c.readers[r].state, w).rx.last + 1
      && NeverDue(c, c.readers[r], w, end)
      && forall s | start <= s <= end ::
           s in TrackOf(c.readers[r].state, w).got || NeverDue(c, c.readers[r], w, s)
  }

  ghost predicate CoreInv(c: Core) {
    && c.nowUs < U64
    && (forall g | g in c.writers :: WriterOk(c.nowUs, c.writers[g]))
    && (forall g | g in c.readers :: ReaderOk(c, c.readers[g]))
    && (forall k | k in c.partials :: TableOk(c, k.0, c.partials[k]))
    && (forall h | h in c.local :: HandoverOk(c, h))
  }

  ghost predicate NetOk(c: Core, net: set<Packet>) {
    forall p | p in net :: PacketOk(c, p)
  }

  ghost predicate Inv(s: Sys) {
    CoreInv(s.core) && NetOk(s.core, s.net)
  }

  // ---- growth ----

  ghost predicate WriterGrows(w: WriterNode, w': WriterNode) {
    && w'.host == w.host && w'.topic == w.topic && w'.typeName == w.typeName && w'.state.qos == w.state.qos
    && w.state.sn <= w'.state.sn && w.state.log <= w'.state.log && Evicted(w.state) <= Evicted(w'.state)
  }

  ghost predicate ReaderGrows(r: ReaderNode, r': ReaderNode) {
    && r'.host == r.host && r'.topic == r.topic && r'.typeName == r.typeName && r'.birthUs == r.birthUs
    && r'.state.qos == r.state.qos && r'.ignoreLocal == r.ignoreLocal
    && forall w :: TrackOf(r.state, w).rx.last <= TrackOf(r'.state, w).rx.last &&
                   TrackOf(r.state, w).got <= TrackOf(r'.state, w).got &&
                   TrackOf(r.state, w).gapLost <= TrackOf(r'.state, w).gapLost
  }

  /** Nothing published, accepted, evicted or created is ever taken back. */
  ghost predicate Grows(c: Core, c': Core) {
    && c.nowUs <= c'.nowUs
    && (forall g | g in c.writers :: g in c'.writers && WriterGrows(c.writers[g], c'.writers[g]))
    && (forall g | g in c.readers :: g in c'.readers && ReaderGrows(c.readers[g], c'.readers[g]))
  }

  lemma GrowsTrans(a: Core, b: Core, c: Core)
    requires Grows(a, b) && Grows(b, c)
    ensures Grows(a, c)
  {
    hide TrackOf, Evicted;
  }

  lemma PublishedGrows(c: Core, c': Core, w: Guid, sn: nat)
    requires Grows(c, c') && Published(c, w, sn)
    ensures Published(c', w, sn) && SampleAt(c', w, sn) == SampleAt(c, w, sn)
  {
    hide ReaderGrows;
    assert WriterGrows(c.writers[w], c'.writers[w]);
  }

  lemma EntitledGrows(c: Core, c': Core, r: ReaderNode, w: Guid, sn: nat)
    requires Grows(c, c') && Published(c, w, sn)
    ensures EntitledTo(c', r, w, sn) == EntitledTo(c, r, w, sn)
  {
    PublishedGrows(c, c', w, sn);
  }

  lemma MayGetGrows(c: Core, c': Core, g: Guid, w: Guid, sn: nat)
    requires Grows(c, c') && g in c.readers && MayGet(c, c.readers[g], w, sn)
    ensures g in c'.readers && c'.readers[g].host == c.readers[g].host && MayGet(c', c'.readers[g], w, sn)
  {
    EntitledGrows(c, c', c.readers[g], w, sn);
    assert ReaderGrows(c.readers[g], c'.readers[g]) && WriterGrows(c.writers[w], c'.writers[w]);
  }

  lemma JustifiedGrows(c: Core, c': Core, h: Host, w: Guid, sn: nat)
    requires Grows(c, c') && Justified(c, h, w, sn)
    ensures Justified(c', h, w, sn)
  {
    var g :| g in c.readers && c.readers[g].host == h && MayGet(c, c.readers[g], w, sn);
    MayGetGrows(c, c', g, w, sn);
  }

  /** Once a sample is out of a reader's reach it stays so. */
  lemma NeverDueGrows(c: Core, c': Core, r: ReaderNode, w: Guid, sn: nat)
    requires Grows(c, c') && NeverDue(c, r, w, sn)
    ensures NeverDue(c', r, w, sn)
  {
    PublishedGrows(c, c', w, sn);
    EntitledGrows(c, c', r, w, sn);
    assert WriterGrows(c.writers[w], c'.writers[w]);
  }

  /** `NeverDue` only looks at the reader's birth and durability. */
  lemma NeverDueSame(c: Core, r: ReaderNode, r': ReaderNode, w: Guid, sn: nat)
    requires r'.birthUs == r.birthUs && r'.state.qos == r.state.qos
    ensures NeverDue(c, r', w, sn) == NeverDue(c, r, w, sn)
  {
  }

  lemma ReaderOkGrows(c: Core, c': Core, r: ReaderNode)
    requires Grows(c, c') && ReaderOk(c, r)
    ensures ReaderOk(c', r)
  {
    hide ReaderInv, ReaderGrows, Justified, NeverDue, SampleAt;
    forall w | w in r.state.tracks
      ensures PairOk(c', r, w, r.state.tracks[w])
    {
      var t := r.state.tracks[w];
      assert PairOk(c, r, w, t);
      assert WriterGrows(c.writers[w], c'.writers[w]);
      forall s | s in t.got
        ensures Justified(c', r.host, w, s)
      {
        JustifiedGrows(c, c', r.host, w, s);
      }
      forall s | s in t.gapLost
        ensures NeverDue(c', r, w, s)
      {
        NeverDueGrows(c, c', r, w, s);
      }
    }
    forall i | i in r.state.queued
      ensures Genuine(c', i)
    {
      assert Genuine(c, i);
      PublishedGrows(c, c', i.writer, i.sn);
    }
  }

  lemma TableOkGrows(c: Core, c': Core, h: Host, ps: map<F.Key, F.Partial>)
    requires Grows(c, c') && TableOk(c, h, ps)
    ensures TableOk(c', h, ps)
  {
    hide ReaderGrows, WriterGrows, Justified, SampleAt, F.Agrees;
    forall k | k in ps
      ensures Justified(c', h, k.0, k.1) && Published(c', k.0, k.1) && F.Agrees(ps[k], SampleAt(c', k.0, k.1).payload)
    {
      JustifiedGrows(c, c', h, k.0, k.1);
      PublishedGrows(c, c', k.0, k.1);
    }
  }

  lemma HandoverOkGrows(c: Core, c': Core, h: Handover)
    requires Grows(c, c') && HandoverOk(c, h)
    ensures HandoverOk(c', h)
  {
    PublishedGrows(c, c', h.writer, h.sample.sn);
    assert ReaderGrows(c.readers[h.reader], c'.readers[h.reader]);
  }

  lemma PacketOkGrows(c: Core, c': Core, p: Packet)
    requires Grows(c, c') && PacketOk(c, p)
    ensures PacketOk(c', p)
  {
    match p.frame
    case Data(_, w, sn, _, _) =>
      JustifiedGrows(c, c', p.dst, w, sn);
      PublishedGrows(c, c', w, sn);
    case DataFrag(_, w, sn, _, _, _, _) =>
      JustifiedGrows(c, c', p.dst, w, sn);
      PublishedGrows(c, c', w, sn);
    case AckNack(r, w, _, _) =>
      assert ReaderGrows(c.readers[r], c'.readers[r]);
    case Heartbeat(w, _, _) =>
      assert WriterGrows(c.writers[w], c'.writers[w]);
    case Gap(w, r, start, end) =>
      GapOkGrows(c, c', p);
  }

  lemma GapOkGrows(c: Core, c': Core, p: Packet)
    requires Grows(c, c') && PacketOk(c, p) && p.frame.Gap?
    ensures PacketOk(c', p)
  {
    hide NeverDue;
    var Gap(w, r, start, end) := p.frame;
    var n, n' := c.readers[r], c'.readers[r];
    assert ReaderGrows(n, n');
    forall s | start <= s <= end
      ensures s in TrackOf(n'.state, w).got || NeverDue(c', n', w, s)
    {
      if s !in TrackOf(n.state, w).got {
        NeverDueGrows(c, c', n, w, s);
        NeverDueSame(c', n, n', w, s);
      }
    }
    NeverDueGrows(c, c', n, w, end);
    NeverDueSame(c', n, n', w, end);
  }

  lemma NetOkGrows(c: Core, c': Core, net: set<Packet>)
    requires Grows(c, c') && NetOk(c, net)
    ensures NetOk(c', net)
  {
    hide Grows, PacketOk;
    forall p | p in net
      ensures PacketOk(c', p)
    {
      PacketOkGrows(c, c', p);
    }
  }

  /** A grown state satisfies the invariant when its changed parts do. */
  lemma CoreCloses(c: Core, c': Core)
    requires CoreInv(c) && Grows(c, c') && c'.nowUs < U64
    requires forall g | g in c'.writers ::
               (g in c.writers && c'.writers[g] == c.writers[g]) || WriterOk(c'.nowUs, c'.writers[g])
    requires forall g | g in c'.readers ::
               || (g in c.readers && c'.readers[g] == c.readers[g])
               || ReaderOk(c, c'.readers[g]) || ReaderOk(c', c'.readers[g])
    requires forall k | k in c'.partials ::
               (k in c.partials && c'.partials[k] == c.partials[k]) || TableOk(c, k.0, c'.partials[k])
    requires forall h | h in c'.local :: h in c.local || HandoverOk(c', h)
    ensures CoreInv(c')
  {
    hide ReaderOk, TableOk, HandoverOk, Grows;
    assert c.nowUs <= c'.nowUs by { GrowsClock(c, c'); }
    forall g | g in c'.writers
      ensures WriterOk(c'.nowUs, c'.writers[g])
    {
      if g in c.writers && c'.writers[g] == c.writers[g] { WriterOkLater(c.nowUs, c'.nowUs, c.writers[g]); }
    }
    forall g | g in c'.readers
      ensures ReaderOk(c', c'.readers[g])
    {
      if !ReaderOk(c', c'.readers[g]) { ReaderOkGrows(c, c', c'.readers[g]); }
    }
    forall k | k in c'.partials
      ensures TableOk(c', k.0, c'.partials[k])
    {
      TableOkGrows(c, c', k.0, c'.partials[k]);
    }
    forall h | h in c'.local
      ensures HandoverOk(c', h)
    {
      if h in c.local { HandoverOkGrows(c, c', h); }
    }
  }

  lemma GrowsClock(c: Core, c': Core)
    requires Grows(c, c')
    ensures c.nowUs <= c'.nowUs
  {
  }

  lemma WriterOkLater(nowUs: nat, later: nat, w: WriterNode)
    requires WriterOk(nowUs, w) && nowUs <= later
    ensures WriterOk(later, w)
  {
  }
}
