/** The reliability protocol as a transition system: writers, readers,
    reassemblers, calls in progress, and a network that may lose, duplicate and
    reorder frames. Every locked region of a participant is one step.

    What a participant has discovered is left open: a step says whether the
    endpoint it needs is in the discovery table. */
module Systems {
  import opened Base
  import opened Frames
  import opened Writers
  import opened Readers
  import F = Fragments

  /** A participant. */
  type Host = nat

  datatype WriterNode = WriterNode(host: Host, topic: string, typeName: string, state: WriterState)

  datatype ReaderNode = ReaderNode(
    host: Host, topic: string, typeName: string, birthUs: nat, ignoreLocal: bool, state: ReaderState)

  /** `endpoints_match`: topic and type agree and the reader accepts the offer. */
  predicate Matches(r: ReaderNode, w: WriterNode) {
    r.topic == w.topic && r.typeName == w.typeName && QosAcceptedByReader(r.state.qos, w.state.qos)
  }

  datatype Packet = Packet(src: Host, dst: Host, frame: Frame)

  /** A sample on its way into a reader of the writer's own participant: the
      call was started under the lock and enqueues after it. */
  datatype Handover = Handover(reader: Guid, writer: Guid, sample: Sample)

  /** Everything but the network. Partials are kept per participant and peer. */
  datatype Core = Core(
    nowUs: nat,
    writers: map<Guid, WriterNode>,
    readers: map<Guid, ReaderNode>,
    partials: map<(Host, nat), map<F.Key, F.Partial>>,
    local: set<Handover>)

  datatype Sys = Sys(core: Core, net: set<Packet>)

  function NowMs(c: Core): nat { c.nowUs / 1000 }

  const INIT: Sys := Sys(Core(0, map[], map[], map[], {}), {})

  function Flags(w: WriterNode): nat { if w.state.qos.reliability == RELIABLE then 1 else 0 }

  /** `send_sample_to`: the frames of one sample, at most `mtu` bytes each. */
  function SendSample(src: Host, dst: Host, flags: nat, writer: Guid, s: Sample, mtu: nat): set<Packet> {
    set f | f in F.Fragment(flags, writer, s.sn, s.pubMs, s.payload, mtu) :: Packet(src, dst, f)
  }

  // ---- receiving ----

  function DeliverTo(r: ReaderNode, item: Item, nowMs: nat): ReaderNode {
    r.(state := Deliver(r.state, item, nowMs).0)
  }

  /** `r` is offered this writer's data arriving at `dst`. */
  predicate Offered(c: Core, dst: Host, r: ReaderNode, writer: Guid) {
    writer in c.writers && r.host == dst && Matches(r, c.writers[writer])
  }

  function Nack(g: Guid, r: ReaderNode, writer: Guid): Frame {
    var (base, bitmap) := NackState(r.state, writer);
    AckNack(g, writer, base, bitmap)
  }

  /** `deliver_sample`: offer the sample to every matching reader of the
      participant; readers of a reliable pair that see a hole ask for it. */
  function HandleSample(c: Core, src: Host, dst: Host, writer: Guid, sn: nat, pubMs: nat, payload: Bytes,
                        discovered: bool): (Core, set<Packet>)
  {
    if !discovered || writer !in c.writers then (c, {})
    else
      var w := c.writers[writer];
      var item := Item(writer, sn, pubMs, payload, w.state.qos.lifespanMs);
      var after := map g | g in c.readers ::
        if Offered(c, dst, c.readers[g], writer) then DeliverTo(c.readers[g], item, NowMs(c)) else c.readers[g];
      (c.(readers := after),
       set g | g in c.readers && Offered(c, dst, c.readers[g], writer) &&
               Deliver(c.readers[g].state, item, NowMs(c)).2 &&
               c.readers[g].state.qos.reliability == RELIABLE && w.state.qos.reliability == RELIABLE
         :: Packet(dst, src, Nack(g, after[g], writer)))
  }

  function PartialsAt(c: Core, dst: Host, peer: nat): map<F.Key, F.Partial> {
    if (dst, peer) in c.partials then c.partials[(dst, peer)] else map[]
  }

  /** What a step may find besides the frame: whether the endpoint is in the
      discovery table, the peer the bytes came through, the steady clock, and
      the frame size the transport takes towards that peer. */
  datatype Env = Env(discovered: bool, peer: nat, time: nat, mtu: nat)

  function HandleFrag(c: Core, src: Host, dst: Host, f: Frame, env: Env): (Core, set<Packet>)
    requires F.Addable(f) && F.AllSound(PartialsAt(c, dst, env.peer))
  {
    var (ps, out) := F.AddFragment(PartialsAt(c, dst, env.peer), f, env.time);
    var c' := c.(partials := c.partials[(dst, env.peer) := ps]);
    match out
    case None => (c', {})
    case Some(payload) => HandleSample(c', src, dst, f.writer, f.sn, f.pubMs, payload, env.discovered)
  }

  function Clamp(r: ReaderNode): bool { r.state.qos.durability == VOLATILE }

  /** `handle_acknack`: resend what was asked for and is still held, and close
      what will never be sent with a GAP. */
  function HandleAckNack(c: Core, src: Host, dst: Host, f: Frame, env: Env): (Core, set<Packet>)
    requires f.AckNack?
  {
    if f.writer !in c.writers || c.writers[f.writer].host != dst || !env.discovered || f.reader !in c.readers
    then (c, {})
    else
      var w := c.writers[f.writer];
      var r := c.readers[f.reader];
      var resend := Resends(w.state.history, f.base, f.bitmap, Clamp(r), r.birthUs, 64);
      var end := GapEnd(w.state.history, f.base, f.bitmap, Clamp(r), r.birthUs, 64);
      (c,
       (set e, p | e in resend && p in SendSample(dst, src, Flags(w), f.writer, e, env.mtu) :: p)
       + if end > 0 then {Packet(dst, src, Gap(f.writer, f.reader, f.base, end))} else {})
  }

  /** `handle_heartbeat`: every matching reliable reader that is behind asks. */
  function HandleHeartbeat(c: Core, src: Host, dst: Host, f: Frame, env: Env): (Core, set<Packet>)
    requires f.Heartbeat?
  {
    if !env.discovered || f.writer !in c.writers then (c, {})
    else
      (c,
       set g | g in c.readers && Offered(c, dst, c.readers[g], f.writer) &&
               c.readers[g].state.qos.reliability == RELIABLE &&
               NackState(c.readers[g].state, f.writer).0 <= f.last
         :: Packet(dst, src, Nack(g, c.readers[g], f.writer)))
  }

  /** `handle_gap`: only the addressed reader skips. */
  function HandleGap(c: Core, dst: Host, f: Frame): (Core, set<Packet>)
    requires f.Gap?
  {
    if f.end < f.start || f.reader !in c.readers || c.readers[f.reader].host != dst then (c, {})
    else
      var r := c.readers[f.reader];
      (c.(readers := c.readers[f.reader := r.(state := Skip(r.state, f.writer, f.end))]), {})
  }

  ghost predicate Receivable(c: Core, dst: Host, f: Frame, env: Env) {
    f.DataFrag? ==> F.Addable(f) && F.AllSound(PartialsAt(c, dst, env.peer))
  }

  /** `handle_bytes` after decoding. */
  ghost function HandleFrame(c: Core, src: Host, dst: Host, f: Frame, env: Env): (Core, set<Packet>) {
    match f
    case Data(_, writer, sn, pubMs, payload) =>
      HandleSample(c, src, dst, writer, sn, pubMs, payload, env.discovered)
    case DataFrag(_, _, _, _, _, _, _) =>
      if Receivable(c, dst, f, env) then HandleFrag(c, src, dst, f, env) else (c, {})
    case AckNack(_, _, _, _) => HandleAckNack(c, src, dst, f, env)
    case Heartbeat(_, _, _) => HandleHeartbeat(c, src, dst, f, env)
    case Gap(_, _, _, _) => HandleGap(c, dst, f)
  }

  // ---- writing and the other spontaneous steps ----

  function MtuTo(mtu: map<Host, nat>, h: Host): nat { if h in mtu then mtu[h] else 0 }

  /** `send_targets_locked`: participants with a known matching reader. */
  function Targets(c: Core, w: WriterNode, known: set<Guid>): set<Host> {
    set g | g in known && g in c.readers && Matches(c.readers[g], w) :: c.readers[g].host
  }

  /** Sizes and counters stay within the wire format's widths. */
  predicate Writable(c: Core, w: WriterNode, payload: Bytes) {
    w.state.sn + 2 < U64 && HEADER_SIZE + FRAG_FIXED + |payload| < U32 && c.nowUs < U64
  }

  /** `write_sample` in one step: clock, cache, local readers, live send. */
  function HandleWrite(c: Core, g: Guid, payload: Bytes, known: set<Guid>, mtu: map<Host, nat>): (Core, set<Packet>) {
    if g !in c.writers || !Writable(c, c.writers[g], payload) then (c, {})
    else
      var w := c.writers[g];
      var (state, ok) := Publish(w.state, payload, c.nowUs, NowMs(c));
      if !ok then (c, {})
      else
        var s := Sample(state.sn, NowMs(c), c.nowUs, payload);
        (c.(writers := c.writers[g := w.(state := state)],
            local := c.local +
              set r | r in c.readers && c.readers[r].host == w.host && !c.readers[r].ignoreLocal &&
                      Matches(c.readers[r], w) :: Handover(r, g, s)),
         set h, p | h in Targets(c, w, known) && p in SendSample(w.host, h, Flags(w), g, s, MtuTo(mtu, h)) :: p)
  }

  /** A HEARTBEAT of this writer to one participant. */
  function HandleBeat(c: Core, g: Guid, dst: Host): (Core, set<Packet>) {
    if g !in c.writers then (c, {})
    else
      var w := c.writers[g];
      var first := if w.state.history == [] then w.state.sn else w.state.history[0].sn;
      (c, {Packet(w.host, dst, Heartbeat(g, first, w.state.sn))})
  }

  predicate Replayable(c: Core, r: ReaderNode, w: WriterNode) {
    r.state.qos.durability == TRANSIENT_LOCAL && w.state.qos.durability == TRANSIENT_LOCAL && Matches(r, w)
  }

  function Alive(c: Core, w: WriterNode): set<Sample> {
    set e | e in w.state.history && !LifespanExpired(w.state.qos.lifespanMs, e.pubMs, NowMs(c))
  }

  /** `replay_history_to_peer` for one newly discovered reader and one writer. */
  function HandleReplay(c: Core, g: Guid, r: Guid, mtu: nat): (Core, set<Packet>) {
    if g !in c.writers || r !in c.readers || !Replayable(c, c.readers[r], c.writers[g]) then (c, {})
    else
      var w := c.writers[g];
      (c, set e, p | e in Alive(c, w) && p in SendSample(w.host, c.readers[r].host, Flags(w), g, e, mtu) :: p)
  }

  /** `replay_local_history` for one writer: the samples are handed over. */
  function HandleLocalReplay(c: Core, g: Guid, r: Guid): (Core, set<Packet>) {
    if g !in c.writers || r !in c.readers || !Replayable(c, c.readers[r], c.writers[g]) ||
       c.readers[r].host != c.writers[g].host || c.readers[r].ignoreLocal
    then (c, {})
    else (c.(local := c.local + set e | e in Alive(c, c.writers[g]) :: Handover(r, g, e)), {})
  }

  /** The handed-over sample is enqueued. */
  function HandleHandover(c: Core, h: Handover): (Core, set<Packet>) {
    if h !in c.local || h.reader !in c.readers || h.writer !in c.writers then (c, {})
    else
      var e := h.sample;
      var item := Item(h.writer, e.sn, e.pubMs, e.payload, c.writers[h.writer].state.qos.lifespanMs);
      (c.(readers := c.readers[h.reader := DeliverTo(c.readers[h.reader], item, NowMs(c))]), {})
  }

  datatype Step =
    | Tick(us: nat)
    | CreateWriter(g: Guid, host: Host, topic: string, typeName: string, qos: Qos)
    | CreateReader(g: Guid, host: Host, topic: string, typeName: string, qos: Qos, ignoreLocal: bool)
    | Write(g: Guid, payload: Bytes, known: set<Guid>, mtus: map<Host, nat>)
    | Beat(g: Guid, dst: Host)
    | Replay(g: Guid, r: Guid, mtu: nat)
    | LocalReplay(g: Guid, r: Guid)
    | Enqueue(h: Handover)
    | Receive(p: Packet, env: Env)
    | TakeOne(r: Guid)
    | SweepReader(r: Guid)
    | SweepPartials(host: Host, peer: nat, time: int, timeout: nat)
    | DropPeer(host: Host, peer: nat)

  function NewGuid(c: Core, g: Guid): bool { g !in c.writers && g !in c.readers }

  function OnReader(c: Core, g: Guid, state: ReaderState): Core
    requires g in c.readers
  {
    c.(readers := c.readers[g := c.readers[g].(state := state)])
  }

  /** One step; a step whose guard fails changes nothing. */
  ghost function Spontaneous(c: Core, step: Step): (Core, set<Packet>) {
    match step
    case Tick(us) => (if c.nowUs <= us < U64 then c.(nowUs := us) else c, {})
    case CreateWriter(g, host, topic, typeName, qos) =>
      (if NewGuid(c, g) then
         c.(writers := c.writers[g := WriterNode(host, topic, typeName, WriterState(qos, 0, [], []))])
       else c, {})
    case CreateReader(g, host, topic, typeName, qos, ignoreLocal) =>
      (if NewGuid(c, g) then
         c.(readers := c.readers[g := ReaderNode(host, topic, typeName, c.nowUs, ignoreLocal, Fresh(qos))])
       else c, {})
    case Write(g, payload, known, mtus) => HandleWrite(c, g, payload, known, mtus)
    case Beat(g, dst) => HandleBeat(c, g, dst)
    case Replay(g, r, mtu) => HandleReplay(c, g, r, mtu)
    case LocalReplay(g, r) => HandleLocalReplay(c, g, r)
    case Enqueue(h) => HandleHandover(c, h)
    case Receive(_, _) => (c, {})
    case TakeOne(r) =>
      (if r in c.readers then OnReader(c, r, Take(c.readers[r].state, NowMs(c)).0) else c, {})
    case SweepReader(r) =>
      (if r in c.readers then OnReader(c, r, SweepQueue(c.readers[r].state, NowMs(c))) else c, {})
    case SweepPartials(host, peer, time, timeout) =>
      (if (host, peer) in c.partials then
         c.(partials := c.partials[(host, peer) := F.Sweep(c.partials[(host, peer)], time, timeout)])
       else c, {})
    case DropPeer(host, peer) => (c.(partials := c.partials - {(host, peer)}), {})
  }

  ghost function Apply(s: Sys, step: Step): Sys {
    var (c, out) :=
      if step.Receive? then
        (if step.p in s.net then HandleFrame(s.core, step.p.src, step.p.dst, step.p.frame, step.env) else (s.core, {}))
      else Spontaneous(s.core, step);
    Sys(c, s.net + out)
  }

  /** The state after a run from the empty system. */
  ghost function Exec(steps: seq<Step>): Sys {
    if steps == [] then INIT else Apply(Exec(steps[..|steps| - 1]), steps[|steps| - 1])
  }
}
