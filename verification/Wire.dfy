/** The same protocol with bytes on the wire: what travels is the encoding of a
    frame, and a participant acts on what it decodes. Every run over bytes is a
    run over frames, so every guarantee carries over. */
module Wire {
  import opened Base
  import opened Frames
  import opened Readers
  import opened Systems
  import opened Invariants
  import opened Preservation
  import opened Sums
  import opened Guarantees

  datatype Datagram = Datagram(src: Host, dst: Host, bytes: Bytes)

  datatype WireSys = WireSys(core: Core, net: set<Datagram>)

  datatype WireStep =
    | Local(step: Step)
    | Arrive(d: Datagram, env: Env)

  function OnWire(p: Packet): Datagram { Datagram(p.src, p.dst, Encode(p.frame, [])) }

  function AllOnWire(ps: set<Packet>): set<Datagram> { set p | p in ps :: OnWire(p) }

  /** `handle_bytes`: what does not decode is dropped. */
  ghost function HandleBytes(c: Core, d: Datagram, env: Env): (Core, set<Packet>) {
    match Decode(d.bytes)
    case None => (c, {})
    case Some(f) => HandleFrame(c, d.src, d.dst, f, env)
  }

  ghost function WireApply(s: WireSys, step: WireStep): WireSys {
    var (c, out) :=
      match step
      case Local(st) => Spontaneous(s.core, st)
      case Arrive(d, env) => if d in s.net then HandleBytes(s.core, d, env) else (s.core, {});
    WireSys(c, s.net + AllOnWire(out))
  }

  ghost function WireExec(steps: seq<WireStep>): WireSys {
    if steps == [] then WireSys(INIT.core, {}) else WireApply(WireExec(steps[..|steps| - 1]), steps[|steps| - 1])
  }

  /** The frame-level step that a byte-level step is. A clock that does not
      advance is a step that changes nothing. */
  ghost function AsFrames(s: WireSys, step: WireStep): Step {
    match step
    case Local(st) => if st.Receive? then Tick(0) else st
    case Arrive(d, env) =>
      if d in s.net && Decode(d.bytes).Some? then Receive(Packet(d.src, d.dst, Decode(d.bytes).value), env)
      else Tick(0)
  }

  ghost function RunAsFrames(steps: seq<WireStep>): seq<Step> {
    if steps == [] then []
    else
      var pre := steps[..|steps| - 1];
      RunAsFrames(pre) + [AsFrames(WireExec(pre), steps[|steps| - 1])]
  }

  /** What is sent decodes to the very frame that was sent. */
  lemma SentDecodes(c: Core, p: Packet)
    requires PacketOk(c, p)
    ensures Decode(OnWire(p).bytes) == Some(p.frame)
  {
    hide Encode, Decode, Fits;
    FrameRoundTrip(p.frame, []);
    assert OnWire(p).bytes + [] == OnWire(p).bytes;
  }

  lemma InFlightDecodes(c: Core, net: set<Packet>, d: Datagram)
    requires NetOk(c, net) && d in AllOnWire(net)
    ensures Decode(d.bytes).Some? && Packet(d.src, d.dst, Decode(d.bytes).value) in net
  {
    hide PacketOk, Encode, Decode;
    var p :| p in net && OnWire(p) == d;
    SentDecodes(c, p);
  }

  /** Bytes refine frames: every run over bytes passes through the states of a
      run over frames, with exactly its frames, encoded, in flight. */
  lemma {:induction false} BytesRefineFrames(steps: seq<WireStep>)
    ensures WireExec(steps).core == Exec(RunAsFrames(steps)).core
    ensures WireExec(steps).net == AllOnWire(Exec(RunAsFrames(steps)).net)
  {
    hide HandleFrame, Spontaneous, CoreInv, NetOk, Decode, Encode;
    if steps != [] {
      var pre, step := steps[..|steps| - 1], steps[|steps| - 1];
      BytesRefineFrames(pre);
      RunKeeps(RunAsFrames(pre));
      var s, s' := WireExec(pre), Exec(RunAsFrames(pre));
      assert RunAsFrames(steps)[..|steps| - 1] == RunAsFrames(pre) by { SameLength(pre); }
      if step.Arrive? && step.d in s.net { InFlightDecodes(s'.core, s'.net, step.d); }
      QuietSteps(s'.core);
    }
  }

  ghost function AsBytes(s: Sys, step: Step): WireStep {
    if !step.Receive? then Local(step)
    else if step.p in s.net then Arrive(OnWire(step.p), step.env)
    else Local(Tick(0))
  }

  ghost function RunAsBytes(steps: seq<Step>): seq<WireStep> {
    if steps == [] then []
    else
      var pre := steps[..|steps| - 1];
      RunAsBytes(pre) + [AsBytes(Exec(pre), steps[|steps| - 1])]
  }

  /** And every run over frames is a run over bytes, so what can be reached,
      healed states and stuck ones alike, can be reached over bytes. */
  lemma {:induction false} FramesRunOverBytes(steps: seq<Step>)
    ensures WireExec(RunAsBytes(steps)).core == Exec(steps).core
    ensures WireExec(RunAsBytes(steps)).net == AllOnWire(Exec(steps).net)
  {
    hide HandleFrame, Spontaneous, CoreInv, PacketOk, Decode, Encode;
    if steps != [] {
      var pre, step := steps[..|steps| - 1], steps[|steps| - 1];
      FramesRunOverBytes(pre);
      RunKeeps(pre);
      var s := Exec(pre);
      SameBytesLength(pre);
      assert RunAsBytes(steps)[..|steps| - 1] == RunAsBytes(pre);
      if step.Receive? && step.p in s.net {
        SentDecodes(s.core, step.p);
        assert OnWire(step.p) in AllOnWire(s.net);
      }
      QuietSteps(s.core);
    }
  }

  lemma {:induction false} SameBytesLength(steps: seq<Step>)
    ensures |RunAsBytes(steps)| == |steps|
  {
    if steps != [] { SameBytesLength(steps[..|steps| - 1]); }
  }

  lemma {:induction false} SameLength(steps: seq<WireStep>)
    ensures |RunAsFrames(steps)| == |steps|
  {
    if steps != [] { SameLength(steps[..|steps| - 1]); }
  }

  lemma QuietSteps(c: Core)
    ensures Spontaneous(c, Tick(0)) == (c, {})
    ensures forall p, env :: Spontaneous(c, Receive(p, env)) == (c, {})
  {
  }

  /** End to end over bytes: whatever is lost, duplicated or reordered, a reader
      queues only what was published, each (writer, seq) once. */
  lemma EndToEndOverBytes(steps: seq<WireStep>, g: Guid)
    requires g in WireExec(steps).core.readers
    ensures var c := WireExec(steps).core;
            var r := c.readers[g].state;
            && (forall i | i in r.queued ::
                  i.writer in c.writers && 1 <= i.sn <= |c.writers[i.writer].state.log| &&
                  c.writers[i.writer].state.log[i.sn - 1].payload == i.payload)
            && Distinct(r.queued, (i: Item) => (i.writer, i.sn))
            && SubSeq(r.taken + r.queue, r.queued)
  {
    hide WireExec, Exec, RunAsFrames;
    BytesRefineFrames(steps);
    EndToEnd(RunAsFrames(steps), g);
  }
}
