/** Runs of the protocol put together from parts. */
module Runs {
  import opened Base
  import opened Frames
  import opened Guarantees
  import opened Healing
  import opened Invariants
  import opened Preservation
  import opened Readers
  import opened Systems
  import opened Writers
  import F = Fragments

  lemma ExecSnoc(steps: seq<Step>, step: Step)
    ensures Exec(steps + [step]) == Apply(Exec(steps), step)
  {
    assert (steps + [step])[..|steps|] == steps;
  }

  lemma {:induction false} CoreSnoc(steps: seq<Step>, n: nat)
    requires n < |steps| && !steps[n].Receive?
    ensures Exec(steps[..n + 1]).core == Spontaneous(Exec(steps[..n]).core, steps[n]).0
  {
    hide Spontaneous;
    assert steps[..n + 1][..n] == steps[..n];
  }

  lemma {:induction false} NetSnoc(steps: seq<Step>, n: nat)
    requires n < |steps| && !steps[n].Receive?
    ensures Exec(steps[..n + 1]).net == Exec(steps[..n]).net + Spontaneous(Exec(steps[..n]).core, steps[n]).1
  {
    hide Spontaneous;
    assert steps[..n + 1][..n] == steps[..n];
  }

  lemma InitExec()
    ensures Exec([]) == INIT
  {
  }

  function Receives(ps: seq<Packet>, env: Env): seq<Step> {
    seq(|ps|, k requires 0 <= k < |ps| => Receive(ps[k], env))
  }

  /** Frames in flight may be received in any order: `ReceiveAll` is a run. */
  lemma {:induction false} ReceiveAllIsRun(steps: seq<Step>, ps: seq<Packet>, env: Env)
    requires forall p | p in ps :: p in Exec(steps).net
    ensures Exec(steps + Receives(ps, env)).core == ReceiveAll(Exec(steps).core, ps, env)
    ensures Exec(steps).net <= Exec(steps + Receives(ps, env)).net
    decreases |ps|
  {
    hide HandleFrame;
    if ps == [] {
      assert steps + Receives(ps, env) == steps;
    } else {
      var pre, p := ps[..|ps| - 1], ps[|ps| - 1];
      ReceiveAllIsRun(steps, pre, env);
      assert steps + Receives(ps, env) == steps + Receives(pre, env) + [Receive(p, env)];
      ExecSnoc(steps + Receives(pre, env), Receive(p, env));
    }
  }

  lemma {:induction false} Listed(ps: set<Packet>) returns (l: seq<Packet>)
    ensures forall p :: p in l <==> p in ps
    decreases |ps|
  {
    if ps == {} {
      l := [];
    } else {
      var p :| p in ps;
      l := Listed(ps - {p});
      l := l + [p];
    }
  }

  /** Heartbeat, NACK and answer as steps: afterwards the whole answer is in
      flight and nothing else has changed. */
  lemma AskAndAnswer(steps: seq<Step>, g: Guid, w: Guid, env: Env) returns (more: seq<Step>)
    requires var c := Exec(steps).core;
             && Ready(c, g, w, env) && c.readers[g].state.qos.reliability == RELIABLE
             && Track(c, g, w).rx.last < c.writers[w].state.sn
    ensures Exec(steps + more).core == Exec(steps).core
    ensures Answer(Exec(steps).core, g, w, env) <= Exec(steps + more).net
  {
    hide CoreInv, NackState, Resends, GapEnd, SendSample;
    var c := Exec(steps).core;
    var src, dst := c.writers[w].host, c.readers[g].host;
    var first := if c.writers[w].state.history == [] then c.writers[w].state.sn else c.writers[w].state.history[0].sn;
    var beat := Packet(src, dst, Heartbeat(w, first, c.writers[w].state.sn));
    var nack := Packet(dst, src, Nack(g, c.readers[g], w));
    HeartbeatAsks(c, g, w, env, first);
    ExecSnoc(steps, Beat(w, dst));
    ExecSnoc(steps + [Beat(w, dst)], Receive(beat, env));
    ExecSnoc(steps + [Beat(w, dst)] + [Receive(beat, env)], Receive(nack, env));
    more := [Beat(w, dst), Receive(beat, env), Receive(nack, env)];
    assert steps + more == steps + [Beat(w, dst)] + [Receive(beat, env)] + [Receive(nack, env)];
  }

  // ---- a sole writer, on participant 0, and readers on participant 1 ----

  const SOME_ENV: Env := Env(true, 0, 0, 1400)

  predicate Keeping(qos: Qos) {
    qos.reliability == RELIABLE && qos.history == KEEP_LAST && qos.depth >= 2 && qos.lifespanMs == 0
  }

  function Sole(w: Guid, topic: string, typeName: string, n: WriterState): map<Guid, WriterNode> {
    map[w := WriterNode(0, topic, typeName, n)]
  }

  function SampleAtTime(sn: nat, us: nat): Sample { Sample(sn, us / 1000, us, []) }

  function FrameOf(w: Guid, e: Sample): Packet { Packet(0, 1, Data(1, w, e.sn, e.pubMs, e.payload)) }

  lemma KeptPublish(n: WriterState, us: nat)
    requires Keeping(n.qos) && |n.history| < 2
    ensures var e := SampleAtTime(n.sn + 1, us);
            Publish(n, [], us, us / 1000) == (WriterState(n.qos, n.sn + 1, n.history + [e], n.log + [e]), true)
  {
  }

  /** A write adds its sample to the history, whoever it is sent to. */
  lemma KeptWrite(c: Core, w: Guid, topic: string, typeName: string, n: WriterState, known: set<Guid>,
                  mtus: map<Host, nat>)
    requires c.writers == Sole(w, topic, typeName, n) && Keeping(n.qos) && |n.history| < 2
    requires n.sn + 2 < U64 && c.nowUs < U64
    ensures var e := SampleAtTime(n.sn + 1, c.nowUs);
            var c' := HandleWrite(c, w, [], known, mtus).0;
            && c'.writers == Sole(w, topic, typeName, WriterState(n.qos, n.sn + 1, n.history + [e], n.log + [e]))
            && c'.readers == c.readers && c'.nowUs == c.nowUs
  {
    hide Targets, SendSample, Publish;
    KeptPublish(n, c.nowUs);
  }

  lemma FrameOfSample(w: Guid, e: Sample)
    requires e.payload == []
    ensures FrameOf(w, e) in SendSample(0, 1, 1, w, e, 1400)
  {
    OneFrame(0, 1, 1, w, e, 1400);
  }

  /** And its frame goes out towards a known matching reader. */
  lemma KeptWriteSends(c: Core, w: Guid, topic: string, typeName: string, n: WriterState, g: Guid)
    requires CoreInv(c) && c.writers == Sole(w, topic, typeName, n) && Keeping(n.qos) && |n.history| < 2
    requires n.sn + 2 < U64 && c.nowUs < U64
    requires g in c.readers && c.readers[g].host == 1 && Matches(c.readers[g], c.writers[w])
    ensures FrameOf(w, SampleAtTime(n.sn + 1, c.nowUs)) in HandleWrite(c, w, [], {g}, map[1 := 1400]).1
  {
    hide CoreInv, SendSample, HandleWrite;
    var e := SampleAtTime(n.sn + 1, c.nowUs);
    KeptWrite(c, w, topic, typeName, n, {g}, map[1 := 1400]);
    FrameOfSample(w, e);
    NewIsSent(c, w, [], {g}, map[1 := 1400], g, FrameOf(w, e));
  }

  lemma OneFrame(src: Host, dst: Host, flags: nat, w: Guid, e: Sample, mtu: nat)
    requires HEADER_SIZE + DATA_FIXED + |e.payload| <= mtu
    ensures Packet(src, dst, Data(flags, w, e.sn, e.pubMs, e.payload)) in SendSample(src, dst, flags, w, e, mtu)
  {
    var fs := F.Fragment(flags, w, e.sn, e.pubMs, e.payload, mtu);
    assert fs[0] in fs;
  }

  lemma SameBirth(c: Core, c': Core, g: Guid)
    requires Grows(c, c') && g in c.readers
    ensures g in c'.readers && c'.readers[g].birthUs == c.readers[g].birthUs && c'.readers[g].host == c.readers[g].host
    ensures c'.readers[g].state.qos == c.readers[g].state.qos
  {
    assert ReaderGrows(c.readers[g], c'.readers[g]);
  }

  /** The frame of a sample above the baseline arrives. */
  lemma FrameAccepted(steps: seq<Step>, w: Guid, e: Sample, g: Guid)
    requires var s := Exec(steps);
             && g in s.core.readers && s.core.readers[g].host == 1 && w in s.core.writers
             && Matches(s.core.readers[g], s.core.writers[w]) && Track(s.core, g, w).rx.last < e.sn
             && Published(s.core, w, e.sn) && SampleAt(s.core, w, e.sn) == e && FrameOf(w, e) in s.net
    ensures var c, c' := Exec(steps).core, Exec(steps + [Receive(FrameOf(w, e), SOME_ENV)]).core;
            && g in c'.readers && c'.readers[g].birthUs == c.readers[g].birthUs
            && c'.readers[g].state.qos == c.readers[g].state.qos && e.sn in Track(c', g, w).got
            && Published(c', w, e.sn) && SampleAt(c', w, e.sn) == e
  {
    hide Exec, CoreInv, Grows, HandleSample, Published, SampleAt, TrackOf;
    var arrive := Receive(FrameOf(w, e), SOME_ENV);
    RunKeeps(steps);
    RunGrows(steps, [arrive]);
    ExecSnoc(steps, arrive);
    var c, c' := Exec(steps).core, Exec(steps + [arrive]).core;
    SameBirth(c, c', g);
    OfferedToAll(c, 0, 1, w, e.sn, e.pubMs, e.payload, g);
    PublishedGrows(c, c', w, e.sn);
  }
}
