/** When a VOLATILE reader accepts a sample from before its birth: exactly when
    another reader of its participant is entitled to it. */
module Entitlement {
  import opened Base
  import opened Delivery
  import opened Frames
  import opened Guarantees
  import opened Healing
  import opened Invariants
  import opened Pairs
  import opened Preservation
  import opened Readers
  import opened Runs
  import opened Systems
  import opened Writers

  /** From any reachable state in which a reliable reader x would be resent a
      sample, the protocol can go on so that any other matching reader of x's
      participant whose baseline is below the sample accepts it, whatever its
      birth: by a heartbeat, x's NACK and the frames of the resend. */
  lemma ResendReachesOthers(steps: seq<Step>, x: Guid, g: Guid, w: Guid, env: Env, e: Sample) returns (more: seq<Step>)
    requires var c := Exec(steps).core;
             && Ready(c, x, w, env) && c.readers[x].state.qos.reliability == RELIABLE && e in Wanted(c, x, w)
             && g in c.readers && c.readers[g].host == c.readers[x].host && Matches(c.readers[g], c.writers[w])
             && Track(c, g, w).rx.last < e.sn
    ensures var c' := Exec(steps + more).core;
            && g in c'.readers && c'.readers[g].birthUs == Exec(steps).core.readers[g].birthUs
            && e.sn in Track(c', g, w).got
  {
    hide Exec, CoreInv, Wanted, Answer, SendSample, TrackOf, Published, SampleAt, Grows;
    var c := Exec(steps).core;
    var src, h, flags := c.writers[w].host, c.readers[x].host, Flags(c.writers[w]);
    WantedFacts(c, x, w, e);
    IsBehind(c, x, w, e);
    var ask := AskAndAnswer(steps, x, w, env);
    var ps := Listed(SendSample(src, h, flags, w, e, env.mtu));
    forall p | p in ps
      ensures p in Exec(steps + ask).net && p.dst == h && (IsData(p, w, e.sn) || IsFrag(p, w, e.sn))
    {
      AnswerIff(c, x, w, env, p);
      SendShape(src, h, flags, w, e, env.mtu, p);
    }
    OwnFrames(steps + ask, ps, g, w, e, env, src, flags, env.mtu);
    more := ask + Receives(ps, env);
    assert steps + more == steps + ask + Receives(ps, env);
    RunGrows(steps, more);
    SameBirth(c, Exec(steps + more).core, g);
  }

  lemma IsBehind(c: Core, x: Guid, w: Guid, e: Sample)
    requires CoreInv(c) && x in c.readers && w in c.writers && e in Wanted(c, x, w)
    ensures Track(c, x, w).rx.last < c.writers[w].state.sn
  {
    hide CoreInv, Wanted, Monotone, TrackOf;
    WantedIff(c, x, w, e);
    PairFacts(c, x, w);
    InHistory(c.writers[w].state.history, c.writers[w].state.sn, e);
  }

  // ---- the readers of a participant ----

  /** A reader as it is made. */
  datatype Spec = Spec(birthUs: nat, topic: string, typeName: string, qos: Qos)

  /** The readers of participant h, now or ever, are exactly these. */
  ghost predicate Residents(c: Core, h: Host, rs: map<Guid, Spec>) {
    && (forall x | x in rs :: x in c.readers && MadeAs(c.readers[x], h, rs[x]))
    && (forall x | x in c.readers && c.readers[x].host == h :: x in rs)
  }

  predicate MadeAs(r: ReaderNode, h: Host, spec: Spec) {
    && r.host == h && r.birthUs == spec.birthUs && r.topic == spec.topic && r.typeName == spec.typeName
    && r.state.qos == spec.qos
  }

  /** g is one of them and has accepted a sample from before its birth. */
  ghost predicate Leaks(c: Core, h: Host, rs: map<Guid, Spec>, g: Guid) {
    && g in rs && Residents(c, h, rs)
    && exists w, sn :: Published(c, w, sn) && sn in Track(c, g, w).got && SampleAt(c, w, sn).pubUs < rs[g].birthUs
  }

  /** A reader of the same topic and type that is older, or is TRANSIENT_LOCAL
      while there was a time before the other's birth. */
  predicate Exposes(other: Spec, me: Spec) {
    && other.topic == me.topic && other.typeName == me.typeName
    && (other.birthUs < me.birthUs || (other.qos.durability == TRANSIENT_LOCAL && me.birthUs > 0))
  }

  /** Readers as endpoint creation lets them through, born within the clock's
      width, of which g is VOLATILE. */
  predicate Makeable(rs: map<Guid, Spec>, g: Guid) {
    && g in rs && rs[g].qos.durability == VOLATILE
    && forall x | x in rs ::
         rs[x].birthUs < U64 && (rs[x].qos.durability == VOLATILE || rs[x].qos.durability == TRANSIENT_LOCAL)
  }

  /** Whatever readers a participant has, a VOLATILE one of them can come to accept
      a sample from before its birth, in some run, if and only if one of the
      others exposes it. (A GUID w must be left for a writer.) */
  lemma LeakPossibleIff(rs: map<Guid, Spec>, g: Guid, w: Guid)
    requires Makeable(rs, g) && w !in rs
    ensures (exists steps, h :: Leaks(Exec(steps).core, h, rs, g)) <==> exists x :: x in rs && Exposes(rs[x], rs[g])
  {
    hide Exec, Leaks;
    if steps, h :| Leaks(Exec(steps).core, h, rs, g) {
      var x := LeakNeeds(steps, h, rs, g);
    }
    if x :| x in rs && Exposes(rs[x], rs[g]) {
      if rs[x].birthUs < rs[g].birthUs {
        var steps := OlderLeaks(rs, g, w, x);
      } else {
        var steps := LocalLeaks(rs, g, w, x);
      }
    }
  }

  lemma LeakNeeds(steps: seq<Step>, h: Host, rs: map<Guid, Spec>, g: Guid) returns (x: Guid)
    requires Makeable(rs, g) && Leaks(Exec(steps).core, h, rs, g)
    ensures x in rs && Exposes(rs[x], rs[g])
  {
    hide Exec, Published, SampleAt, TrackOf;
    var c := Exec(steps).core;
    var w, sn :| Published(c, w, sn) && sn in Track(c, g, w).got && SampleAt(c, w, sn).pubUs < rs[g].birthUs;
    VolatileJoinSafety(steps, g, w, sn);
    PublishedHere(c, w, sn);
    x :| x in c.readers && c.readers[x].host == h && Matches(c.readers[x], c.writers[w]) &&
         !(Clamp(c.readers[x]) && c.readers[x].birthUs >= rs[g].birthUs);
  }

  lemma PublishedHere(c: Core, w: Guid, sn: nat)
    requires Published(c, w, sn)
    ensures w in c.writers
  {
  }

  // ---- making the readers ----

  function Newborn(spec: Spec): ReaderNode {
    ReaderNode(1, spec.topic, spec.typeName, spec.birthUs, false, Fresh(spec.qos))
  }

  function Newborns(rs: map<Guid, Spec>): map<Guid, ReaderNode> {
    map x | x in rs :: Newborn(rs[x])
  }

  lemma {:induction false} Youngest(rs: map<Guid, Spec>) returns (m: Guid)
    requires rs != map[]
    ensures m in rs && forall x | x in rs :: rs[x].birthUs <= rs[m].birthUs
    decreases |rs|
  {
    var k :| k in rs;
    var rest := rs - {k};
    if rest == map[] {
      m := k;
    } else {
      assert |rest.Keys| < |rs.Keys| by { assert rest.Keys == rs.Keys - {k}; }
      m := Youngest(rest);
      if rs[m].birthUs < rs[k].birthUs { m := k; }
    }
    forall x | x in rs
      ensures rs[x].birthUs <= rs[m].birthUs
    {
      if x != k { assert x in rest; }
    }
  }

  function Birth(x: Guid, spec: Spec): seq<Step> {
    [Tick(spec.birthUs), CreateReader(x, 1, spec.topic, spec.typeName, spec.qos, false)]
  }

  lemma Born(steps: seq<Step>, x: Guid, spec: Spec)
    requires Exec(steps).core.nowUs <= spec.birthUs < U64 && NewGuid(Exec(steps).core, x)
    ensures var s, s' := Exec(steps), Exec(steps + Birth(x, spec));
            && s'.core.writers == s.core.writers && s'.net == s.net && s'.core.nowUs == spec.birthUs
            && s'.core.readers == s.core.readers[x := Newborn(spec)]
  {
    hide Exec;
    var tick, make := Birth(x, spec)[0], Birth(x, spec)[1];
    ExecSnoc(steps, tick);
    ExecSnoc(steps + [tick], make);
    assert steps + Birth(x, spec) == steps + [tick] + [make];
  }

  /** None of them exists yet, and they will be born from now on up to a limit. */
  ghost predicate Unborn(c: Core, rs: map<Guid, Spec>, limit: nat) {
    c.nowUs <= limit < U64 && forall x | x in rs :: NewGuid(c, x) && c.nowUs <= rs[x].birthUs <= limit
  }

  /** They have been made, and nothing else has changed but the clock. */
  ghost predicate Populated(s: Sys, s': Sys, rs: map<Guid, Spec>, limit: nat) {
    && s'.core.writers == s.core.writers && s'.net == s.net && s'.core.nowUs <= limit
    && s'.core.readers == s.core.readers + Newborns(rs)
  }

  lemma UnbornRest(c: Core, rs: map<Guid, Spec>, limit: nat, m: Guid)
    requires Unborn(c, rs, limit) && m in rs && forall x | x in rs :: rs[x].birthUs <= rs[m].birthUs
    ensures Unborn(c, rs - {m}, rs[m].birthUs) && rs[m].birthUs <= limit
    ensures |rs - {m}| < |rs|
  {
    assert (rs - {m}).Keys == rs.Keys - {m};
    assert |(rs - {m}).Keys| == |rs - {m}| && |rs.Keys| == |rs|;
  }

  lemma LastBorn(s: Sys, s1: Sys, s2: Sys, rs: map<Guid, Spec>, m: Guid, limit: nat)
    requires m in rs && rs[m].birthUs <= limit && Populated(s, s1, rs - {m}, rs[m].birthUs)
    requires s2.core.writers == s1.core.writers && s2.net == s1.net && s2.core.nowUs == rs[m].birthUs
    requires s2.core.readers == s1.core.readers[m := Newborn(rs[m])]
    ensures Populated(s, s2, rs, limit)
  {
    hide Newborn;
    assert Newborns(rs) == Newborns(rs - {m})[m := Newborn(rs[m])];
  }

  lemma StillUnborn(s: Sys, s1: Sys, rs: map<Guid, Spec>, m: Guid, limit: nat)
    requires m in rs && Unborn(s.core, rs, limit) && Populated(s, s1, rs - {m}, rs[m].birthUs)
    ensures NewGuid(s1.core, m) && s1.core.nowUs <= rs[m].birthUs < U64
  {
    hide Newborn;
  }

  /** Any set of readers not born yet can be made, in the order of their births. */
  lemma {:induction false} Populate(steps: seq<Step>, rs: map<Guid, Spec>, limit: nat) returns (more: seq<Step>)
    requires Unborn(Exec(steps).core, rs, limit)
    ensures Populated(Exec(steps), Exec(steps + more), rs, limit)
    decreases |rs|
  {
    hide Exec, Unborn, Populated;
    if rs == map[] {
      more := [];
      assert steps + more == steps;
      NobodyBorn(Exec(steps), limit);
    } else {
      var m := Youngest(rs);
      UnbornRest(Exec(steps).core, rs, limit, m);
      var pre := Populate(steps, rs - {m}, rs[m].birthUs);
      StillUnborn(Exec(steps), Exec(steps + pre), rs, m, limit);
      Born(steps + pre, m, rs[m]);
      more := pre + Birth(m, rs[m]);
      assert steps + more == steps + pre + Birth(m, rs[m]);
      LastBorn(Exec(steps), Exec(steps + pre), Exec(steps + more), rs, m, limit);
    }
  }

  lemma NobodyBorn(s: Sys, limit: nat)
    requires Unborn(s.core, map[], limit)
    ensures Populated(s, s, map[], limit)
  {
  }

  // ---- the two ways to leak ----

  const KEEPING_QOS: Qos := Qos(RELIABLE, TRANSIENT_LOCAL, KEEP_LAST, 0, 10, 0, 0, 0)

  /** A writer that matches every reader of its topic and type, with one sample. */
  ghost predicate HasWritten(s: Sys, w: Guid, us: nat, spec: Spec) {
    var e := SampleAtTime(1, us);
    s.core.writers == Sole(w, spec.topic, spec.typeName, WriterState(KEEPING_QOS, 1, [e], [e]))
  }

  /** x is a reader of that topic and type on participant 1. */
  predicate Awaits(c: Core, x: Guid, spec: Spec) {
    && x in c.readers && c.readers[x].host == 1
    && c.readers[x].topic == spec.topic && c.readers[x].typeName == spec.typeName
  }

  /** The writer is made and writes its sample, to the readers known. */
  lemma WriteOnce(steps: seq<Step>, w: Guid, us: nat, spec: Spec, known: set<Guid>, mtus: map<Host, nat>)
    returns (more: seq<Step>)
    requires var c := Exec(steps).core; c.writers == map[] && w !in c.readers && c.nowUs <= us < U64
    ensures var s, s' := Exec(steps), Exec(steps + more);
            && HasWritten(s', w, us, spec) && s'.core.readers == s.core.readers && s'.core.nowUs == us
            && forall x | known == {x} && mtus == map[1 := 1400] && Awaits(s.core, x, spec) ::
                 FrameOf(w, SampleAtTime(1, us)) in s'.net
  {
    hide Exec, CoreInv, NetOk, HandleWrite;
    var tick, write := Tick(us), Write(w, [], known, mtus);
    var make := CreateWriter(w, 0, spec.topic, spec.typeName, KEEPING_QOS);
    var n := WriterState(KEEPING_QOS, 0, [], []);
    ExecSnoc(steps, tick);
    ExecSnoc(steps + [tick], make);
    var at := steps + [tick] + [make];
    ExecSnoc(at, write);
    RunKeeps(at);
    var c := Exec(at).core;
    KeptWrite(c, w, spec.topic, spec.typeName, n, known, mtus);
    assert [] + [SampleAtTime(1, us)] == [SampleAtTime(1, us)];
    forall x | known == {x} && mtus == map[1 := 1400] && Awaits(Exec(steps).core, x, spec)
      ensures FrameOf(w, SampleAtTime(1, us)) in HandleWrite(c, w, [], known, mtus).1
    {
      KeptWriteSends(c, w, spec.topic, spec.typeName, n, x);
    }
    more := [tick, make, write];
    assert steps + more == at + [write];
  }

  /** Before the frame arrives. */
  ghost predicate AboutToLeak(s: Sys, w: Guid, us: nat, rs: map<Guid, Spec>, g: Guid) {
    && g in rs && us < rs[g].birthUs && HasWritten(s, w, us, rs[g])
    && s.core.readers == Newborns(rs) && FrameOf(w, SampleAtTime(1, us)) in s.net
  }

  /** The frame arrives at all readers of the topic. */
  lemma ThenLeaks(steps: seq<Step>, w: Guid, us: nat, rs: map<Guid, Spec>, g: Guid)
    requires AboutToLeak(Exec(steps), w, us, rs, g) && rs[g].qos.durability == VOLATILE
    ensures Leaks(Exec(steps + [Receive(FrameOf(w, SampleAtTime(1, us)), SOME_ENV)]).core, 1, rs, g)
  {
    hide Exec, CoreInv, Grows, HandleSample, Residents;
    var e := SampleAtTime(1, us);
    var arrive := Receive(FrameOf(w, e), SOME_ENV);
    FrameAccepted(steps, w, e, g);
    RunGrows(steps, [arrive]);
    ExecSnoc(steps, arrive);
    var c, c' := Exec(steps).core, Exec(steps + [arrive]).core;
    StillResidents(c, c', rs) by { SameReaders(c, 0, 1, w, 1, e.pubMs, []); }
    assert Published(c', w, 1) && 1 in Track(c', g, w).got;
  }

  lemma SameReaders(c: Core, src: Host, dst: Host, w: Guid, sn: nat, pubMs: nat, payload: Bytes)
    ensures HandleSample(c, src, dst, w, sn, pubMs, payload, true).0.readers.Keys == c.readers.Keys
  {
    hide Deliver, NackState;
  }

  lemma StillResidents(c: Core, c': Core, rs: map<Guid, Spec>)
    requires c.readers == Newborns(rs) && Grows(c, c') && c'.readers.Keys == c.readers.Keys
    ensures Residents(c', 1, rs)
  {
    forall x | x in rs
      ensures x in c'.readers && MadeAs(c'.readers[x], 1, rs[x])
    {
      assert ReaderGrows(c.readers[x], c'.readers[x]);
    }
  }

  /** x is older: a sample written when only x and those before it exist is on its
      way to x when g is made. */
  lemma OlderLeaks(rs: map<Guid, Spec>, g: Guid, w: Guid, x: Guid) returns (steps: seq<Step>)
    requires Makeable(rs, g) && w !in rs && x in rs && Exposes(rs[x], rs[g]) && rs[x].birthUs < rs[g].birthUs
    ensures Leaks(Exec(steps).core, 1, rs, g)
  {
    hide Exec, Leaks, HasWritten, Unborn, Newborns;
    var us := rs[x].birthUs;
    var early := map y | y in rs && rs[y].birthUs <= us :: rs[y];
    var late := map y | y in rs && rs[y].birthUs > us :: rs[y];
    InitExec();
    NobodyYet(early, us);
    var first := Populate([], early, us);
    assert [] + first == first;
    EarlyReaders(early, w, x);
    var second := WriteOnce(first, w, us, rs[g], {x}, map[1 := 1400]);
    LateReaders(Exec(first + second), w, us, rs, g, early, late);
    var third := Populate(first + second, late, U64 - 1);
    SameWritten(Exec(first + second), Exec(first + second + third), w, us, rs[g]);
    ThenLeaks(first + second + third, w, us, rs, g);
    steps := first + second + third + [Receive(FrameOf(w, SampleAtTime(1, us)), SOME_ENV)];
  }

  lemma NobodyYet(rs: map<Guid, Spec>, limit: nat)
    requires limit < U64 && forall x | x in rs :: rs[x].birthUs <= limit
    ensures Unborn(INIT.core, rs, limit)
  {
  }

  lemma EarlyReaders(early: map<Guid, Spec>, w: Guid, x: Guid)
    requires x in early && w !in early
    ensures w !in map[] + Newborns(early) && x in map[] + Newborns(early)
    ensures (map[] + Newborns(early))[x] == Newborn(early[x])
  {
  }

  lemma LateReaders(s: Sys, w: Guid, us: nat, rs: map<Guid, Spec>, g: Guid,
                    early: map<Guid, Spec>, late: map<Guid, Spec>)
    requires Makeable(rs, g) && w !in rs
    requires HasWritten(s, w, us, rs[g]) && s.core.nowUs == us && s.core.readers == map[] + Newborns(early)
    requires early == map y | y in rs && rs[y].birthUs <= us :: rs[y]
    requires late == map y | y in rs && rs[y].birthUs > us :: rs[y]
    requires us < rs[g].birthUs
    ensures Unborn(s.core, late, U64 - 1)
    ensures s.core.readers + Newborns(late) == Newborns(rs)
  {
    hide Newborn;
  }

  lemma OnlyWriter(s: Sys, w: Guid, us: nat, spec: Spec)
    requires HasWritten(s, w, us, spec)
    ensures s.core.writers.Keys == {w}
  {
  }

  lemma SameWritten(s: Sys, s': Sys, w: Guid, us: nat, spec: Spec)
    requires HasWritten(s, w, us, spec) && s'.core.writers == s.core.writers
    ensures HasWritten(s', w, us, spec)
  {
  }

  /** x is TRANSIENT_LOCAL: it is replayed a sample written before all births. */
  lemma LocalLeaks(rs: map<Guid, Spec>, g: Guid, w: Guid, x: Guid) returns (steps: seq<Step>)
    requires Makeable(rs, g) && w !in rs && x in rs && Exposes(rs[x], rs[g])
    requires rs[x].qos.durability == TRANSIENT_LOCAL
    ensures Leaks(Exec(steps).core, 1, rs, g)
  {
    hide Exec, Leaks, HasWritten;
    InitExec();
    var first := WriteOnce([], w, 0, rs[g], {}, map[]);
    assert [] + first == first;
    OnlyWriter(Exec(first), w, 0, rs[g]);
    assert map[] + Newborns(rs) == Newborns(rs);
    var second := Populate(first, rs, U64 - 1);
    SameWritten(Exec(first), Exec(first + second), w, 0, rs[g]);
    var replay := Replay(w, x, 1400);
    Replayed(first + second, w, rs, g, x);
    ThenLeaks(first + second + [replay], w, 0, rs, g);
    steps := first + second + [replay] + [Receive(FrameOf(w, SampleAtTime(1, 0)), SOME_ENV)];
  }

  lemma Replayed(steps: seq<Step>, w: Guid, rs: map<Guid, Spec>, g: Guid, x: Guid)
    requires g in rs && x in rs && HasWritten(Exec(steps), w, 0, rs[g]) && Exec(steps).core.readers == Newborns(rs)
    requires rs[g].birthUs > 0 && rs[x].topic == rs[g].topic && rs[x].typeName == rs[g].typeName
    requires rs[x].qos.durability == TRANSIENT_LOCAL
    ensures AboutToLeak(Exec(steps + [Replay(w, x, 1400)]), w, 0, rs, g)
  {
    hide Exec, SendSample, HandleReplay;
    var c, e := Exec(steps).core, SampleAtTime(1, 0);
    ExecSnoc(steps, Replay(w, x, 1400));
    FrameOfSample(w, e);
    IsReplayed(c, w, x, 1400, e, FrameOf(w, e));
  }

  lemma IsReplayed(c: Core, w: Guid, r: Guid, mtu: nat, e: Sample, p: Packet)
    requires w in c.writers && r in c.readers && Replayable(c, c.readers[r], c.writers[w])
    requires e in Alive(c, c.writers[w])
    requires p in SendSample(c.writers[w].host, c.readers[r].host, Flags(c.writers[w]), w, e, mtu)
    ensures HandleReplay(c, w, r, mtu).0 == c && p in HandleReplay(c, w, r, mtu).1
  {
    hide SendSample, Alive;
  }
}
