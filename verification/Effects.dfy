/** Who is answered, sent to or handed a sample by one handler, and who is not. */
module Effects {
  import opened Base
  import opened Frames
  import opened Invariants
  import opened Preservation
  import opened Readers
  import opened Systems
  import opened Writers
  import F = Fragments

  // ---- heartbeats ----

  /** A HEARTBEAT is answered by exactly the matching reliable readers of the
      participant it reaches whose baseline is below the seq it announces, each
      with one ACKNACK for what it misses; nothing else is sent and no state
      changes. */
  lemma HeartbeatIff(c: Core, src: Host, dst: Host, f: Frame, env: Env)
    requires f.Heartbeat?
    ensures var (c', out) := HandleHeartbeat(c, src, dst, f, env);
            && c' == c
            && (forall g | g in c.readers ::
                  var rx := TrackOf(c.readers[g].state, f.writer).rx;
                  Packet(dst, src, AckNack(g, f.writer, rx.last + 1, rx.window)) in out <==>
                    && env.discovered && f.writer in c.writers && Matches(c.readers[g], c.writers[f.writer])
                    && c.readers[g].host == dst && c.readers[g].state.qos.reliability == RELIABLE
                    && rx.last < f.last)
            && forall p | p in out ::
                 && p.src == dst && p.dst == src && p.frame.AckNack? && p.frame.reader in c.readers
                 && p.frame == Nack(p.frame.reader, c.readers[p.frame.reader], f.writer)
  {
    hide Matches, TrackOf;
    var out := HandleHeartbeat(c, src, dst, f, env).1;
    forall g | g in c.readers
      ensures Nack(g, c.readers[g], f.writer).reader == g
    {
    }
  }

  /** In every reachable state, the receiver of any HEARTBEAT in flight that is not
      reliable stays silent: every ACKNACK in flight is a reliable reader's. */
  lemma OnlyReliableReadersAsk(steps: seq<Step>, p: Packet)
    requires p in Exec(steps).net && p.frame.AckNack?
    ensures var c := Exec(steps).core;
            p.frame.reader in c.readers && c.readers[p.frame.reader].state.qos.reliability == RELIABLE
  {
    hide Exec, CoreInv;
    RunKeeps(steps);
    assert PacketOk(Exec(steps).core, p);
  }

  /** In every reachable state, every DATA and DATA_FRAG frame in flight says whether
      its writer is RELIABLE. */
  lemma FlagsSayReliable(steps: seq<Step>, p: Packet)
    requires p in Exec(steps).net && (p.frame.Data? || p.frame.DataFrag?)
    ensures var c := Exec(steps).core;
            && p.frame.writer in c.writers
            && p.frame.flags == if c.writers[p.frame.writer].state.qos.reliability == RELIABLE then 1 else 0
  {
    hide Exec, CoreInv, Justified, SampleAt;
    RunKeeps(steps);
    assert PacketOk(Exec(steps).core, p);
  }

  // ---- frames that are ignored ----

  /** Data of a writer not discovered, an ACKNACK of a reader not discovered or
      for a writer of another participant, a GAP for a reader of another
      participant and a GAP that ends before it starts change nothing and draw no
      answer. */
  lemma IgnoredFrames(c: Core, p: Packet, env: Env)
    requires match p.frame
             case Data(_, _, _, _, _) => !env.discovered
             case DataFrag(_, _, _, _, _, _, _) => false
             case AckNack(r, w, _, _) => !env.discovered || w !in c.writers || c.writers[w].host != p.dst
             case Heartbeat(_, _, _) => !env.discovered
             case Gap(_, r, start, end) => end < start || r !in c.readers || c.readers[r].host != p.dst
    ensures HandleFrame(c, p.src, p.dst, p.frame, env) == (c, {})
  {
    hide Deliver, Resends, GapEnd, NackState, Skip;
  }

  /** A fragment of a writer not discovered may complete its sample, but the sample
      goes nowhere. */
  lemma UndiscoveredFragment(c: Core, p: Packet, env: Env)
    requires p.frame.DataFrag? && !env.discovered
    ensures var (c', out) := HandleFrame(c, p.src, p.dst, p.frame, env);
            out == {} && c'.readers == c.readers && c'.writers == c.writers && c'.local == c.local
  {
    hide F.AddFragment, F.AllSound;
  }

  // ---- replay ----

  /** History is replayed to a matching TRANSIENT_LOCAL reader of a TRANSIENT_LOCAL
      writer: every frame of every held sample that has not expired, and no other. */
  lemma ReplayIff(c: Core, g: Guid, r: Guid, mtu: nat, p: Packet)
    ensures p in HandleReplay(c, g, r, mtu).1 <==>
            && g in c.writers && r in c.readers && Matches(c.readers[r], c.writers[g])
            && c.readers[r].state.qos.durability == TRANSIENT_LOCAL
            && c.writers[g].state.qos.durability == TRANSIENT_LOCAL
            && exists e :: && Unexpired(c, c.writers[g], e)
                           && p in SendSample(c.writers[g].host, c.readers[r].host, Flags(c.writers[g]), g, e, mtu)
  {
    hide SendSample, Matches;
    if g in c.writers {
      forall e
        ensures e in Alive(c, c.writers[g]) <==> Unexpired(c, c.writers[g], e)
      {
      }
    }
  }

  /** Held, and either without a lifespan, or of unknown publication time, or not
      yet so old. */
  predicate Unexpired(c: Core, w: WriterNode, e: Sample) {
    && e in w.state.history
    && (w.state.qos.lifespanMs == 0 || e.pubMs == 0 || c.nowUs / 1000 < e.pubMs + w.state.qos.lifespanMs)
  }

  /** Of a writer's own participant, a matching TRANSIENT_LOCAL reader that does not
      ignore local writers is handed every held sample that has not expired, and
      nobody is handed anything else. */
  lemma LocalReplayIff(c: Core, g: Guid, r: Guid, h: Handover)
    ensures h in HandleLocalReplay(c, g, r).0.local <==>
            || h in c.local
            || (&& g in c.writers && r in c.readers && Matches(c.readers[r], c.writers[g])
                && c.readers[r].state.qos.durability == TRANSIENT_LOCAL
                && c.writers[g].state.qos.durability == TRANSIENT_LOCAL
                && c.readers[r].host == c.writers[g].host && !c.readers[r].ignoreLocal
                && h.reader == r && h.writer == g && Unexpired(c, c.writers[g], h.sample))
  {
    hide Matches;
    if g in c.writers {
      forall e
        ensures e in Alive(c, c.writers[g]) <==> Unexpired(c, c.writers[g], e)
      {
      }
    }
  }

  /** A sample is only ever handed over inside a participant, and never to a reader
      that ignores local writers. */
  lemma HandoversAreLocal(steps: seq<Step>, h: Handover)
    requires h in Exec(steps).core.local
    ensures var c := Exec(steps).core;
            && h.reader in c.readers && h.writer in c.writers
            && c.readers[h.reader].host == c.writers[h.writer].host && !c.readers[h.reader].ignoreLocal
  {
    hide Exec, ReaderOk, WriterOk, TableOk;
    RunKeeps(steps);
    assert HandoverOk(Exec(steps).core, h);
  }

  // ---- partials ----

  /** A sweep of one reassembler takes out exactly the partials not updated within
      the timeout; a peer-down takes out that peer's whole reassembler. */
  lemma PartialsTakenOut(c: Core, h: Host, peer: nat, time: int, timeout: nat, other: Host, otherPeer: nat, key: F.Key)
    ensures var ps, ps' := PartialsAt(c, other, otherPeer),
                           PartialsAt(Spontaneous(c, SweepPartials(h, peer, time, timeout)).0, other, otherPeer);
            && (key in ps' ==> key in ps && ps'[key] == ps[key])
            && (key in ps ==>
                  (key in ps' <==> (other, otherPeer) != (h, peer) || time - ps[key].updated <= timeout))
    ensures var ps' := PartialsAt(Spontaneous(c, DropPeer(h, peer)).0, other, otherPeer);
            ps' == if (other, otherPeer) == (h, peer) then map[] else PartialsAt(c, other, otherPeer)
  {
  }

  lemma FragmentGoes(c: Core, src: Host, dst: Host, f: Frame, env: Env)
    requires f.DataFrag? && Receivable(c, dst, f, env)
    ensures HandleFrame(c, src, dst, f, env).0.partials
            == c.partials[(dst, env.peer) := F.AddFragment(PartialsAt(c, dst, env.peer), f, env.time).0]
  {
    hide F.AddFragment, PartialsAt, F.AllSound, F.Addable;
  }

  /** A fragment touches the reassembler of the peer it came through, there only its
      own sample, and it is stamped with the time of arrival unless it is bad. */
  lemma FragmentFiled(c: Core, src: Host, dst: Host, f: Frame, env: Env, host: Host, peer: nat, key: F.Key)
    requires f.DataFrag? && Receivable(c, dst, f, env)
    ensures var ps, ps' := PartialsAt(c, host, peer), PartialsAt(HandleFrame(c, src, dst, f, env).0, host, peer);
            && ((host, peer) != (dst, env.peer) || key != (f.writer, f.sn) ==>
                  (key in ps' <==> key in ps) && (key in ps ==> ps'[key] == ps[key]))
            && ((host, peer) == (dst, env.peer) && key == (f.writer, f.sn) && key in ps' ==>
                  if f.total > 0 && (f.offset + |f.chunk|) % U32 <= f.total && (key in ps ==> ps[key].total == f.total)
                  then ps'[key].updated == env.time
                  else key in ps && ps'[key] == ps[key])
  {
    FragmentGoes(c, src, dst, f, env);
    var ps, k := PartialsAt(c, dst, env.peer), (f.writer, f.sn);
    F.AddFragmentSound(ps, f, env.time);
    if f.total > 0 && (f.offset + |f.chunk|) % U32 <= f.total && (k in ps ==> ps[k].total == f.total) {
      F.Stamped(ps, f, env.time);
    } else {
      F.BadFragment(ps, f, env.time);
    }
    hide HandleFrame, F.AddFragment, F.AllSound, F.Addable;
  }
}
