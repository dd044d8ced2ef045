/** What a run of the protocol does to one reader's view of one writer: the data
    and GAP events it amounts to. */
module Projection {
  import opened Base
  import opened Frames
  import opened Preservation
  import opened Readers
  import opened Systems
  import opened Writers
  import F = Fragments
  import W = Window

  /** A sample of w reaches the reader g. */
  ghost predicate Reaches(c: Core, dst: Host, discovered: bool, writer: Guid, g: Guid, w: Guid)
    requires g in c.readers
  {
    writer == w && discovered && Offered(c, dst, c.readers[g], w)
  }

  ghost predicate Completes(c: Core, p: Packet, env: Env)
    requires p.frame.DataFrag?
  {
    Receivable(c, p.dst, p.frame, env) && F.AddFragment(PartialsAt(c, p.dst, env.peer), p.frame, env.time).1.Some?
  }

  /** What receiving a frame is to the pair. */
  ghost function FrameEvents(c: Core, p: Packet, env: Env, g: Guid, w: Guid): seq<W.Event>
    requires g in c.readers
  {
    match p.frame
    case Data(_, writer, sn, _, _) =>
      if Reaches(c, p.dst, env.discovered, writer, g, w) then [W.Arrival(sn)] else []
    case DataFrag(_, writer, sn, _, _, _, _) =>
      if Completes(c, p, env) && Reaches(c, p.dst, env.discovered, writer, g, w) then [W.Arrival(sn)] else []
    case Gap(writer, reader, start, end) =>
      if writer == w && reader == g && start <= end && c.readers[g].host == p.dst then [W.GapTo(end)] else []
    case _ => []
  }

  /** What a step is to the pair: at most one event. */
  ghost function StepEvents(s: Sys, step: Step, g: Guid, w: Guid): seq<W.Event> {
    if g !in s.core.readers then []
    else
      match step
      case Receive(p, env) => if p in s.net then FrameEvents(s.core, p, env, g, w) else []
      case Enqueue(h) =>
        if h in s.core.local && h.reader == g && h.writer == w && w in s.core.writers
        then [W.Arrival(h.sample.sn)] else []
      case _ => []
  }

  ghost function PairEvents(steps: seq<Step>, g: Guid, w: Guid): seq<W.Event> {
    if steps == [] then []
    else
      var pre := steps[..|steps| - 1];
      PairEvents(pre, g, w) + StepEvents(Exec(pre), steps[|steps| - 1], g, w)
  }

  function After(t: W.Track, es: seq<W.Event>): W.Track
    requires |es| <= 1
  {
    if es == [] then t else W.Step(t, es[0])
  }

  // ---- one step ----

  lemma SampleTrack(c: Core, src: Host, dst: Host, writer: Guid, sn: nat, pubMs: nat, payload: Bytes, discovered: bool,
                    g: Guid, w: Guid)
    requires g in c.readers && ReaderInv(c.readers[g].state)
    ensures var c' := HandleSample(c, src, dst, writer, sn, pubMs, payload, discovered).0;
            && g in c'.readers
            && TrackOf(c'.readers[g].state, w) ==
               After(TrackOf(c.readers[g].state, w),
                     if Reaches(c, dst, discovered, writer, g, w) then [W.Arrival(sn)] else [])
  {
    hide Deliver, ReaderInv, TrackOf, W.OnData;
    if discovered && writer in c.writers {
      var item := Item(writer, sn, pubMs, payload, c.writers[writer].state.qos.lifespanMs);
      DeliverKeeps(c.readers[g].state, item, NowMs(c));
    }
  }

  lemma GapTrack(c: Core, dst: Host, f: Frame, g: Guid, w: Guid)
    requires g in c.readers && ReaderInv(c.readers[g].state) && f.Gap?
    ensures var c' := HandleGap(c, dst, f).0;
            && g in c'.readers
            && TrackOf(c'.readers[g].state, w) ==
               After(TrackOf(c.readers[g].state, w),
                     if f.writer == w && f.reader == g && f.start <= f.end && c.readers[g].host == dst
                     then [W.GapTo(f.end)] else [])
  {
    hide Skip, ReaderInv, TrackOf, W.OnGap;
    SkipKeeps(c.readers[g].state, f.writer, f.end);
  }

  lemma FrameTrack(c: Core, p: Packet, env: Env, g: Guid, w: Guid)
    requires g in c.readers && ReaderInv(c.readers[g].state)
    ensures var c' := HandleFrame(c, p.src, p.dst, p.frame, env).0;
            && g in c'.readers
            && TrackOf(c'.readers[g].state, w) ==
               After(TrackOf(c.readers[g].state, w), FrameEvents(c, p, env, g, w))
  {
    hide HandleSample, ReaderInv, TrackOf, HandleGap, F.AddFragment, F.AllSound, W.Step;
    match p.frame
    case Data(_, writer, sn, pubMs, payload) =>
      SampleTrack(c, p.src, p.dst, writer, sn, pubMs, payload, env.discovered, g, w);
    case DataFrag(_, writer, sn, pubMs, _, _, _) =>
      if Completes(c, p, env) {
        var (ps, out) := F.AddFragment(PartialsAt(c, p.dst, env.peer), p.frame, env.time);
        var c1 := c.(partials := c.partials[(p.dst, env.peer) := ps]);
        SampleTrack(c1, p.src, p.dst, writer, sn, pubMs, out.value, env.discovered, g, w);
      }
    case Gap(_, _, _, _) =>
      GapTrack(c, p.dst, p.frame, g, w);
    case AckNack(_, _, _, _) =>
    case Heartbeat(_, _, _) =>
  }

  lemma QuietTrack(c: Core, step: Step, g: Guid, w: Guid)
    requires g in c.readers && ReaderInv(c.readers[g].state) && !step.Enqueue?
    ensures var c' := Spontaneous(c, step).0;
            g in c'.readers && TrackOf(c'.readers[g].state, w) == TrackOf(c.readers[g].state, w)
  {
    hide ReaderInv, Take, SweepQueue, HandleWrite, HandleBeat, HandleReplay, HandleLocalReplay;
    if step.Write? {
      WriteReaders(c, step.g, step.payload, step.known, step.mtus);
    } else if step.Beat? || step.Replay? || step.LocalReplay? {
      QuietReaders(c, step);
    } else {
      TakeKeeps(c.readers[g].state, NowMs(c));
      SweepTracks(c.readers[g].state, NowMs(c));
    }
  }

  lemma WriteReaders(c: Core, g: Guid, payload: Bytes, known: set<Guid>, mtus: map<Host, nat>)
    ensures HandleWrite(c, g, payload, known, mtus).0.readers == c.readers
  {
    hide Targets, SendSample;
  }

  lemma QuietReaders(c: Core, step: Step)
    requires step.Beat? || step.Replay? || step.LocalReplay?
    ensures Spontaneous(c, step).0.readers == c.readers
  {
    hide Alive, SendSample;
  }

  lemma SweepTracks(r: ReaderState, nowMs: nat)
    ensures SweepQueue(r, nowMs).tracks == r.tracks
  {
    hide Swept;
  }

  lemma HandoverTrack(c: Core, h: Handover, g: Guid, w: Guid)
    requires g in c.readers && ReaderInv(c.readers[g].state)
    ensures var c' := HandleHandover(c, h).0;
            && g in c'.readers
            && TrackOf(c'.readers[g].state, w) ==
               After(TrackOf(c.readers[g].state, w),
                     if h in c.local && h.reader == g && h.writer == w && w in c.writers
                     then [W.Arrival(h.sample.sn)] else [])
  {
    hide Deliver, ReaderInv, TrackOf, W.OnData;
    if h in c.local && h.reader in c.readers && h.writer in c.writers {
      var e := h.sample;
      DeliverKeeps(c.readers[g].state,
                   Item(h.writer, e.sn, e.pubMs, e.payload, c.writers[h.writer].state.qos.lifespanMs), NowMs(c));
    }
  }

  lemma StepTrack(s: Sys, step: Step, g: Guid, w: Guid)
    requires g in s.core.readers && ReaderInv(s.core.readers[g].state)
    ensures var c' := Apply(s, step).core;
            && g in c'.readers
            && TrackOf(c'.readers[g].state, w) == After(TrackOf(s.core.readers[g].state, w), StepEvents(s, step, g, w))
  {
    hide ReaderInv, TrackOf, HandleFrame, HandleHandover, FrameEvents, W.Step;
    match step
    case Receive(p, env) => if p in s.net { FrameTrack(s.core, p, env, g, w); }
    case Enqueue(h) => HandoverTrack(s.core, h, g, w);
    case _ => QuietTrack(s.core, step, g, w);
  }

  /** A reader just made has seen nothing. */
  lemma NewReader(s: Sys, step: Step, g: Guid, w: Guid)
    requires g !in s.core.readers && g in Apply(s, step).core.readers
    ensures TrackOf(Apply(s, step).core.readers[g].state, w) == W.UNSEEN
  {
    hide Deliver, Skip, Take, SweepQueue, Publish, Targets, SendSample, Alive, F.AddFragment, F.AllSound, NackState;
  }

  // ---- the run ----

  /** The receive state of a pair is what its events make of it. */
  lemma {:induction false} PairRun(steps: seq<Step>, g: Guid, w: Guid)
    ensures var c := Exec(steps).core;
            if g in c.readers then W.Run(PairEvents(steps, g, w)) == TrackOf(c.readers[g].state, w)
            else PairEvents(steps, g, w) == []
  {
    hide Apply, TrackOf, StepEvents;
    if steps != [] {
      var n := |steps| - 1;
      var pre, step := steps[..n], steps[n];
      PairRun(pre, g, w);
      RunKeeps(pre);
      NoEvents(Exec(pre), step, g, w);
      var s := Exec(pre);
      if g in s.core.readers {
        ReaderInvOf(s.core, g);
        StepTrack(s, step, g, w);
        RunAfter(PairEvents(pre, g, w), StepEvents(s, step, g, w));
      } else if g in Apply(s, step).core.readers {
        NewReader(s, step, g, w);
        RunOfNone();
      }
    }
  }

  lemma NoEvents(s: Sys, step: Step, g: Guid, w: Guid)
    ensures |StepEvents(s, step, g, w)| <= 1
    ensures g !in s.core.readers ==> StepEvents(s, step, g, w) == []
  {
  }

  lemma RunAfter(es: seq<W.Event>, more: seq<W.Event>)
    requires |more| <= 1
    ensures W.Run(es + more) == After(W.Run(es), more)
  {
    if more == [] {
      assert es + more == es;
    } else {
      assert more == [more[0]];
      W.RunSnoc(es, more[0]);
    }
  }

  lemma RunOfNone()
    ensures W.Run([]) == W.UNSEEN
  {
  }
}
