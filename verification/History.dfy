/** What a writer's history holds in every reachable state, and which writes it
    rejects. */
module History {
  import opened Base
  import opened Invariants
  import opened Preservation
  import opened Readers
  import opened Systems
  import opened Writers

  // ---- runs ----

  ghost predicate Writes(c: Core, w: WriterState, payload: Bytes, w': WriterState) {
    w' == Publish(w, payload, c.nowUs, NowMs(c)).0
  }

  /** The only step that touches a writer's state is its own write. */
  lemma StepWriter(s: Sys, step: Step, w: Guid)
    requires w in Apply(s, step).core.writers
    ensures var c, c' := s.core, Apply(s, step).core;
            if w !in c.writers then c'.writers[w].state.history == [] == c'.writers[w].state.log
            else
              || c'.writers[w].state == c.writers[w].state
              || exists payload: Bytes :: Writes(c, c.writers[w].state, payload, c'.writers[w].state)
  {
    hide Publish;
    if step.Receive? {
      if step.p in s.net { FrameWriters(s.core, step.p, step.env); }
    } else if step.Write? {
      WriteWriters(s.core, step.g, step.payload, step.known, step.mtus);
    } else {
      QuietWriters(s.core, step);
    }
  }

  lemma FrameWriters(c: Core, p: Packet, env: Env)
    ensures HandleFrame(c, p.src, p.dst, p.frame, env).0.writers == c.writers
  {
    hide Resends, GapEnd, NackState, SendSample;
  }

  lemma WriteWriters(c: Core, g: Guid, payload: Bytes, known: set<Guid>, mtus: map<Host, nat>)
    ensures var c' := HandleWrite(c, g, payload, known, mtus).0;
            && c'.writers.Keys == c.writers.Keys
            && forall w | w in c.writers ::
                 || c'.writers[w].state == c.writers[w].state
                 || Writes(c, c.writers[w].state, payload, c'.writers[w].state)
  {
    hide Publish, Targets, SendSample;
  }

  lemma QuietWriters(c: Core, step: Step)
    requires !step.Write?
    ensures var c' := Spontaneous(c, step).0;
            && c.writers.Keys <= c'.writers.Keys
            && forall w | w in c'.writers ::
                 if w in c.writers then c'.writers[w] == c.writers[w]
                 else c'.writers[w].state.history == [] == c'.writers[w].state.log
  {
    hide Alive, SendSample, Deliver, Take, SweepQueue;
  }

  lemma {:induction false} RunHolds(steps: seq<Step>, w: Guid)
    requires w in Exec(steps).core.writers
    ensures WriterInv(Exec(steps).core.writers[w].state)
    ensures HeldOk(Exec(steps).core.writers[w].state, NowMs(Exec(steps).core))
  {
    hide Apply, Inv, Grows, WriterInv, HeldOk, Publish;
    if steps != [] {
      var s, step := Exec(steps[..|steps| - 1]), steps[|steps| - 1];
      RunKeeps(steps[..|steps| - 1]);
      StepKeeps(s, step);
      WriterIsOk(Apply(s, step), w);
      ClockGrows(s.core, Apply(s, step).core);
      StepWriter(s, step, w);
      if w in s.core.writers {
        RunHolds(steps[..|steps| - 1], w);
        StepHolds(s.core, Apply(s, step).core, w);
      } else {
        NothingHeld(Apply(s, step).core.writers[w].state, NowMs(Apply(s, step).core));
      }
    }
  }

  lemma WriterIsOk(s: Sys, w: Guid)
    requires Inv(s) && w in s.core.writers
    ensures WriterInv(s.core.writers[w].state)
  {
    hide ReaderOk, TableOk, HandoverOk, PacketOk;
    assert WriterOk(s.core.nowUs, s.core.writers[w]);
  }

  lemma ClockGrows(c: Core, c': Core)
    requires Grows(c, c')
    ensures NowMs(c) <= NowMs(c')
  {
    GrowsClock(c, c');
  }

  lemma StepHolds(c: Core, c': Core, w: Guid)
    requires w in c.writers && w in c'.writers && NowMs(c) <= NowMs(c')
    requires WriterInv(c.writers[w].state) && HeldOk(c.writers[w].state, NowMs(c))
    requires || c'.writers[w].state == c.writers[w].state
             || exists payload: Bytes :: Writes(c, c.writers[w].state, payload, c'.writers[w].state)
    ensures HeldOk(c'.writers[w].state, NowMs(c'))
  {
    hide WriterInv, HeldOk, Publish;
    if c'.writers[w].state != c.writers[w].state {
      var payload: Bytes :| Writes(c, c.writers[w].state, payload, c'.writers[w].state);
      PublishHolds(c.writers[w].state, payload, c.nowUs, NowMs(c));
    }
    HeldLater(c'.writers[w].state, NowMs(c), NowMs(c'));
  }

  lemma NothingHeld(w: WriterState, nowMs: nat)
    requires w.history == [] == w.log
    ensures HeldOk(w, nowMs)
  {
  }

  // ---- what is held ----

  /** A writer that is RELIABLE or TRANSIENT_LOCAL and sets no lifespan holds exactly
      the last max(depth, 1) samples it published, or all of them when it keeps
      all; any other writer holds none. */
  lemma HoldsTheNewest(steps: seq<Step>, w: Guid)
    requires w in Exec(steps).core.writers && Exec(steps).core.writers[w].state.qos.lifespanMs == 0
    ensures var s := Exec(steps).core.writers[w].state;
            var n := if s.qos.depth >= 1 then s.qos.depth else 1;
            && |s.log| == s.sn
            && (if s.qos.reliability != RELIABLE && s.qos.durability != TRANSIENT_LOCAL then s.history == []
                else if s.qos.history == KEEP_ALL then s.history == s.log && s.sn <= 256
                else s.history == if s.sn <= n then s.log else s.log[s.sn - n..])
  {
    hide Exec;
    RunHolds(steps, w);
    var s := Exec(steps).core.writers[w].state;
    if Caches(s.qos) { AllButTheOld(s, NowMs(Exec(steps).core)); }
  }

  lemma AllButTheOld(w: WriterState, nowMs: nat)
    requires WriterInv(w) && HeldOk(w, nowMs) && w.qos.lifespanMs == 0 && Caches(w.qos)
    ensures var n := Max(w.qos.depth, 1);
            if w.qos.history == KEEP_ALL then |w.history| == |w.log| else |w.history| == Min(|w.log|, n)
  {
    var j := |w.log| - |w.history| - 1;
    if j >= 0 { assert OutOfDepth(w, j); }
  }

  /** With a lifespan, a published sample that is within the depth, or any sample of
      a writer that keeps all, is missing only if it is past its lifespan. */
  lemma MissingHasExpired(steps: seq<Step>, w: Guid, j: nat)
    requires w in Exec(steps).core.writers && j < |Exec(steps).core.writers[w].state.log|
    requires var s := Exec(steps).core.writers[w].state;
             && (s.qos.reliability == RELIABLE || s.qos.durability == TRANSIENT_LOCAL)
             && s.log[j] !in s.history
             && (s.qos.history == KEEP_ALL || |s.log| - j <= if s.qos.depth >= 1 then s.qos.depth else 1)
    ensures var c := Exec(steps).core;
            var s := c.writers[w].state;
            && s.qos.lifespanMs > 0 && s.log[j].pubMs > 0
            && c.nowUs / 1000 >= s.log[j].pubMs + s.qos.lifespanMs
  {
    hide Exec;
    RunHolds(steps, w);
    var c := Exec(steps).core;
    HeldInTail(c.writers[w].state, j);
  }

  lemma HeldInTail(w: WriterState, j: nat)
    requires WriterInv(w) && j < |w.log|
    ensures j >= |w.log| - |w.history| ==> w.log[j] in w.history
  {
  }

  /** And right after an accepted write the oldest held sample is not past its
      lifespan. */
  lemma FrontIsFresh(steps: seq<Step>, w: Guid, payload: Bytes, known: set<Guid>, mtus: map<Host, nat>)
    requires var c := Exec(steps).core; w in c.writers && HandleWrite(c, w, payload, known, mtus).0 != c
    ensures var c := Exec(steps).core;
            var c' := HandleWrite(c, w, payload, known, mtus).0;
            w in c'.writers &&
            var s := c'.writers[w].state;
            s.history != [] ==>
              || s.qos.lifespanMs == 0 || s.history[0].pubMs == 0
              || c.nowUs / 1000 < s.history[0].pubMs + s.qos.lifespanMs
  {
    hide Exec, Publish, WriterInv, HeldOk, Targets, SendSample;
    RunHolds(steps, w);
    var c := Exec(steps).core;
    PublishHolds(c.writers[w].state, payload, c.nowUs, NowMs(c));
    SameQos(c.writers[w].state, payload, c.nowUs, NowMs(c));
  }

  lemma SameQos(w: WriterState, payload: Bytes, pubUs: nat, nowMs: nat)
    requires WriterInv(w)
    ensures Publish(w, payload, pubUs, nowMs).0.qos == w.qos
  {
    hide WriterInv, Cache;
  }

  /** A write is rejected if and only if the writer caches, keeps all and holds 256
      samples; a rejected write changes nothing, an accepted one takes the next
      seq. */
  lemma RejectsIff(steps: seq<Step>, w: Guid, payload: Bytes, known: set<Guid>, mtus: map<Host, nat>)
    requires var c := Exec(steps).core; w in c.writers && Writable(c, c.writers[w], payload)
    ensures var c := Exec(steps).core;
            var s := c.writers[w].state;
            var (c', out) := HandleWrite(c, w, payload, known, mtus);
            if (s.qos.reliability == RELIABLE || s.qos.durability == TRANSIENT_LOCAL) &&
               s.qos.history == KEEP_ALL && |s.history| == 256
            then c' == c && out == {}
            else w in c'.writers && c'.writers[w].state.sn == s.sn + 1
  {
    hide Exec, Targets, SendSample;
    RunHolds(steps, w);
    PublishKeeps(Exec(steps).core.writers[w].state, payload, Exec(steps).core.nowUs, NowMs(Exec(steps).core));
  }
}
