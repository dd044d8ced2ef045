/** What stays in a reader's queue, what leaves it and why, and that everything a
    reader keeps is handed out in the end. */
module Queues {
  import opened Base
  import opened Frames
  import opened Guarantees
  import opened Invariants
  import opened Preservation
  import opened Readers
  import opened Sums
  import opened Systems
  import opened Writers
  import F = Fragments
  import W = Window

  // ---- the operations on one reader ----

  /** The reader changes by one operation, at the present time; what is delivered
      carries its writer's lifespan. */
  ghost predicate Moves(c: Core, r: ReaderState, r': ReaderState) {
    || r' == r
    || (exists item: Item :: && item.writer in c.writers
                             && item.lifespanMs == c.writers[item.writer].state.qos.lifespanMs
                             && r' == Deliver(r, item, NowMs(c)).0)
    || (exists w: Guid, end: nat :: r' == Skip(r, w, end))
    || r' == Take(r, NowMs(c)).0
    || r' == SweepQueue(r, NowMs(c))
  }

  lemma SampleMoves(c: Core, src: Host, dst: Host, w: Guid, sn: nat, pubMs: nat, payload: Bytes, discovered: bool,
                    g: Guid)
    requires g in c.readers
    ensures var c' := HandleSample(c, src, dst, w, sn, pubMs, payload, discovered).0;
            g in c'.readers && Moves(c, c.readers[g].state, c'.readers[g].state)
  {
    hide Deliver, Take, Skip, SweepQueue, NackState, Matches;
  }

  lemma GapMoves(c: Core, dst: Host, f: Frame, g: Guid)
    requires g in c.readers && f.Gap?
    ensures var c' := HandleGap(c, dst, f).0;
            g in c'.readers && Moves(c, c.readers[g].state, c'.readers[g].state)
  {
    hide Deliver, Take, Skip, SweepQueue;
  }

  lemma FrameMoves(c: Core, p: Packet, env: Env, g: Guid)
    requires g in c.readers
    ensures var c' := HandleFrame(c, p.src, p.dst, p.frame, env).0;
            g in c'.readers && Moves(c, c.readers[g].state, c'.readers[g].state)
  {
    hide HandleSample, HandleGap, F.AddFragment, F.AllSound, Moves;
    StaysPut(c, c.readers[g].state);
    match p.frame
    case Data(_, w, sn, pubMs, payload) =>
      SampleMoves(c, p.src, p.dst, w, sn, pubMs, payload, env.discovered, g);
    case DataFrag(_, w, sn, pubMs, _, _, _) =>
      if Receivable(c, p.dst, p.frame, env) {
        var (ps, out) := F.AddFragment(PartialsAt(c, p.dst, env.peer), p.frame, env.time);
        var c1 := c.(partials := c.partials[(p.dst, env.peer) := ps]);
        if out.Some? {
          SampleMoves(c1, p.src, p.dst, w, sn, pubMs, out.value, env.discovered, g);
          SameMoves(c, c1, c.readers[g].state, HandleFrame(c, p.src, p.dst, p.frame, env).0.readers[g].state);
        }
      }
    case Gap(_, _, _, _) =>
      GapMoves(c, p.dst, p.frame, g);
    case AckNack(_, _, _, _) =>
    case Heartbeat(_, _, _) =>
  }

  lemma StaysPut(c: Core, r: ReaderState)
    ensures Moves(c, r, r)
  {
  }

  lemma SameMoves(c: Core, c1: Core, r: ReaderState, r': ReaderState)
    requires c1.writers == c.writers && c1.nowUs == c.nowUs && Moves(c1, r, r')
    ensures Moves(c, r, r')
  {
    hide Deliver, Take, Skip, SweepQueue;
  }

  lemma QuietMoves(c: Core, step: Step, g: Guid)
    requires g in c.readers
    ensures var c' := Spontaneous(c, step).0;
            g in c'.readers && Moves(c, c.readers[g].state, c'.readers[g].state)
  {
    hide Deliver, Take, Skip, SweepQueue, Publish, Targets, SendSample, Alive;
  }

  lemma StepMoves(s: Sys, step: Step, g: Guid)
    requires g in s.core.readers
    ensures var c' := Apply(s, step).core;
            g in c'.readers && Moves(s.core, s.core.readers[g].state, c'.readers[g].state)
  {
    hide HandleFrame, Spontaneous, Moves;
    StaysPut(s.core, s.core.readers[g].state);
    if step.Receive? {
      if step.p in s.net { FrameMoves(s.core, step.p, step.env, g); }
    } else {
      QuietMoves(s.core, step, g);
    }
  }

  lemma NewReaderIsFresh(s: Sys, step: Step, g: Guid)
    requires g !in s.core.readers && g in Apply(s, step).core.readers
    ensures exists qos :: Apply(s, step).core.readers[g].state == Fresh(qos)
  {
    hide Deliver, Take, Skip, SweepQueue, Publish, Targets, SendSample, Alive, NackState, F.AddFragment, F.AllSound;
  }

  // ---- where queued items are ----

  /** As many newer items were queued as a KEEP_LAST queue holds. */
  predicate PushedOut(r: ReaderState, j: nat) {
    r.qos.history == KEEP_LAST && |r.queued| - 1 - j >= Depth(r.qos)
  }

  /** Everything ever queued was taken, is queued, was pushed out or has expired. */
  ghost predicate Accounted(r: ReaderState, nowMs: nat) {
    && (forall j | 0 <= j < |r.queued| ::
          || r.queued[j] in r.taken || r.queued[j] in r.queue || PushedOut(r, j)
          || LifespanExpired(r.queued[j].lifespanMs, r.queued[j].pubMs, nowMs))
    && (r.qos.history == KEEP_LAST ==> |r.queue| <= Depth(r.qos))
  }

  predicate Lasting(q: seq<Item>) { forall i | i in q :: i.lifespanMs == 0 }

  /** Without lifespans the queue is the end of what was ever queued; what is before
      it was taken or pushed out. */
  ghost predicate Exact(r: ReaderState) {
    Lasting(r.queued) ==>
      var rest := |r.queued| - |r.queue|;
      && rest >= 0 && r.queue == r.queued[rest..]
      && forall j | 0 <= j < rest :: r.queued[j] in r.taken || PushedOut(r, j)
  }

  ghost predicate QueueInv(r: ReaderState, nowMs: nat) {
    Accounted(r, nowMs) && Exact(r)
  }

  lemma {:induction false} SweptIff(q: seq<Item>, nowMs: nat, x: Item)
    ensures x in Swept(q, nowMs) <==> x in q && !LifespanExpired(x.lifespanMs, x.pubMs, nowMs)
    decreases |q|
  {
    if q != [] {
      SweptIff(q[1..], nowMs, x);
      assert q == [q[0]] + q[1..];
    }
  }

  lemma {:induction false} SweptShrinks(q: seq<Item>, nowMs: nat)
    ensures |Swept(q, nowMs)| <= |q|
    ensures Lasting(q) ==> Swept(q, nowMs) == q
    decreases |q|
  {
    if q != [] {
      SweptShrinks(q[1..], nowMs);
      assert q == [q[0]] + q[1..];
      if Lasting(q) {
        assert forall i | i in q[1..] :: i in q;
        assert q[0] in q;
      }
    }
  }

  /** An element of a subsequence has at least as many behind it in the whole. */
  lemma {:induction false} Position(a: seq<Item>, b: seq<Item>, i: nat) returns (j: nat)
    requires SubSeq(a, b) && i < |a|
    ensures j < |b| && b[j] == a[i] && |b| - j >= |a| - i
    decreases |b|
  {
    var a1, b1 := a[..|a| - 1], b[..|b| - 1];
    if a[|a| - 1] == b[|b| - 1] && SubSeq(a1, b1) {
      if i == |a| - 1 {
        j := |b| - 1;
      } else {
        j := Position(a1, b1, i);
      }
    } else {
      j := Position(a, b1, i);
    }
  }

  // ---- what each operation does to the queue ----

  /** The queue after an item is put in. */
  lemma PushAccounts(r: ReaderState, item: Item, nowMs: nat)
    requires QueueInv(r, nowMs) && SubSeq(r.taken + r.queue, r.queued)
    requires Distinct(r.queued + [item], (i: Item) => (i.writer, i.sn))
    ensures Accounted(Push(r, item, nowMs), nowMs)
  {
    hide Swept, SubSeq, LifespanExpired, Exact;
    var r' := Push(r, item, nowMs);
    var q := r.queue + [item];
    var b := Bounded(r.qos, q);
    SweptShrinks(b, nowMs);
    forall j | 0 <= j < |r'.queued|
      ensures || r'.queued[j] in r'.taken || r'.queued[j] in r'.queue || PushedOut(r', j)
              || LifespanExpired(r'.queued[j].lifespanMs, r'.queued[j].pubMs, nowMs)
    {
      var x := r'.queued[j];
      SweptIff(b, nowMs, x);
      if j < |r.queued| { assert x == r.queued[j]; }
      if x in q && x !in b { FrontIsOld(r, item, x, j); }
    }
  }

  /** What the depth pushes out has that many newer items behind it. */
  lemma FrontIsOld(r: ReaderState, item: Item, x: Item, j: nat)
    requires r.qos.history == KEEP_LAST ==> |r.queue| <= Depth(r.qos)
    requires SubSeq(r.taken + r.queue, r.queued) && Distinct(r.queued + [item], (i: Item) => (i.writer, i.sn))
    requires var q := r.queue + [item]; x in q && x !in Bounded(r.qos, q)
    requires j < |r.queued| + 1 && (r.queued + [item])[j] == x
    ensures r.qos.history == KEEP_LAST && |r.queued| - j >= Depth(r.qos)
  {
    hide SubSeq;
    var q := r.queue + [item];
    assert |q| == Depth(r.qos) + 1 && Bounded(r.qos, q) == q[1..];
    assert q == [q[0]] + q[1..];
    assert x == q[0];
    SubSeqSnoc(r.taken + r.queue, r.queued, item);
    assert r.taken + r.queue + [item] == r.taken + q;
    var k := Position(r.taken + q, r.queued + [item], |r.taken|);
    SameKey(r.queued + [item], j, k);
  }

  lemma SameKey(b: seq<Item>, j: nat, k: nat)
    requires Distinct(b, (i: Item) => (i.writer, i.sn)) && j < |b| && k < |b| && b[j] == b[k]
    ensures j == k
  {
  }

  lemma BoundedTail(qos: Qos, q: seq<Item>)
    ensures var b := Bounded(qos, q);
            && |b| <= |q| && b == q[|q| - |b|..]
            && (|b| < |q| ==> qos.history == KEEP_LAST && |b| == Depth(qos))
  {
  }

  lemma PushExact(r: ReaderState, item: Item, nowMs: nat)
    requires Exact(r)
    ensures Exact(Push(r, item, nowMs))
  {
    hide Swept, Bounded, Lasting, PushedOut, Exact;
    var b := Bounded(r.qos, r.queue + [item]);
    BoundedTail(r.qos, r.queue + [item]);
    var r' := Push(r, item, nowMs);
    if Lasting(r'.queued) {
      LastingPrefix(r.queued, r'.queued);
      QueueIsTail(r);
      TailPlusOne(r.queued, r.queue, item, b);
      LastingTail(r'.queued, b);
      SweptShrinks(b, nowMs);
      PushedBefore(r, item, b, nowMs);
      MakesExact(r', |r'.queued| - |b|);
    } else {
      NotLasting(r');
    }
  }

  lemma QueueIsTail(r: ReaderState)
    requires Exact(r) && Lasting(r.queued)
    ensures |r.queue| <= |r.queued| && r.queue == r.queued[|r.queued| - |r.queue|..]
  {
  }

  lemma MakesExact(r: ReaderState, rest: nat)
    requires rest + |r.queue| == |r.queued| && r.queue == r.queued[rest..]
    requires forall j | 0 <= j < rest :: r.queued[j] in r.taken || PushedOut(r, j)
    ensures Exact(r)
  {
    hide Lasting, PushedOut;
  }

  lemma NotLasting(r: ReaderState)
    requires !Lasting(r.queued)
    ensures Exact(r)
  {
    hide Lasting;
  }

  lemma PushedBefore(r: ReaderState, item: Item, b: seq<Item>, nowMs: nat)
    requires Lasting(r.queued) && Exact(r) && |b| <= |r.queue| + 1
    requires |b| < |r.queue| + 1 ==> r.qos.history == KEEP_LAST && |b| == Depth(r.qos)
    ensures forall j | 0 <= j < |r.queued| + 1 - |b| ::
              (r.queued + [item])[j] in r.taken || PushedOut(Push(r, item, nowMs), j)
  {
    hide Swept, Bounded, Lasting;
    forall j | 0 <= j < |r.queued| + 1 - |b|
      ensures (r.queued + [item])[j] in r.taken || PushedOut(Push(r, item, nowMs), j)
    {
      if j < |r.queued| - |r.queue| { assert (r.queued + [item])[j] == r.queued[j]; }
    }
  }

  lemma TailPlusOne(all: seq<Item>, q: seq<Item>, item: Item, b: seq<Item>)
    requires |q| <= |all| && q == all[|all| - |q|..]
    requires |b| <= |q| + 1 && b == (q + [item])[|q| + 1 - |b|..]
    ensures b == (all + [item])[|all| + 1 - |b|..]
  {
    assert q + [item] == (all + [item])[|all| - |q|..];
  }

  lemma LastingTail(all: seq<Item>, b: seq<Item>)
    requires Lasting(all) && |b| <= |all| && b == all[|all| - |b|..]
    ensures Lasting(b)
  {
    forall i | i in b
      ensures i in all
    {
    }
  }

  lemma LastingPrefix(q: seq<Item>, q': seq<Item>)
    requires q <= q' && Lasting(q')
    ensures Lasting(q)
  {
    forall i | i in q
      ensures i in q'
    {
    }
  }

  lemma DeliverQueue(r: ReaderState, item: Item, nowMs: nat)
    requires ReaderInv(r) && QueueInv(r, nowMs)
    ensures QueueInv(Deliver(r, item, nowMs).0, nowMs)
  {
    hide W.OnData, W.Enqueue, W.TrackInv, Swept, SubSeq;
    DeliverKeeps(r, item, nowMs);
    var r1 := Received(r, item.writer, item.sn);
    SameQueue(r, r1, nowMs);
    var (r', queued, _) := Deliver(r, item, nowMs);
    if queued {
      DistinctOf(r');
      PushAccounts(r1, item, nowMs);
      PushExact(r1, item, nowMs);
    }
  }

  lemma DistinctOf(r: ReaderState)
    requires ReaderInv(r)
    ensures Distinct(r.queued, (i: Item) => (i.writer, i.sn)) && SubSeq(r.taken + r.queue, r.queued)
  {
  }

  lemma SameQueue(r: ReaderState, r': ReaderState, nowMs: nat)
    requires r'.queue == r.queue && r'.queued == r.queued && r'.taken == r.taken && r'.qos == r.qos
    requires QueueInv(r, nowMs)
    ensures QueueInv(r', nowMs)
  {
  }

  lemma SweepKeepsQueue(r: ReaderState, nowMs: nat)
    requires QueueInv(r, nowMs)
    ensures QueueInv(SweepQueue(r, nowMs), nowMs)
  {
    hide Swept;
    var r' := SweepQueue(r, nowMs);
    SweptShrinks(r.queue, nowMs);
    forall x: Item
      ensures x in r'.queue <==> x in r.queue && !LifespanExpired(x.lifespanMs, x.pubMs, nowMs)
    {
      SweptIff(r.queue, nowMs, x);
    }
    if Lasting(r.queued) { LastingQueue(r); }
  }

  lemma LastingQueue(r: ReaderState)
    requires Exact(r) && Lasting(r.queued)
    ensures Lasting(r.queue)
  {
    forall i | i in r.queue
      ensures i in r.queued
    {
    }
  }

  lemma TakeQueue(r: ReaderState, nowMs: nat)
    requires QueueInv(r, nowMs)
    ensures QueueInv(Take(r, nowMs).0, nowMs)
  {
    hide Swept, LifespanExpired;
    SweepKeepsQueue(r, nowMs);
    PopKeepsQueue(SweepQueue(r, nowMs), nowMs);
  }

  lemma PopKeepsQueue(r: ReaderState, nowMs: nat)
    requires QueueInv(r, nowMs)
    ensures r.queue != [] ==> QueueInv(r.(queue := r.queue[1..], taken := r.taken + [r.queue[0]]), nowMs)
  {
    hide LifespanExpired;
    if r.queue != [] {
      assert r.queue == [r.queue[0]] + r.queue[1..];
    }
  }

  lemma LaterQueue(r: ReaderState, nowMs: nat, later: nat)
    requires QueueInv(r, nowMs) && nowMs <= later
    ensures QueueInv(r, later)
  {
    hide Exact;
  }

  lemma MovesKeep(c: Core, r: ReaderState, r': ReaderState)
    requires ReaderInv(r) && QueueInv(r, NowMs(c)) && Moves(c, r, r')
    ensures QueueInv(r', NowMs(c)) && r'.qos == r.qos && r.queued <= r'.queued && r.taken <= r'.taken
  {
    hide ReaderInv, QueueInv, Deliver, Skip, Take, SweepQueue;
    if item: Item :| r' == Deliver(r, item, NowMs(c)).0 {
      DeliverQueue(r, item, NowMs(c));
      DeliverHistory(r, item, NowMs(c));
    } else if w: Guid, end: nat :| r' == Skip(r, w, end) {
      SkipQueue(r, w, end);
      SameQueue(r, r', NowMs(c));
    } else if r' != r {
      TakeQueue(r, NowMs(c));
      SweepKeepsQueue(r, NowMs(c));
      TakeHistory(r, NowMs(c));
    }
  }

  lemma DeliverHistory(r: ReaderState, item: Item, nowMs: nat)
    ensures var r' := Deliver(r, item, nowMs).0;
            r'.qos == r.qos && r.queued <= r'.queued && r'.taken == r.taken
  {
    hide W.OnData, W.Enqueue, Swept;
  }

  lemma SkipQueue(r: ReaderState, w: Guid, end: nat)
    ensures var r' := Skip(r, w, end);
            r'.queue == r.queue && r'.queued == r.queued && r'.taken == r.taken && r'.qos == r.qos
  {
    hide W.OnGap, W.SkipTo;
  }

  lemma TakeHistory(r: ReaderState, nowMs: nat)
    ensures var r' := Take(r, nowMs).0; r'.qos == r.qos && r'.queued == r.queued && r.taken <= r'.taken
    ensures var r' := SweepQueue(r, nowMs); r'.qos == r.qos && r'.queued == r.queued && r'.taken == r.taken
  {
    hide Swept;
  }

  // ---- runs ----

  lemma {:induction false} RunQueues(steps: seq<Step>, g: Guid)
    requires g in Exec(steps).core.readers
    ensures ReaderInv(Exec(steps).core.readers[g].state)
    ensures QueueInv(Exec(steps).core.readers[g].state, NowMs(Exec(steps).core))
  {
    hide Apply, Inv, CoreInv, Grows, ReaderInv, QueueInv, Moves;
    if steps != [] {
      var pre, step := steps[..|steps| - 1], steps[|steps| - 1];
      var s := Exec(pre);
      RunKeeps(pre);
      StepKeeps(s, step);
      ReaderOfInv(Apply(s, step), g);
      ClockMoves(s.core, Apply(s, step).core);
      if g in s.core.readers {
        RunQueues(pre, g);
        StepMoves(s, step, g);
        MovesKeep(s.core, s.core.readers[g].state, Apply(s, step).core.readers[g].state);
        LaterQueue(Apply(s, step).core.readers[g].state, NowMs(s.core), NowMs(Apply(s, step).core));
      } else {
        NewReaderIsFresh(s, step, g);
        FreshQueue(Apply(s, step).core.readers[g].state, NowMs(Apply(s, step).core));
      }
    }
  }

  lemma ReaderOfInv(s: Sys, g: Guid)
    requires Inv(s) && g in s.core.readers
    ensures ReaderInv(s.core.readers[g].state)
  {
    hide CoreInv, NetOk, ReaderInv;
    ReaderInvOf(s.core, g);
  }

  lemma ClockMoves(c: Core, c': Core)
    requires Grows(c, c')
    ensures NowMs(c) <= NowMs(c')
  {
    GrowsClock(c, c');
  }

  lemma FreshQueue(r: ReaderState, nowMs: nat)
    requires exists qos :: r == Fresh(qos)
    ensures QueueInv(r, nowMs)
  {
  }

  // ---- what is kept ----

  /** A reader that keeps all and was only given items without a lifespan holds
      everything it was ever given and has not handed out, in order. */
  lemma KeepAllHoldsAll(steps: seq<Step>, g: Guid)
    requires g in Exec(steps).core.readers
    requires var r := Exec(steps).core.readers[g].state;
             r.qos.history != KEEP_LAST && forall i | i in r.queued :: i.lifespanMs == 0
    ensures var r := Exec(steps).core.readers[g].state; r.taken + r.queue == r.queued
  {
    hide Exec;
    RunQueues(steps, g);
    AllInOrder(Exec(steps).core.readers[g].state);
  }

  lemma AllInOrder(r: ReaderState)
    requires ReaderInv(r) && Exact(r) && Lasting(r.queued) && r.qos.history != KEEP_LAST
    ensures r.taken + r.queue == r.queued
  {
    hide ReaderInv;
    DistinctOf(r);
    forall x | x in r.queued
      ensures x in r.taken + r.queue
    {
      var j :| 0 <= j < |r.queued| && r.queued[j] == x;
      var rest := |r.queued| - |r.queue|;
      if j >= rest { assert x == r.queue[j - rest]; }
    }
    WholeSubSeq(r.taken + r.queue, r.queued);
  }

  lemma LastIsNew(b: seq<Item>)
    requires b != [] && Distinct(b, (i: Item) => (i.writer, i.sn))
    ensures b[|b| - 1] in b && b[|b| - 1] !in b[..|b| - 1] && b == b[..|b| - 1] + [b[|b| - 1]]
  {
  }

  /** A subsequence that misses nothing is the whole. */
  lemma {:induction false} WholeSubSeq(a: seq<Item>, b: seq<Item>)
    requires SubSeq(a, b) && Distinct(b, (i: Item) => (i.writer, i.sn)) && forall x | x in b :: x in a
    ensures a == b
    decreases |b|
  {
    if b != [] {
      var n := |b| - 1;
      var b1 := b[..n];
      LastIsNew(b);
      assert a != [] by { assert b[n] in a; }
      if a[|a| - 1] == b[n] && SubSeq(a[..|a| - 1], b1) {
        var a1 := a[..|a| - 1];
        assert a == a1 + [b[n]];
        forall x | x in b1
          ensures x in a1
        {
          assert x in b && x in a;
          var k :| 0 <= k < n && b1[k] == x;
          assert b[k] == x;
        }
        WholeSubSeq(a1, b1);
      } else {
        SubSeqElements(a, b1);
      }
    }
  }

  /** A KEEP_LAST reader only given items without a lifespan holds exactly those of
      the newest max(depth, 1) items that it has not handed out, in order. */
  lemma KeepLastHoldsNewest(steps: seq<Step>, g: Guid)
    requires g in Exec(steps).core.readers
    requires var r := Exec(steps).core.readers[g].state;
             r.qos.history == KEEP_LAST && forall i | i in r.queued :: i.lifespanMs == 0
    ensures var r := Exec(steps).core.readers[g].state;
            var depth := if r.qos.depth >= 1 then r.qos.depth else 1;
            var n, rest := |r.queued|, |r.queued| - |r.queue|;
            && rest >= 0 && r.queue == r.queued[rest..]
            && forall j | 0 <= j < n :: j >= rest <==> n - j <= depth && r.queued[j] !in r.taken
  {
    hide Exec, SubSeq, LifespanExpired;
    RunQueues(steps, g);
    var r := Exec(steps).core.readers[g].state;
    DeliveredOnce(r);
    forall j | |r.queued| - |r.queue| <= j < |r.queued|
      ensures r.queued[j] !in r.taken
    {
      NotTaken(r.taken, r.queue, j - (|r.queued| - |r.queue|));
    }
  }

  lemma NotTaken(taken: seq<Item>, queue: seq<Item>, k: nat)
    requires Distinct(taken + queue, (i: Item) => (i.writer, i.sn)) && k < |queue|
    ensures queue[k] !in taken
  {
    assert (taken + queue)[|taken| + k] == queue[k];
    forall i | 0 <= i < |taken|
      ensures taken[i] != queue[k]
    {
      assert (taken + queue)[i] == taken[i];
    }
  }

  /** With lifespans: an item that was queued and is neither handed out nor still
      queued was pushed out by max(depth, 1) newer ones, or is past its lifespan. */
  lemma LeavesOnlyFor(steps: seq<Step>, g: Guid, j: nat)
    requires g in Exec(steps).core.readers && j < |Exec(steps).core.readers[g].state.queued|
    requires var r := Exec(steps).core.readers[g].state; r.queued[j] !in r.taken && r.queued[j] !in r.queue
    ensures var c := Exec(steps).core;
            var r := c.readers[g].state;
            var i := r.queued[j];
            || (r.qos.history == KEEP_LAST && |r.queued| - 1 - j >= if r.qos.depth >= 1 then r.qos.depth else 1)
            || (i.lifespanMs > 0 && i.pubMs > 0 && c.nowUs / 1000 >= i.pubMs + i.lifespanMs)
  {
    hide Exec;
    RunQueues(steps, g);
  }

  predicate PastLifespan(i: Item, nowMs: nat) {
    i.lifespanMs > 0 && i.pubMs > 0 && nowMs >= i.pubMs + i.lifespanMs
  }

  /** A take hands out the first queued item that is not past its lifespan, if there
      is one, and leaves exactly such items behind it; no sweep, take or delivery
      leaves one past its lifespan in the queue. */
  lemma TakeGives(r: ReaderState, nowMs: nat)
    ensures var (r', item) := Take(r, nowMs);
            && (item.None? <==> forall i | i in r.queue :: PastLifespan(i, nowMs))
            && (item.None? ==> r'.queue == [] && r'.taken == r.taken)
            && (item.Some? ==>
                  && r'.taken == r.taken + [item.value]
                  && exists k :: IsFirstLive(r.queue, nowMs, k, item.value, r'.queue))
  {
    var first := FirstLive(r.queue, nowMs);
    forall x: Item
      ensures x in Swept(r.queue, nowMs) <==> x in r.queue && !PastLifespan(x, nowMs)
    {
      SweptIff(r.queue, nowMs, x);
    }
    if Swept(r.queue, nowMs) == [] {
      assert forall i | i in r.queue :: i in Swept(r.queue, nowMs) <==> !PastLifespan(i, nowMs);
    }
  }

  /** q[k] is x, the first that is not past its lifespan, and `rest` is what else
      is not, in order. */
  ghost predicate IsFirstLive(q: seq<Item>, nowMs: nat, k: int, x: Item, rest: seq<Item>) {
    && 0 <= k < |q| && q[k] == x && !PastLifespan(x, nowMs)
    && (forall j | 0 <= j < k :: PastLifespan(q[j], nowMs))
    && SubSeq(rest, q[k + 1..])
    && forall y | y in q[k + 1..] :: y in rest <==> !PastLifespan(y, nowMs)
  }

  lemma {:induction false} FirstLive(q: seq<Item>, nowMs: nat) returns (k: int)
    ensures var s := Swept(q, nowMs); s != [] ==> IsFirstLive(q, nowMs, k, s[0], s[1..])
    decreases |q|
  {
    k := 0;
    var s := Swept(q, nowMs);
    if s != [] {
      if PastLifespan(q[0], nowMs) {
        k := FirstLive(q[1..], nowMs);
        assert s == Swept(q[1..], nowMs);
        OneLater(q, nowMs, k, s[0], s[1..]);
        k := k + 1;
      } else {
        assert s[1..] == Swept(q[1..], nowMs);
        SweptIsSubSeq(q[1..], nowMs, []);
        assert [] + Swept(q[1..], nowMs) == Swept(q[1..], nowMs) && [] + q[1..] == q[1..];
        forall y | y in q[1..]
          ensures y in s[1..] <==> !PastLifespan(y, nowMs)
        {
          SweptIff(q[1..], nowMs, y);
        }
      }
    }
  }

  lemma OneLater(q: seq<Item>, nowMs: nat, k: int, x: Item, rest: seq<Item>)
    requires q != [] && PastLifespan(q[0], nowMs) && IsFirstLive(q[1..], nowMs, k, x, rest)
    ensures IsFirstLive(q, nowMs, k + 1, x, rest)
  {
    hide SubSeq, PastLifespan;
    assert q[1..][k + 1..] == q[k + 2..];
    assert forall j | 1 <= j < k + 1 :: q[j] == q[1..][j - 1];
  }

  lemma SweptQueue(r: ReaderState, item: Item, nowMs: nat)
    ensures forall i | i in SweepQueue(r, nowMs).queue :: !PastLifespan(i, nowMs)
    ensures forall i | i in r.queue :: !PastLifespan(i, nowMs) ==> i in SweepQueue(r, nowMs).queue
    ensures Deliver(r, item, nowMs).1 ==> forall i | i in Deliver(r, item, nowMs).0.queue :: !PastLifespan(i, nowMs)
  {
    hide W.OnData, W.Enqueue;
    forall x: Item
      ensures x in Swept(r.queue, nowMs) <==> x in r.queue && !PastLifespan(x, nowMs)
      ensures x in Swept(Bounded(r.qos, r.queue + [item]), nowMs) ==> !PastLifespan(x, nowMs)
    {
      SweptIff(r.queue, nowMs, x);
      SweptIff(Bounded(r.qos, r.queue + [item]), nowMs, x);
    }
  }

  /** The sweep of a reader leaves exactly the items not past their lifespan. */
  lemma SweepStep(c: Core, g: Guid)
    requires g in c.readers
    ensures var c' := Spontaneous(c, SweepReader(g)).0;
            && g in c'.readers
            && forall i :: i in c'.readers[g].state.queue <==>
                 i in c.readers[g].state.queue && !PastLifespan(i, c.nowUs / 1000)
  {
    hide Swept;
    forall i: Item
      ensures i in Swept(c.readers[g].state.queue, NowMs(c)) <==>
              i in c.readers[g].state.queue && !PastLifespan(i, c.nowUs / 1000)
    {
      SweptIff(c.readers[g].state.queue, NowMs(c), i);
    }
  }

  // ---- what is accepted is handed out ----

  /** Of a writer without lifespan everything accepted was queued. */
  ghost predicate AllQueued(c: Core, r: ReaderState) {
    forall w, sn | w in c.writers && c.writers[w].state.qos.lifespanMs == 0 && sn in TrackOf(r, w).got ::
      IsQueued(r, w, sn)
  }

  ghost predicate IsQueued(r: ReaderState, w: Guid, sn: nat) {
    exists i :: i in r.queued && i.writer == w && i.sn == sn
  }

  lemma MovesQueue(c: Core, c': Core, r: ReaderState, r': ReaderState)
    requires ReaderInv(r) && AllQueued(c, r) && Moves(c, r, r') && Grows(c, c')
    requires forall w | w in r'.tracks && TrackOf(r', w).got != {} :: w in c.writers
    ensures AllQueued(c', r')
  {
    hide ReaderInv, Deliver, Skip, Take, SweepQueue, W.OnData, W.OnGap, W.TrackInv, ReaderGrows;
    if item: Item :| item.writer in c.writers && item.lifespanMs == c.writers[item.writer].state.qos.lifespanMs
                     && r' == Deliver(r, item, NowMs(c)).0 {
      DeliverAllQueued(c, r, item);
      LaterAllQueued(c, c', r');
    } else if w: Guid, end: nat :| r' == Skip(r, w, end) {
      SkipQueue(r, w, end);
      GotSkips(r, w, end);
      SameAllQueued(c, r, r');
      LaterAllQueued(c, c', r');
    } else {
      TakeKeeps(r, NowMs(c));
      SameTracks(r, NowMs(c));
      SameAllQueued(c, r, r');
      LaterAllQueued(c, c', r');
    }
  }

  lemma SameAllQueued(c: Core, r: ReaderState, r': ReaderState)
    requires AllQueued(c, r) && r'.queued == r.queued
    requires forall w :: TrackOf(r', w).got == TrackOf(r, w).got
    ensures AllQueued(c, r')
  {
    hide TrackOf;
    forall w, sn | w in c.writers && c.writers[w].state.qos.lifespanMs == 0 && sn in TrackOf(r', w).got
      ensures IsQueued(r', w, sn)
    {
      assert IsQueued(r, w, sn);
    }
  }

  lemma SameTracks(r: ReaderState, nowMs: nat)
    ensures SweepQueue(r, nowMs).tracks == r.tracks && SweepQueue(r, nowMs).queued == r.queued
  {
    hide Swept;
  }

  lemma GotSkips(r: ReaderState, w: Guid, end: nat)
    requires ReaderInv(r)
    ensures forall v :: TrackOf(Skip(r, w, end), v).got == TrackOf(r, v).got
  {
    hide ReaderInv, Skip, W.OnGap, W.TrackInv;
    SkipKeeps(r, w, end);
    TracksInv(r, w);
    W.GapKeeps(TrackOf(r, w), end);
  }

  lemma DeliverAllQueued(c: Core, r: ReaderState, item: Item)
    requires ReaderInv(r) && AllQueued(c, r) && item.writer in c.writers
    requires item.lifespanMs == c.writers[item.writer].state.qos.lifespanMs
    ensures AllQueued(c, Deliver(r, item, NowMs(c)).0)
  {
    hide ReaderInv, Deliver, W.OnData, W.TrackInv;
    var r' := Deliver(r, item, NowMs(c)).0;
    DeliverKeeps(r, item, NowMs(c));
    TracksInv(r, item.writer);
    W.DataKeeps(TrackOf(r, item.writer), item.sn);
    forall w, sn | w in c.writers && c.writers[w].state.qos.lifespanMs == 0 && sn in TrackOf(r', w).got
      ensures IsQueued(r', w, sn)
    {
      if sn in TrackOf(r, w).got {
        assert IsQueued(r, w, sn);
      } else {
        assert item in r'.queued;
      }
    }
  }

  /** A writer made later has sent nothing yet. */
  lemma LaterAllQueued(c: Core, c': Core, r: ReaderState)
    requires AllQueued(c, r) && Grows(c, c')
    requires forall w | w in r.tracks && TrackOf(r, w).got != {} :: w in c.writers
    ensures AllQueued(c', r)
  {
    hide ReaderGrows, IsQueued;
    forall w, sn | w in c'.writers && c'.writers[w].state.qos.lifespanMs == 0 && sn in TrackOf(r, w).got
      ensures IsQueued(r, w, sn)
    {
      assert w in r.tracks && TrackOf(r, w).got != {};
      assert WriterGrows(c.writers[w], c'.writers[w]);
    }
  }

  lemma {:induction false} AcceptedIsQueued(steps: seq<Step>, g: Guid)
    requires g in Exec(steps).core.readers
    ensures AllQueued(Exec(steps).core, Exec(steps).core.readers[g].state)
  {
    hide Apply, Inv, CoreInv, Grows, ReaderInv, AllQueued, Moves;
    if steps != [] {
      var pre, step := steps[..|steps| - 1], steps[|steps| - 1];
      var s := Exec(pre);
      RunKeeps(pre);
      StepKeeps(s, step);
      if g in s.core.readers {
        AcceptedIsQueued(pre, g);
        StepMoves(s, step, g);
        ReaderOfInv(s, g);
        HeardOfBefore(s, step, g);
        MovesQueue(s.core, Apply(s, step).core, s.core.readers[g].state, Apply(s, step).core.readers[g].state);
      } else {
        NewReaderIsFresh(s, step, g);
        FreshAllQueued(Apply(s, step).core, Apply(s, step).core.readers[g].state);
      }
    }
  }

  lemma FreshAllQueued(c: Core, r: ReaderState)
    requires exists qos :: r == Fresh(qos)
    ensures AllQueued(c, r)
  {
  }

  /** What a reader accepted after the step, a writer known before it had sent. */
  lemma HeardOfBefore(s: Sys, step: Step, g: Guid)
    requires Inv(s) && g in s.core.readers && g in Apply(s, step).core.readers
    requires Moves(s.core, s.core.readers[g].state, Apply(s, step).core.readers[g].state)
    ensures var r := Apply(s, step).core.readers[g].state;
            forall w | w in r.tracks && TrackOf(r, w).got != {} :: w in s.core.writers
  {
    hide Apply, CoreInv, NetOk, Deliver, Skip, Take, SweepQueue, ReaderInv, W.OnData, W.OnGap, W.TrackInv, Justified,
      NeverDue;
    var c, r, r' := s.core, s.core.readers[g].state, Apply(s, step).core.readers[g].state;
    ReaderIsOk(c, g);
    forall w | w in r.tracks
      ensures w in c.writers
    {
      assert PairOk(c, c.readers[g], w, r.tracks[w]);
    }
    if item: Item :| item.writer in c.writers && r' == Deliver(r, item, NowMs(c)).0 {
      DeliverKeeps(r, item, NowMs(c));
    } else if w: Guid, end: nat :| r' == Skip(r, w, end) {
      GotSkips(r, w, end);
    } else {
      TakeKeeps(r, NowMs(c));
      SameTracks(r, NowMs(c));
    }
  }

  // ---- and handed out ----

  function TakesIn(steps: seq<Step>, g: Guid): nat {
    if steps == [] then 0
    else TakesIn(steps[..|steps| - 1], g) + if steps[|steps| - 1] == TakeOne(g) then 1 else 0
  }

  /** Each take of a reader that keeps all, without lifespans, hands out one more of
      its items in the order they were queued, whatever happens in between. */
  lemma {:induction false} TakesHandOut(steps: seq<Step>, more: seq<Step>, g: Guid)
    requires g in Exec(steps).core.readers && g in Exec(steps + more).core.readers
    requires var r := Exec(steps + more).core.readers[g].state; r.qos.history != KEEP_LAST && Lasting(r.queued)
    ensures var r, r' := Exec(steps).core.readers[g].state, Exec(steps + more).core.readers[g].state;
            && r.queued <= r'.queued && r.qos == r'.qos
            && r'.taken <= r'.queued
            && |r'.taken| >= Min(|r.queued|, |r.taken| + TakesIn(more, g))
    decreases |more|
  {
    hide Apply, QueueInv, ReaderInv, Moves, Lasting;
    InOrder(steps + more, g);
    if more == [] {
      assert steps + more == steps;
    } else {
      var pre, step := more[..|more| - 1], more[|more| - 1];
      assert (steps + more)[..|steps + more| - 1] == steps + pre;
      var s := Exec(steps + pre);
      StillThere(steps, pre, g);
      StepMoves(s, step, g);
      RunQueues(steps + pre, g);
      MovesKeep(s.core, s.core.readers[g].state, Apply(s, step).core.readers[g].state);
      LastingPrefix(s.core.readers[g].state.queued, Apply(s, step).core.readers[g].state.queued);
      TakesHandOut(steps, pre, g);
      if step == TakeOne(g) { OneMoreOut(steps + pre, g); }
    }
  }

  lemma InOrder(steps: seq<Step>, g: Guid)
    requires g in Exec(steps).core.readers
    requires var r := Exec(steps).core.readers[g].state; r.qos.history != KEEP_LAST && Lasting(r.queued)
    ensures var r := Exec(steps).core.readers[g].state;
            r.taken <= r.queued && r.taken + r.queue == r.queued
  {
    hide Exec;
    KeepAllHoldsAll(steps, g);
  }

  lemma StillThere(steps: seq<Step>, more: seq<Step>, g: Guid)
    requires g in Exec(steps).core.readers
    ensures g in Exec(steps + more).core.readers
  {
    hide Exec, ReaderGrows;
    RunGrows(steps, more);
  }

  lemma OneMoreOut(steps: seq<Step>, g: Guid)
    requires g in Exec(steps).core.readers
    requires var r := Exec(steps).core.readers[g].state; r.qos.history != KEEP_LAST && Lasting(r.queued)
    ensures var r := Exec(steps).core.readers[g].state;
            var c' := Apply(Exec(steps), TakeOne(g)).core;
            g in c'.readers && |c'.readers[g].state.taken| >= Min(|r.queued|, |r.taken| + 1)
  {
    hide Exec, Swept;
    InOrder(steps, g);
    var r := Exec(steps).core.readers[g].state;
    forall i | i in r.queue
      ensures i.lifespanMs == 0
    {
      assert i in r.taken + r.queue;
    }
    SweptShrinks(r.queue, NowMs(Exec(steps).core));
  }

  /** End to end up to the application: a sample accepted by a reader that keeps all,
      from a writer without lifespan, has been handed out with the payload that was
      published once the reader has been asked as often as its queue was long,
      whatever happens in between. (Items with a lifespan may leave sooner: see
      LeavesOnlyFor.) */
  lemma AcceptedIsHandedOut(steps: seq<Step>, more: seq<Step>, g: Guid, w: Guid, sn: nat)
    requires var c := Exec(steps).core;
             && g in c.readers && w in c.writers && c.writers[w].state.qos.lifespanMs == 0
             && sn in TrackOf(c.readers[g].state, w).got
             && TakesIn(more, g) >= |c.readers[g].state.queue|
    requires g in Exec(steps + more).core.readers
    requires var r := Exec(steps + more).core.readers[g].state;
             r.qos.history != KEEP_LAST && forall i | i in r.queued :: i.lifespanMs == 0
    ensures var c' := Exec(steps + more).core;
            && Published(c', w, sn)
            && exists i :: && i in c'.readers[g].state.taken && i.writer == w && i.sn == sn
                           && i.payload == SampleAt(c', w, sn).payload
  {
    hide Exec, Published, SampleAt, CoreInv, TrackOf, AllQueued;
    var c, c' := Exec(steps).core, Exec(steps + more).core;
    var r, r' := c.readers[g].state, c'.readers[g].state;
    AcceptedIsQueued(steps, g);
    TakesHandOut(steps, more, g);
    LastingPrefix(r.queued, r'.queued);
    InOrder(steps, g);
    var i := TheItem(c, r, w, sn);
    var j :| 0 <= j < |r.queued| && r.queued[j] == i;
    assert |r.queued| == |r.taken| + |r.queue|;
    assert r'.taken[j] == i;
    RunKeeps(steps + more);
    ReaderIsOk(c', g);
    assert r'.queued[j] == i;
    GenuineItem(c', c'.readers[g], i);
  }

  lemma TheItem(c: Core, r: ReaderState, w: Guid, sn: nat) returns (i: Item)
    requires AllQueued(c, r) && w in c.writers && c.writers[w].state.qos.lifespanMs == 0 && sn in TrackOf(r, w).got
    ensures i in r.queued && i.writer == w && i.sn == sn
  {
    assert IsQueued(r, w, sn);
    i :| i in r.queued && i.writer == w && i.sn == sn;
  }

  lemma GenuineItem(c: Core, r: ReaderNode, i: Item)
    requires ReaderOk(c, r) && i in r.state.queued
    ensures Published(c, i.writer, i.sn) && SampleAt(c, i.writer, i.sn).payload == i.payload
  {
    assert Genuine(c, i);
  }
}
