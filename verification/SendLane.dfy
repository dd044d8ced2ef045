/** Send lanes: per-peer bounded queues, each drained by one worker, that share
    one byte budget. A push checks the budget and commits in two steps, and
    between them other lanes may do anything, because each lane has its own
    mutex. */
module SendLanes {
  import opened Base
  import opened Sums

  /** Who is inside the lane's mutex between two steps. */
  datatype Held = Free | Pushing(frame: Bytes) | Discarding

  /** A lane with everything it ever accepted, handed to the sink or threw away.
      `cut` says that the worker found a stop without draining and began to throw
      its queue away. */
  datatype Lane = Lane(
    limit: nat, queue: seq<Bytes>, bytes: int, stopping: bool, drain: bool, dropped: nat, failed: nat,
    held: Held, inFlight: Option<Bytes>, exited: bool, cut: bool,
    accepted: seq<Bytes>, sunk: seq<Bytes>, discarded: seq<Bytes>)

  function NewLane(limit: nat): Lane {
    Lane(limit, [], 0, false, false, 0, 0, Free, None, false, false, [], [], [])
  }

  // ---- the steps of one lane ----

  /** First half of `push`: reject the frame, or go on with it. */
  function Check(l: Lane, used: int, budget: nat, frame: Bytes): Lane {
    if l.held != Free then l
    else if l.stopping || l.bytes + |frame| > l.limit || used + |frame| > budget then l.(dropped := l.dropped + 1)
    else l.(held := Pushing(frame))
  }

  /** Second half of `push`. */
  function Commit(l: Lane): Lane {
    match l.held
    case Pushing(frame) =>
      l.(queue := l.queue + [frame], bytes := l.bytes + |frame|, held := Free, accepted := l.accepted + [frame])
    case _ => l
  }

  function Stop(l: Lane, drain: bool): Lane {
    if l.held != Free then l
    else l.(stopping := true, drain := drain)
  }

  /** The worker's next step: hand the frame it holds to the sink, throw away one
      frame, pop one, or exit. It waits while the mutex is taken, and while
      there is neither a frame nor a stop. */
  function Work(l: Lane, ok: bool): Lane {
    if l.exited then l
    else if l.inFlight.Some? then
      l.(inFlight := None, sunk := l.sunk + [l.inFlight.value], failed := l.failed + if ok then 0 else 1)
    else
      match l.held
      case Pushing(_) => l
      case Discarding =>
        if l.queue == [] then l.(held := Free, exited := true)
        else l.(queue := l.queue[1..], bytes := l.bytes - |l.queue[0]|, discarded := l.discarded + [l.queue[0]])
      case Free =>
        if l.queue == [] then (if l.stopping then l.(exited := true) else l)
        else if l.stopping && !l.drain then l.(held := Discarding, cut := true)
        else l.(queue := l.queue[1..], bytes := l.bytes - |l.queue[0]|, inFlight := Some(l.queue[0]))
  }

  /** What that step gives back to the shared budget. */
  function Released(l: Lane): nat {
    if !l.exited && l.inFlight.None? && l.queue != [] &&
       (l.held == Discarding || (l.held == Free && !(l.stopping && !l.drain)))
    then |l.queue[0]| else 0
  }

  // ---- all lanes of a transport ----

  /** `peak` is the largest number of lanes that ever existed at once, `longest`
      the longest frame that ever passed a check. */
  datatype World = World(budget: nat, used: int, lanes: map<nat, Lane>, peak: nat, longest: nat)

  datatype Step =
    | AddLane(id: nat, limit: nat)
    | RemoveLane(id: nat)
    | CheckPush(id: nat, frame: Bytes)
    | CommitPush(id: nat)
    | StopLane(id: nat, drain: bool)
    | WorkOn(id: nat, ok: bool)

  function Put(w: World, id: nat, l: Lane): World {
    w.(lanes := w.lanes[id := l])
  }

  function Apply(w: World, step: Step): World {
    if step.AddLane? then
      if step.id in w.lanes then w
      else w.(lanes := w.lanes[step.id := NewLane(step.limit)], peak := Max(w.peak, |w.lanes| + 1))
    else if step.id !in w.lanes then w
    else
      var l := w.lanes[step.id];
      match step
      case RemoveLane(id) => if l.exited then w.(lanes := w.lanes - {id}) else w
      case CheckPush(id, frame) =>
        var l' := Check(l, w.used, w.budget, frame);
        Put(w, id, l').(longest := if l'.held.Pushing? then Max(w.longest, |l'.held.frame|) else w.longest)
      case CommitPush(id) =>
        Put(w, id, Commit(l)).(used := w.used + if l.held.Pushing? then |l.held.frame| else 0)
      case StopLane(id, drain) => Put(w, id, Stop(l, drain))
      case WorkOn(id, ok) => Put(w, id, Work(l, ok)).(used := w.used - Released(l))
  }

  function Exec(budget: nat, steps: seq<Step>): World {
    if steps == [] then World(budget, 0, map[], 0, 0)
    else Apply(Exec(budget, steps[..|steps| - 1]), steps[|steps| - 1])
  }

  // ---- one lane ----

  function Total(q: seq<Bytes>): nat {
    if q == [] then 0 else Total(q[..|q| - 1]) + |q[|q| - 1]|
  }

  lemma {:induction false} TotalFirst(q: seq<Bytes>)
    requires q != []
    ensures Total(q) == |q[0]| + Total(q[1..])
    decreases |q|
  {
    if |q| > 1 {
      TotalFirst(q[..|q| - 1]);
      assert q[1..][..|q| - 2] == q[..|q| - 1][1..];
    }
  }

  function InHand(l: Lane): seq<Bytes> { if l.inFlight.Some? then [l.inFlight.value] else [] }

  function Uncommitted(l: Lane): nat { if l.held.Pushing? then |l.held.frame| else 0 }

  function Load(l: Lane): nat { Total(l.queue) }

  ghost predicate Conserved(l: Lane) {
    l.accepted == l.sunk + InHand(l) + l.discarded + l.queue
  }

  ghost predicate Bounded(l: Lane) {
    l.bytes == Load(l) && l.bytes + Uncommitted(l) <= l.limit
  }

  ghost predicate Phased(l: Lane) {
    && (l.held.Pushing? ==> !l.stopping)
    && (l.held == Discarding ==> l.cut && l.stopping && l.inFlight.None? && !l.exited)
    && (l.cut ==> l.discarded != [] || (l.held == Discarding && l.queue != []))
    && (l.discarded != [] ==> l.cut && l.inFlight.None? && (l.held == Discarding || l.exited))
    && (l.exited ==> l.stopping && l.queue == [] && l.inFlight.None? && l.held == Free)
  }

  ghost predicate LaneInv(l: Lane) {
    Conserved(l) && Bounded(l) && Phased(l)
  }

  lemma NewKeeps(limit: nat)
    ensures LaneInv(NewLane(limit)) && Load(NewLane(limit)) == Uncommitted(NewLane(limit)) == 0
  {
  }

  lemma CheckKeeps(l: Lane, used: int, budget: nat, frame: Bytes)
    requires LaneInv(l)
    ensures LaneInv(Check(l, used, budget, frame)) && Load(Check(l, used, budget, frame)) == Load(l)
  {
  }

  lemma CommitKeeps(l: Lane)
    requires LaneInv(l)
    ensures LaneInv(Commit(l)) && Load(Commit(l)) == Load(l) + Uncommitted(l) && Uncommitted(Commit(l)) == 0
  {
    if l.held.Pushing? {
      TotalSnoc(l.queue, l.held.frame);
      CommitConserves(l.accepted, l.sunk + InHand(l) + l.discarded, l.queue, [l.held.frame]);
    }
    hide Total;
  }

  lemma TotalSnoc(q: seq<Bytes>, x: Bytes)
    ensures Total(q + [x]) == Total(q) + |x|
  {
    assert (q + [x])[..|q|] == q;
  }

  lemma CommitConserves(all: seq<Bytes>, gone: seq<Bytes>, q: seq<Bytes>, x: seq<Bytes>)
    requires all == gone + q
    ensures all + x == gone + (q + x)
  {
  }

  lemma StopKeeps(l: Lane, drain: bool)
    requires LaneInv(l)
    ensures LaneInv(Stop(l, drain)) && Load(Stop(l, drain)) == Load(l) && Uncommitted(Stop(l, drain)) == Uncommitted(l)
  {
  }

  lemma WorkKeeps(l: Lane, ok: bool)
    requires LaneInv(l)
    ensures LaneInv(Work(l, ok)) && Uncommitted(Work(l, ok)) == Uncommitted(l)
    ensures Load(Work(l, ok)) + Released(l) == Load(l)
  {
    WorkConserves(l, ok);
    hide Conserved;
    if l.queue != [] { TotalFirst(l.queue); }
  }

  lemma WorkConserves(l: Lane, ok: bool)
    requires Conserved(l) && Phased(l)
    ensures Conserved(Work(l, ok))
  {
    if l.inFlight.None? && l.queue != [] {
      var x, rest := l.queue[0], l.queue[1..];
      assert l.queue == [x] + rest;
      assert l.accepted == l.sunk + [] + l.discarded + ([x] + rest);
    }
  }

  // ---- the shared budget ----

  lemma {:induction false} SumAtMost<K>(m: map<K, Lane>, f: Lane -> nat, bound: nat)
    requires forall k | k in m :: f(m[k]) <= bound
    ensures SumBy(m, f) <= |m| * bound
    decreases |m|
  {
    if m != map[] {
      var k :| k in m;
      SumSplit(m, f, k);
      SumAtMost(m - {k}, f, bound);
      SizeLess(m, k);
      OneMore(|m - {k}|, bound);
    } else {
      NoLanes(m, f);
    }
  }

  lemma NoLanes<K>(m: map<K, Lane>, f: Lane -> nat)
    requires m == map[]
    ensures SumBy(m, f) == 0
  {
  }

  lemma OneMore(n: nat, bound: nat)
    ensures (n + 1) * bound == n * bound + bound
  {
  }

  lemma SizeLess<K, V>(m: map<K, V>, k: K)
    requires k in m
    ensures |m - {k}| + 1 == |m|
  {
    assert (m - {k}).Keys == m.Keys - {k};
    assert |m - {k}| == |(m - {k}).Keys| && |m| == |m.Keys|;
  }

  lemma SizeMore<K, V>(m: map<K, V>, k: K, v: V)
    ensures |m[k := v]| == if k in m then |m| else |m| + 1
  {
    assert m[k := v].Keys == m.Keys + {k};
    assert |m[k := v]| == |m[k := v].Keys| && |m| == |m.Keys|;
    if k in m { assert m.Keys + {k} == m.Keys; }
  }

  /** How far the budget may be exceeded: by one frame for each lane but one. */
  function Slack(peak: nat, longest: nat): nat {
    if peak == 0 then 0 else (peak - 1) * longest
  }

  lemma SlackMonotone(a: nat, b: nat, c: nat, d: nat)
    requires a <= c && b <= d
    ensures Slack(a, b) <= Slack(c, d)
  {
    if a > 0 { TimesMonotone(a - 1, b, c - 1, d); }
  }

  lemma {:induction false} TimesMonotone(a: nat, b: nat, c: nat, d: nat)
    requires a <= c && b <= d
    ensures a * b <= c * d
    decreases c
  {
    if c > 0 {
      OneMore(c - 1, d);
      if a == c {
        OneMore(a - 1, b);
        TimesMonotone(a - 1, b, c - 1, d);
      } else {
        TimesMonotone(a, b, c - 1, d);
      }
    }
  }

  ghost function Queued(w: World): nat { SumBy(w.lanes, Load) }

  ghost function Checked(w: World): nat { SumBy(w.lanes, Uncommitted) }

  ghost predicate LanesOk(w: World) {
    forall id | id in w.lanes :: LaneInv(w.lanes[id]) && Uncommitted(w.lanes[id]) <= w.longest
  }

  ghost predicate BudgetOk(w: World) {
    |w.lanes| <= w.peak && w.used == Queued(w) && w.used + Checked(w) <= w.budget + Slack(w.peak, w.longest)
  }

  ghost predicate WorldInv(w: World) { LanesOk(w) && BudgetOk(w) }

  /** A step that replaces one lane. */
  lemma Replaced(w: World, id: nat, l: Lane, used: int, longest: nat)
    requires WorldInv(w) && id in w.lanes && LaneInv(l) && Uncommitted(l) <= longest && w.longest <= longest
    requires used == w.used + Load(l) - Load(w.lanes[id])
    requires used + Checked(w) - Uncommitted(w.lanes[id]) + Uncommitted(l) <= w.budget + Slack(w.peak, longest)
    ensures WorldInv(Put(w, id, l).(used := used, longest := longest))
  {
    hide LaneInv, Load, Uncommitted, SumBy, Slack;
    SumUpdate(w.lanes, Load, id, l);
    SumUpdate(w.lanes, Uncommitted, id, l);
    SizeMore(w.lanes, id, l);
  }

  lemma AddKeeps(w: World, id: nat, limit: nat)
    requires WorldInv(w) && id !in w.lanes
    ensures WorldInv(Apply(w, AddLane(id, limit)))
  {
    hide LaneInv, Load, Uncommitted, SumBy, Slack, NewLane;
    var l := NewLane(limit);
    NewKeeps(limit);
    SumUpdate(w.lanes, Load, id, l);
    SumUpdate(w.lanes, Uncommitted, id, l);
    SizeMore(w.lanes, id, l);
    SlackMonotone(w.peak, w.longest, Max(w.peak, |w.lanes| + 1), w.longest);
  }

  lemma RemoveKeeps(w: World, id: nat)
    requires WorldInv(w) && id in w.lanes && w.lanes[id].exited
    ensures WorldInv(Apply(w, RemoveLane(id)))
  {
    ExitedIsEmpty(w.lanes[id]);
    hide LaneInv, Load, Uncommitted, SumBy, Slack;
    SumSplit(w.lanes, Load, id);
    SumSplit(w.lanes, Uncommitted, id);
    SizeLess(w.lanes, id);
  }

  lemma ExitedIsEmpty(l: Lane)
    requires LaneInv(l) && l.exited
    ensures Load(l) == Uncommitted(l) == 0
  {
  }

  /** A check that succeeds finds room for its frame; every other lane holds back
      at most one frame. */
  lemma CheckPushKeeps(w: World, id: nat, frame: Bytes)
    requires WorldInv(w) && id in w.lanes
    ensures WorldInv(Apply(w, CheckPush(id, frame)))
  {
    var l := w.lanes[id];
    var l' := Check(l, w.used, w.budget, frame);
    var longest := if l'.held.Pushing? then Max(w.longest, |l'.held.frame|) else w.longest;
    CheckKeeps(l, w.used, w.budget, frame);
    SlackMonotone(w.peak, w.longest, w.peak, longest);
    if l.held == Free && l'.held.Pushing? {
      OthersHoldBack(w, id);
      SlackMonotone(|w.lanes|, w.longest, w.peak, longest);
    }
    hide LaneInv, Load, SumBy, Slack;
    Replaced(w, id, l', w.used, longest);
  }

  lemma OthersHoldBack(w: World, id: nat)
    requires LanesOk(w) && id in w.lanes
    ensures Checked(w) <= Uncommitted(w.lanes[id]) + Slack(|w.lanes|, w.longest)
  {
    hide LaneInv, Uncommitted, SumBy;
    SumSplit(w.lanes, Uncommitted, id);
    SumAtMost(w.lanes - {id}, Uncommitted, w.longest);
    SizeLess(w.lanes, id);
  }

  lemma OnLaneKeeps(w: World, step: Step)
    requires WorldInv(w) && step.id in w.lanes && (step.CommitPush? || step.StopLane? || step.WorkOn?)
    ensures WorldInv(Apply(w, step))
  {
    hide LaneInv, Load, SumBy, Slack, Work, Released, Commit, Stop;
    var l := w.lanes[step.id];
    match step
    case CommitPush(id) =>
      CommitKeeps(l);
      Replaced(w, id, Commit(l), w.used + Uncommitted(l), w.longest);
    case StopLane(id, drain) =>
      StopKeeps(l, drain);
      Replaced(w, id, Stop(l, drain), w.used, w.longest);
    case WorkOn(id, ok) =>
      WorkKeeps(l, ok);
      Replaced(w, id, Work(l, ok), w.used - Released(l), w.longest);
  }

  lemma StepKeeps(w: World, step: Step)
    requires WorldInv(w)
    ensures WorldInv(Apply(w, step))
  {
    hide WorldInv;
    if step.AddLane? {
      if step.id !in w.lanes { AddKeeps(w, step.id, step.limit); }
    } else if step.id in w.lanes {
      match step
      case RemoveLane(id) => if w.lanes[id].exited { RemoveKeeps(w, id); }
      case CheckPush(id, frame) => CheckPushKeeps(w, id, frame);
      case _ => OnLaneKeeps(w, step);
    }
  }

  lemma {:induction false} RunKeeps(budget: nat, steps: seq<Step>)
    ensures WorldInv(Exec(budget, steps))
  {
    hide WorldInv, Apply;
    if steps == [] {
      EmptyKeeps(budget);
    } else {
      RunKeeps(budget, steps[..|steps| - 1]);
      StepKeeps(Exec(budget, steps[..|steps| - 1]), steps[|steps| - 1]);
    }
  }

  lemma EmptyKeeps(budget: nat)
    ensures WorldInv(World(budget, 0, map[], 0, 0))
  {
  }

  // ---- what holds in every reachable state ----

  /** The budget counter is exactly what is queued; with the pushes checked but
      not yet committed it exceeds the limit by at most one frame for each lane
      but one, and a single lane never exceeds it. */
  lemma SharedBudget(budget: nat, steps: seq<Step>)
    ensures var w := Exec(budget, steps);
            && w.used == SumBy(w.lanes, (l: Lane) => Total(l.queue))
            && w.used + Checked(w) <= budget + Slack(w.peak, w.longest)
            && (w.peak <= 1 ==> w.used <= budget)
  {
    RunKeeps(budget, steps);
    BudgetIs(budget, steps);
    NoSlack(Exec(budget, steps).longest);
    hide Exec, Slack, SumBy, LaneInv, Uncommitted;
    SumSame(Exec(budget, steps).lanes, Load, (l: Lane) => Total(l.queue));
  }

  lemma NoSlack(longest: nat)
    ensures Slack(0, longest) == Slack(1, longest) == 0
  {
  }

  lemma {:induction false} SumSame<K>(m: map<K, Lane>, f: Lane -> nat, g: Lane -> nat)
    requires forall l :: f(l) == g(l)
    ensures SumBy(m, f) == SumBy(m, g)
    decreases |m|
  {
    if m != map[] {
      var k :| k in m;
      SumSplit(m, f, k);
      SumSplit(m, g, k);
      SumSame(m - {k}, f, g);
    }
  }

  lemma {:induction false} BudgetIs(budget: nat, steps: seq<Step>)
    ensures Exec(budget, steps).budget == budget
  {
    if steps != [] { BudgetIs(budget, steps[..|steps| - 1]); }
  }

  /** Conservation and order: what a lane accepted is, in push order, what the
      sink got, what the worker holds, what was thrown away and what is queued;
      its byte count is the queued size and within the lane's limit. After the
      worker's exit nothing is left, and the sink got everything if and only if
      the worker never began to discard. */
  lemma LaneConservation(budget: nat, steps: seq<Step>, id: nat)
    requires id in Exec(budget, steps).lanes
    ensures var l := Exec(budget, steps).lanes[id];
            && l.accepted == l.sunk + InHand(l) + l.discarded + l.queue
            && 0 <= l.bytes == Total(l.queue) <= l.limit
            && (l.exited ==> l.queue == [] && l.bytes == 0 && l.accepted == l.sunk + l.discarded)
            && (l.exited ==> (l.sunk == l.accepted <==> !l.cut))
  {
    hide Exec;
    RunKeeps(budget, steps);
    LaneFacts(Exec(budget, steps).lanes[id]);
  }

  lemma LaneFacts(l: Lane)
    requires LaneInv(l)
    ensures l.accepted == l.sunk + InHand(l) + l.discarded + l.queue && 0 <= l.bytes == Total(l.queue) <= l.limit
    ensures l.exited ==> l.queue == [] && l.bytes == 0 && l.accepted == l.sunk + l.discarded
    ensures l.exited ==> (l.sunk == l.accepted <==> !l.cut)
  {
  }

  // ---- stopping ----

  /** How many of its own steps the worker needs before it exits. */
  function Todo(l: Lane): nat {
    if l.exited then 0
    else 2 * |l.queue| + (if l.inFlight.Some? then 1 else 0) + (if l.held == Discarding then 1 else 2)
  }

  function WorkSteps(steps: seq<Step>, id: nat): nat {
    if steps == [] then 0
    else
      WorkSteps(steps[..|steps| - 1], id)
      + match steps[|steps| - 1] case WorkOn(i, _) => (if i == id then 1 else 0) case _ => 0
  }

  /** A step on a stopping lane: nothing is accepted any more and the worker's
      own steps bring it nearer to its exit. */
  lemma StoppingStep(w: World, step: Step, id: nat)
    requires id in w.lanes && LaneInv(w.lanes[id]) && w.lanes[id].stopping && step != RemoveLane(id)
    ensures var l, w' := w.lanes[id], Apply(w, step);
            && id in w'.lanes && w'.lanes[id].stopping && w'.lanes[id].accepted == l.accepted
            && (l.exited ==> w'.lanes[id].exited && w'.lanes[id].sunk == l.sunk)
            && Todo(w'.lanes[id]) + (if step.WorkOn? && step.id == id && !l.exited then 1 else 0) <= Todo(l)
  {
    hide Conserved, Bounded;
  }

  /** Once a stop has latched the lane accepts nothing more, and when the worker
      has taken the steps it needs it has exited, whatever all other threads did
      in between; an exited lane stays as it is. */
  lemma {:induction false} StopTerminates(budget: nat, steps: seq<Step>, more: seq<Step>, id: nat)
    requires id in Exec(budget, steps).lanes && Exec(budget, steps).lanes[id].stopping
    requires forall k | 0 <= k < |more| :: more[k] != RemoveLane(id)
    ensures var l := Exec(budget, steps).lanes[id];
            var w' := Exec(budget, steps + more);
            && id in w'.lanes && w'.lanes[id].stopping && w'.lanes[id].accepted == l.accepted
            && (l.exited ==> w'.lanes[id].exited && w'.lanes[id].sunk == l.sunk && w'.lanes[id].bytes == 0)
            && (WorkSteps(more, id) >= Todo(l) ==> w'.lanes[id].exited)
            && (w'.lanes[id].exited || Todo(w'.lanes[id]) + WorkSteps(more, id) <= Todo(l))
    decreases |more|
  {
    hide Apply, LaneInv, Todo;
    RunKeeps(budget, steps + more);
    if more == [] {
      assert steps + more == steps;
      ExitedDone(Exec(budget, steps).lanes[id]);
    } else {
      var pre, step := more[..|more| - 1], more[|more| - 1];
      assert (steps + more)[..|steps + more| - 1] == steps + pre;
      StopTerminates(budget, steps, pre, id);
      RunKeeps(budget, steps + pre);
      StoppingStep(Exec(budget, steps + pre), step, id);
      ExitedDone(Exec(budget, steps + more).lanes[id]);
    }
  }

  lemma ExitedDone(l: Lane)
    requires LaneInv(l)
    ensures l.exited <==> Todo(l) == 0
    ensures l.exited ==> l.bytes == 0
  {
  }

  /** A step other than a stop without draining, on a draining lane that is not
      discarding. */
  lemma DrainingStep(w: World, step: Step, id: nat)
    requires id in w.lanes && Draining(w.lanes[id]) && step != RemoveLane(id) && step != StopLane(id, false)
    ensures id in Apply(w, step).lanes && Draining(Apply(w, step).lanes[id])
  {
  }

  predicate Draining(l: Lane) { l.stopping && l.drain && !l.cut }

  /** A draining stop that is not overridden hands every accepted frame to the
      sink before the worker exits, even if a stop without draining came before
      it, as long as the worker had not begun to discard. */
  lemma {:induction false} DrainDelivers(budget: nat, steps: seq<Step>, more: seq<Step>, id: nat)
    requires id in Exec(budget, steps).lanes && Draining(Exec(budget, steps).lanes[id])
    requires forall k | 0 <= k < |more| :: more[k] != RemoveLane(id) && more[k] != StopLane(id, false)
    ensures var w' := Exec(budget, steps + more);
            && id in w'.lanes && Draining(w'.lanes[id])
            && (w'.lanes[id].exited ==> w'.lanes[id].sunk == w'.lanes[id].accepted)
    decreases |more|
  {
    hide Apply;
    if more == [] {
      assert steps + more == steps;
    } else {
      var pre := more[..|more| - 1];
      assert (steps + more)[..|steps + more| - 1] == steps + pre;
      DrainDelivers(budget, steps, pre, id);
      DrainingStep(Exec(budget, steps + pre), more[|more| - 1], id);
    }
    LaneConservation(budget, steps + more, id);
  }

  /** The lane is inside no push and its worker has not exited, so a stop takes
      effect. */
  predicate Stoppable(l: Lane) { l.held == Free && !l.exited }

  /** A stop with draining, from the step itself: whatever was accepted before it is
      sunk by the worker's exit, unless a stop without draining follows. */
  lemma DrainingStopDelivers(budget: nat, steps: seq<Step>, more: seq<Step>, id: nat)
    requires id in Exec(budget, steps).lanes && Stoppable(Exec(budget, steps).lanes[id])
    requires forall k | 0 <= k < |more| :: more[k] != RemoveLane(id) && more[k] != StopLane(id, false)
    ensures var w' := Exec(budget, steps + [StopLane(id, true)] + more);
            && id in w'.lanes && w'.lanes[id].accepted == Exec(budget, steps).lanes[id].accepted
            && (w'.lanes[id].exited ==> w'.lanes[id].sunk == w'.lanes[id].accepted && w'.lanes[id].discarded == [])
  {
    hide Exec, Apply;
    var stopped := steps + [StopLane(id, true)];
    ExecSnoc(budget, steps, StopLane(id, true));
    RunKeeps(budget, steps);
    StopTakesEffect(Exec(budget, steps), id, true);
    DrainDelivers(budget, stopped, more, id);
    StopTerminates(budget, stopped, more, id);
    LaneConservation(budget, stopped + more, id);
  }

  lemma ExecSnoc(budget: nat, steps: seq<Step>, step: Step)
    ensures Exec(budget, steps + [step]) == Apply(Exec(budget, steps), step)
  {
    assert (steps + [step])[..|steps|] == steps;
  }

  lemma StopTakesEffect(w: World, id: nat, drain: bool)
    requires id in w.lanes && LaneInv(w.lanes[id]) && Stoppable(w.lanes[id])
    ensures var l, w' := w.lanes[id], Apply(w, StopLane(id, drain));
            && id in w'.lanes && w'.lanes[id].stopping && w'.lanes[id].accepted == l.accepted
            && (drain ==> Draining(w'.lanes[id]))
            && (!drain ==> Discards(l, w'.lanes[id]))
  {
  }

  /** The lane after a stop without draining that found it as l: it sinks at most
      the frame in hand, and what was queued is discarded in order, all of it by
      the exit. */
  ghost predicate Discards(l: Lane, l': Lane) {
    && l'.stopping && !l'.drain && !l'.held.Pushing? && l'.accepted == l.accepted
    && l'.sunk + InHand(l') == l.sunk + InHand(l) && l.sunk <= l'.sunk
    && l'.discarded + l'.queue == l.queue
    && (l'.exited ==> l'.queue == [] && l'.inFlight.None?)
  }

  lemma DiscardingStep(w: World, step: Step, id: nat, l: Lane)
    requires id in w.lanes && LaneInv(w.lanes[id]) && Discards(l, w.lanes[id])
    requires step != RemoveLane(id) && step != StopLane(id, true)
    ensures var w' := Apply(w, step); id in w'.lanes && Discards(l, w'.lanes[id])
  {
    hide Bounded, Total;
    if step.WorkOn? && step.id == id { DiscardingWork(w.lanes[id], step.ok, l); }
  }

  lemma DiscardingWork(l: Lane, ok: bool, l0: Lane)
    requires Phased(l) && Discards(l0, l)
    ensures Discards(l0, Work(l, ok))
  {
    if l.inFlight.None? && l.queue != [] {
      assert [l.queue[0]] + l.queue[1..] == l.queue;
      assert l.discarded + l.queue == l.discarded + [l.queue[0]] + l.queue[1..];
    }
  }

  lemma {:induction false} DiscardingRun(budget: nat, steps: seq<Step>, more: seq<Step>, id: nat, l: Lane)
    requires id in Exec(budget, steps).lanes && Discards(l, Exec(budget, steps).lanes[id])
    requires forall k | 0 <= k < |more| :: more[k] != RemoveLane(id) && more[k] != StopLane(id, true)
    ensures var w' := Exec(budget, steps + more); id in w'.lanes && Discards(l, w'.lanes[id])
    decreases |more|
  {
    hide Apply, LaneInv, Discards;
    if more == [] {
      assert steps + more == steps;
    } else {
      var pre := more[..|more| - 1];
      assert (steps + more)[..|steps + more| - 1] == steps + pre;
      DiscardingRun(budget, steps, pre, id, l);
      RunKeeps(budget, steps + pre);
      DiscardingStep(Exec(budget, steps + pre), more[|more| - 1], id, l);
    }
  }

  /** A stop without draining, from the step itself: after it the sink gets at most
      the frame the worker had in hand, and by the worker's exit everything that
      was queued has been discarded, unless a stop with draining follows. */
  lemma CuttingStopDiscards(budget: nat, steps: seq<Step>, more: seq<Step>, id: nat)
    requires id in Exec(budget, steps).lanes && Stoppable(Exec(budget, steps).lanes[id])
    requires forall k | 0 <= k < |more| :: more[k] != RemoveLane(id) && more[k] != StopLane(id, true)
    ensures var l := Exec(budget, steps).lanes[id];
            var w' := Exec(budget, steps + [StopLane(id, false)] + more);
            && id in w'.lanes && w'.lanes[id].accepted == l.accepted
            && l.sunk <= w'.lanes[id].sunk <= l.sunk + InHand(l)
            && (w'.lanes[id].exited ==> w'.lanes[id].sunk == l.sunk + InHand(l) && w'.lanes[id].discarded == l.queue)
  {
    hide Exec, Apply;
    var l := Exec(budget, steps).lanes[id];
    ExecSnoc(budget, steps, StopLane(id, false));
    RunKeeps(budget, steps);
    StopTakesEffect(Exec(budget, steps), id, false);
    DiscardingRun(budget, steps + [StopLane(id, false)], more, id, l);
    var l' := Exec(budget, steps + [StopLane(id, false)] + more).lanes[id];
    assert l'.sunk <= l'.sunk + InHand(l');
    if l'.exited {
      assert l'.sunk + [] == l'.sunk && l'.discarded + [] == l'.discarded;
    }
  }

  // ---- the bound is attained ----

  function Frame(m: nat): (f: Bytes)
    ensures |f| == m
  {
    seq(m, _ => 0)
  }

  /** n lanes are made, then all check, then all commit. */
  function Racing(n: nat, m: nat, k: nat): Step {
    if k < n then AddLane(k, m) else if k < 2 * n then CheckPush(k - n, Frame(m)) else CommitPush(k - 2 * n)
  }

  function Race(n: nat, m: nat, k: nat): seq<Step> {
    if k == 0 then [] else Race(n, m, k - 1) + [Racing(n, m, k - 1)]
  }

  function Ids(n: nat): (ids: set<nat>)
    ensures |ids| == n
    ensures forall i: nat :: i in ids <==> i < n
  {
    if n == 0 then {} else Ids(n - 1) + {n - 1}
  }

  /** n lanes of which the first k are in state `a`, the others in state `b`. */
  function Lanes(n: nat, k: nat, a: Lane, b: Lane): map<nat, Lane> {
    map i | i in Ids(n) :: if i < k then a else b
  }

  function Waiting(m: nat): Lane { NewLane(m).(held := Pushing(Frame(m))) }

  function RaceState(n: nat, m: nat, k: nat): World {
    if k <= n then World(m, 0, Lanes(k, k, NewLane(m), NewLane(m)), k, 0)
    else if k <= 2 * n then World(m, 0, Lanes(n, k - n, Waiting(m), NewLane(m)), n, m)
    else World(m, (k - 2 * n) * m, Lanes(n, k - 2 * n, Commit(Waiting(m)), Waiting(m)), n, m)
  }

  lemma NextLane(n: nat, k: nat, a: Lane, b: Lane)
    requires k < n
    ensures Lanes(n, k, a, b)[k := a] == Lanes(n, k + 1, a, b)
    ensures k in Lanes(n, k, a, b) && Lanes(n, k, a, b)[k] == b
  {
  }

  lemma AllLanes(n: nat, a: Lane, b: Lane, c: Lane)
    ensures Lanes(n, 0, a, b) == Lanes(n, n, b, c)
    ensures Lanes(n, n, b, b)[n := b] == Lanes(n + 1, n + 1, b, b)
    ensures |Lanes(n, n, b, b)| == n && n !in Lanes(n, n, b, b)
  {
    assert Lanes(n, n, b, b).Keys == Ids(n);
    assert |Lanes(n, n, b, b)| == |Lanes(n, n, b, b).Keys|;
  }

  lemma RaceStep(n: nat, m: nat, k: nat)
    requires k < 3 * n
    ensures Apply(RaceState(n, m, k), Racing(n, m, k)) == RaceState(n, m, k + 1)
  {
    hide Lanes;
    if k < n {
      AllLanes(k, NewLane(m), NewLane(m), NewLane(m));
    } else if k < 2 * n {
      AllLanes(n, Waiting(m), NewLane(m), NewLane(m));
      NextLane(n, k - n, Waiting(m), NewLane(m));
    } else {
      AllLanes(n, Commit(Waiting(m)), Waiting(m), NewLane(m));
      NextLane(n, k - 2 * n, Commit(Waiting(m)), Waiting(m));
      OneMore(k - 2 * n, m);
    }
  }

  lemma {:induction false} RaceReaches(n: nat, m: nat, k: nat)
    requires k <= 3 * n
    ensures Exec(m, Race(n, m, k)) == RaceState(n, m, k)
    decreases k
  {
    hide Apply, Racing, RaceState;
    if k == 0 {
      RaceStart(n, m);
    } else {
      RaceReaches(n, m, k - 1);
      RaceStep(n, m, k - 1);
      var steps := Race(n, m, k);
      assert steps[..|steps| - 1] == Race(n, m, k - 1);
    }
  }

  lemma RaceStart(n: nat, m: nat)
    ensures RaceState(n, m, 0) == World(m, 0, map[], 0, 0)
  {
  }

  /** For any number of lanes and any frame length there is a run that exceeds
      the budget by exactly the bound. */
  lemma SharedBudgetIsTight(n: nat, m: nat)
    requires n >= 1
    ensures var w := Exec(m, Race(n, m, 3 * n));
            w.peak == n && w.longest == m && w.used == m + Slack(n, m)
  {
    RaceReaches(n, m, 3 * n);
    OneMore(n - 1, m);
  }

  // ---- the classes ----

  /** n worker steps in a row, as when nobody else gets the mutex. */
  function WorkOnAndOn(l: Lane, n: nat): Lane
    decreases n
  {
    if n == 0 then l else WorkOnAndOn(Work(l, true), n - 1)
  }

  lemma OneWork(l: Lane, n: nat)
    ensures WorkOnAndOn(l, n + 1) == WorkOnAndOn(Work(l, true), n)
  {
  }

  lemma NoWork(l: Lane)
    ensures WorkOnAndOn(l, 0) == l
  {
  }

  class SendBudget {
    const limit: nat
    var used: int

    constructor (limit: nat)
      ensures this.limit == limit && used == 0
    {
      this.limit := limit;
      used := 0;
    }
  }

  class SendLane {
    const byteLimit: nat
    const global: SendBudget
    var queue: seq<Bytes>
    var bytes: int
    var stopping: bool
    var drain: bool
    var dropped: nat
    var failed: nat
    ghost var held: Held
    ghost var inFlight: Option<Bytes>
    ghost var exited: bool
    ghost var cut: bool
    ghost var accepted: seq<Bytes>
    ghost var sunk: seq<Bytes>
    ghost var discarded: seq<Bytes>

    ghost function State(): Lane
      reads this
    {
      Lane(byteLimit, queue, bytes, stopping, drain, dropped, failed,
           held, inFlight, exited, cut, accepted, sunk, discarded)
    }

    ghost predicate Valid()
      reads this
    {
      LaneInv(State())
    }

    constructor (byteLimit: nat, global: SendBudget)
      ensures Valid() && State() == NewLane(byteLimit) && this.global == global
    {
      this.byteLimit, this.global := byteLimit, global;
      queue, bytes, stopping, drain, dropped, failed := [], 0, false, false, 0, 0;
      held, inFlight, exited, cut, accepted, sunk, discarded := Free, None, false, false, [], [], [];
    }

    /** First half of `push`, under the mutex. */
    method CheckPush(frame: Bytes) returns (ok: bool)
      requires Valid() && held == Free
      modifies this
      ensures Valid() && State() == Check(old(State()), global.used, global.limit, frame)
      ensures ok <==> State().held == Pushing(frame)
    {
      CheckKeeps(State(), global.used, global.limit, frame);
      if stopping || bytes + |frame| > byteLimit || global.used + |frame| > global.limit {
        dropped := dropped + 1;
        return false;
      }
      held := Pushing(frame);
      return true;
    }

    /** Second half of `push`, under the same mutex. */
    method CommitPush(frame: Bytes)
      requires Valid() && held == Pushing(frame)
      modifies this, global`used
      ensures Valid() && State() == Commit(old(State())) && global.used == old(global.used) + |frame|
    {
      hide LaneInv, Load, Total;
      CommitKeeps(State());
      queue := queue + [frame];
      bytes := bytes + |frame|;
      global.used := global.used + |frame|;
      held := Free;
      accepted := accepted + [frame];
    }

    /** `push` when no other lane gets in between. */
    method Push(frame: Bytes) returns (ok: bool)
      requires Valid() && held == Free
      modifies this, global`used
      ensures Valid() && held == Free
      ensures ok <==> !old(stopping) && old(bytes) + |frame| <= byteLimit && old(global.used) + |frame| <= global.limit
      ensures accepted == if ok then old(accepted) + [frame] else old(accepted)
      ensures global.used == if ok then old(global.used) + |frame| else old(global.used)
      ensures dropped == if ok then old(dropped) else old(dropped) + 1
    {
      hide LaneInv;
      ok := CheckPush(frame);
      if ok { CommitPush(frame); }
    }

    /** The locked part of `stop`. */
    method RequestStop(drain: bool)
      requires Valid() && held == Free
      modifies this
      ensures Valid() && State() == Stop(old(State()), drain)
      ensures stopping && this.drain == drain
    {
      StopKeeps(State(), drain);
      stopping := true;
      this.drain := drain;
    }

    method Release(len: nat)
      modifies this`bytes, global`used
      ensures bytes == old(bytes) - len && global.used == old(global.used) - len
    {
      bytes := bytes - len;
      global.used := global.used - len;
    }

    /** The locked region of `run`, once the wait is over: exit, throw the queue
        away and exit, or pop one frame. */
    method NextFrame() returns (frame: Option<Bytes>)
      requires Valid() && held == Free && !exited && inFlight.None? && (stopping || queue != [])
      modifies this, global`used
      ensures Valid() && frame == inFlight && global.used == old(global.used) - old(bytes) + bytes
      ensures State() ==
              if old(queue) != [] && old(stopping) && !old(drain)
              then WorkOnAndOn(old(State()), |old(queue)| + 2) else Work(old(State()), true)
    {
      hide LaneInv, WorkOnAndOn;
      WorkKeeps(State(), true);
      if queue == [] {
        exited := true;
        return None;
      }
      if stopping && !drain {
        DiscardAll();
        return None;
      }
      frame := Some(queue[0]);
      Release(|queue[0]|);
      queue := queue[1..];
      inFlight := frame;
    }

    /** The discarding loop of `run`, frame by frame, and the exit. */
    method DiscardAll()
      requires Valid() && held == Free && !exited && inFlight.None? && stopping && !drain && queue != []
      modifies this, global`used
      ensures Valid() && inFlight.None? && global.used == old(global.used) - old(bytes) + bytes
      ensures State() == WorkOnAndOn(old(State()), |old(queue)| + 2)
    {
      hide LaneInv, Work, WorkOnAndOn;
      ghost var n := |queue| + 1;
      ghost var end := WorkOnAndOn(State(), n + 1);
      OneWork(State(), n);
      StartDiscard();
      while queue != []
        invariant Valid() && held == Discarding && !exited && inFlight.None?
        invariant WorkOnAndOn(State(), |queue| + 1) == end
        invariant global.used == old(global.used) - old(bytes) + bytes
        decreases |queue|
      {
        OneWork(State(), |queue|);
        DiscardOne();
      }
      OneWork(State(), 0);
      NoWork(Work(State(), true));
      Exit();
    }

    method StartDiscard()
      requires Valid() && held == Free && !exited && inFlight.None? && stopping && !drain && queue != []
      modifies `held, `cut
      ensures Valid() && State() == Work(old(State()), true) && held == Discarding
    {
      hide LaneInv;
      WorkKeeps(State(), true);
      held := Discarding;
      cut := true;
    }

    method DiscardOne()
      requires Valid() && held == Discarding && !exited && inFlight.None? && queue != []
      modifies `queue, `bytes, `discarded, global`used
      ensures Valid() && State() == Work(old(State()), true) && queue == old(queue)[1..]
      ensures global.used == old(global.used) - old(bytes) + bytes
    {
      hide LaneInv;
      WorkKeeps(State(), true);
      Release(|queue[0]|);
      discarded := discarded + [queue[0]];
      queue := queue[1..];
    }

    method Exit()
      requires Valid() && held == Discarding && !exited && inFlight.None? && queue == []
      modifies `held, `exited
      ensures Valid() && State() == Work(old(State()), true)
    {
      hide LaneInv;
      WorkKeeps(State(), true);
      held := Free;
      exited := true;
    }

    /** After the sink call, outside the mutex. */
    method Sunk(frame: Bytes, ok: bool)
      requires Valid() && inFlight == Some(frame) && !exited
      modifies this
      ensures Valid() && State() == Work(old(State()), ok)
      ensures failed == old(failed) + (if ok then 0 else 1) && sunk == old(sunk) + [frame]
    {
      WorkKeeps(State(), ok);
      sunk := sunk + [frame];
      inFlight := None;
      if !ok { failed := failed + 1; }
    }
  }
}
