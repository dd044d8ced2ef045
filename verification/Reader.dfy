/** The reader side: the receive queue, the per-writer receive states and the
    lost count. */
module Readers {
  import opened Base
  import opened Words
  import opened Window
  import opened Sums

  datatype Item = Item(writer: Guid, sn: nat, pubMs: nat, payload: Bytes, lifespanMs: nat)

  /** A reader together with what happened so far: `tracks` carries the receive
      states and their past, `queued` everything ever queued, and `taken` what
      the application took. */
  datatype ReaderState = ReaderState(
    qos: Qos, tracks: map<Guid, Track>, lost: nat,
    queue: seq<Item>, queued: seq<Item>, taken: seq<Item>)

  function TrackOf(r: ReaderState, writer: Guid): Track {
    if writer in r.tracks then r.tracks[writer] else UNSEEN
  }

  function Fresh(qos: Qos): ReaderState {
    ReaderState(qos, map[], 0, [], [], [])
  }

  function Swept(q: seq<Item>, nowMs: nat): seq<Item> {
    if q == [] then []
    else
      (if LifespanExpired(q[0].lifespanMs, q[0].pubMs, nowMs) then [] else [q[0]]) + Swept(q[1..], nowMs)
  }

  function Depth(qos: Qos): nat { if qos.depth >= 1 then qos.depth else 1 }

  function Bounded(qos: Qos, q: seq<Item>): seq<Item> {
    if qos.history == KEEP_LAST && |q| > Depth(qos) then q[|q| - Depth(qos)..] else q
  }

  /** The receive-state part of `enqueue`. */
  function Received(r: ReaderState, writer: Guid, sn: nat): ReaderState {
    var t := TrackOf(r, writer);
    r.(tracks := r.tracks[writer := OnData(t, sn)], lost := r.lost + Enqueue(t.rx, sn).lost)
  }

  function Push(r: ReaderState, item: Item, nowMs: nat): ReaderState {
    r.(queue := Swept(Bounded(r.qos, r.queue + [item]), nowMs), queued := r.queued + [item])
  }

  /** `ReaderImpl::enqueue`: the new reader, whether the sample was queued, and
      whether a hole below it was noticed. */
  function Deliver(r: ReaderState, item: Item, nowMs: nat): (ReaderState, bool, bool) {
    var o := Enqueue(TrackOf(r, item.writer).rx, item.sn);
    var r' := Received(r, item.writer, item.sn);
    if !o.accepted || LifespanExpired(item.lifespanMs, item.pubMs, nowMs) then (r', false, o.hole)
    else (Push(r', item, nowMs), true, o.hole)
  }

  /** `ReaderImpl::apply_gap`. */
  function Skip(r: ReaderState, writer: Guid, end: nat): ReaderState {
    var t := TrackOf(r, writer);
    r.(tracks := r.tracks[writer := OnGap(t, end)],
       lost := r.lost + if t.joined then SkipTo(t.rx, end).1 else 0)
  }

  function Take(r: ReaderState, nowMs: nat): (ReaderState, Option<Item>) {
    var q := Swept(r.queue, nowMs);
    if q == [] then (r.(queue := q), None)
    else (r.(queue := q[1..], taken := r.taken + [q[0]]), Some(q[0]))
  }

  function SweepQueue(r: ReaderState, nowMs: nat): ReaderState {
    r.(queue := Swept(r.queue, nowMs))
  }

  /** What an ACKNACK for this writer would say: base and bitmap. */
  function NackState(r: ReaderState, writer: Guid): (nat, nat) {
    var rx := TrackOf(r, writer).rx;
    (rx.last + 1, rx.window)
  }

  // ---- what every operation keeps ----

  ghost predicate ReaderInv(r: ReaderState) {
    && (forall w | w in r.tracks :: r.tracks[w].joined && TrackInv(r.tracks[w]))
    && r.lost == SumBy(r.tracks, (t: Track) => t.lost)
    && SubSeq(r.taken + r.queue, r.queued)
    && Distinct(r.queued, (i: Item) => (i.writer, i.sn))
    && (forall i | i in r.queued :: i.sn in TrackOf(r, i.writer).got)
  }

  lemma TracksInv(r: ReaderState, writer: Guid)
    requires ReaderInv(r)
    ensures TrackInv(TrackOf(r, writer))
  {
    UnseenInv();
  }

  lemma {:induction false} SweptIsSubSeq(q: seq<Item>, nowMs: nat, pre: seq<Item>)
    ensures SubSeq(pre + Swept(q, nowMs), pre + q)
    decreases |q|
  {
    if q == [] {
      SubSeqRefl(pre);
      assert pre + [] == pre;
    } else {
      var x, rest := q[0], q[1..];
      Regroup(pre, x, rest, q);
      if LifespanExpired(x.lifespanMs, x.pubMs, nowMs) {
        SweptIsSubSeq(rest, nowMs, pre);
        SubSeqDrop(pre, x, rest);
        assert Swept(q, nowMs) == Swept(rest, nowMs);
        SubSeqTrans(pre + Swept(q, nowMs), pre + rest, pre + q);
      } else {
        SweptIsSubSeq(rest, nowMs, pre + [x]);
        Regroup(pre, x, Swept(rest, nowMs), Swept(q, nowMs));
      }
    }
  }

  lemma Regroup(pre: seq<Item>, x: Item, rest: seq<Item>, q: seq<Item>)
    requires q == [x] + rest
    ensures pre + [x] + rest == pre + q
  {
  }

  lemma {:induction false} TailIsSubSeq(pre: seq<Item>, q: seq<Item>, n: nat)
    requires n <= |q|
    ensures SubSeq(pre + q[n..], pre + q)
    decreases n
  {
    if n == 0 {
      SubSeqRefl(pre + q);
    } else {
      TailIsSubSeq(pre, q, n - 1);
      var x, rest := q[n - 1], q[n..];
      assert q[n - 1..] == [x] + rest;
      SubSeqDrop(pre, x, rest);
      assert pre + [x] + rest == pre + q[n - 1..];
      SubSeqTrans(pre + rest, pre + q[n - 1..], pre + q);
    }
  }

  /** Replacing one writer's track by a later one, with the difference in its
      losses added to the lost count. */
  lemma SetTrack(r: ReaderState, writer: Guid, t: Track, lost: nat)
    requires ReaderInv(r) && TrackInv(t) && t.joined
    requires TrackOf(r, writer).got <= t.got && t.lost == TrackOf(r, writer).lost + lost
    ensures ReaderInv(r.(tracks := r.tracks[writer := t], lost := r.lost + lost))
  {
    hide TrackInv;
    SumUpdate(r.tracks, (t: Track) => t.lost, writer, t);
    var r' := r.(tracks := r.tracks[writer := t], lost := r.lost + lost);
    forall i | i in r'.queued
      ensures i.sn in TrackOf(r', i.writer).got
    {
      assert i.sn in TrackOf(r, i.writer).got;
    }
  }

  /** Queueing an item whose key was never queued before. */
  lemma AddQueued(r: ReaderState, item: Item, nowMs: nat)
    requires ReaderInv(r) && item.sn in TrackOf(r, item.writer).got
    requires forall i | i in r.queued :: (i.writer, i.sn) != (item.writer, item.sn)
    ensures ReaderInv(Push(r, item, nowMs))
  {
    hide TrackInv, Swept, Bounded;
    QueueGrows(r, item, nowMs);
  }

  lemma ReceivedKeeps(r: ReaderState, writer: Guid, sn: nat)
    requires ReaderInv(r)
    ensures var r', t, t' := Received(r, writer, sn), TrackOf(r, writer), OnData(TrackOf(r, writer), sn);
            && ReaderInv(r') && TrackOf(r', writer) == t'
            && (forall w | w != writer :: TrackOf(r', w) == TrackOf(r, w))
            && t'.rx == Enqueue(t.rx, sn).rx
            && Enqueue(t.rx, sn).accepted == (sn > t.rx.last && sn !in t.got)
            && (Enqueue(t.rx, sn).accepted ==> sn in t'.got)
            && (Enqueue(t.rx, sn).hole <==> HoleBelow(t, sn))
  {
    hide OnData, Enqueue, TrackInv;
    var t := TrackOf(r, writer);
    TracksInv(r, writer);
    DataKeeps(t, sn);
    HoleSeen(t, sn);
    SetTrack(r, writer, OnData(t, sn), Enqueue(t.rx, sn).lost);
  }

  lemma HoleSeen(t: Track, sn: nat)
    requires TrackInv(t)
    ensures Enqueue(t.rx, sn).hole <==> HoleBelow(t, sn)
  {
    EnqueueRefines(t.rx, t.got, sn);
  }

  lemma NewKey(r: ReaderState, writer: Guid, sn: nat)
    requires ReaderInv(r) && sn !in TrackOf(r, writer).got
    ensures forall i | i in r.queued :: (i.writer, i.sn) != (writer, sn)
  {
    forall i | i in r.queued
      ensures (i.writer, i.sn) != (writer, sn)
    {
      assert i.sn in TrackOf(r, i.writer).got;
    }
  }

  /** A new seq within the window, with a seq missing below it. */
  predicate HoleBelow(t: Track, sn: nat) {
    t.rx.last + 1 < sn <= t.rx.last + 64 && sn !in t.got
  }

  /** Delivering an item: it is queued exactly when it is new and not expired,
      only its writer's track moves, and the invariant is kept. */
  lemma DeliverKeeps(r: ReaderState, item: Item, nowMs: nat)
    requires ReaderInv(r)
    ensures var (r', queued, hole) := Deliver(r, item, nowMs);
            && ReaderInv(r') && r'.qos == r.qos
            && TrackOf(r', item.writer) == OnData(TrackOf(r, item.writer), item.sn)
            && (forall w | w != item.writer :: TrackOf(r', w) == TrackOf(r, w))
            && r'.queued == (if queued then r.queued + [item] else r.queued)
            && (queued <==> item.sn > TrackOf(r, item.writer).rx.last &&
                            item.sn !in TrackOf(r, item.writer).got &&
                            !LifespanExpired(item.lifespanMs, item.pubMs, nowMs))
            && (hole <==> HoleBelow(TrackOf(r, item.writer), item.sn))
  {
    hide OnData, Enqueue, ReaderInv;
    ReceivedKeeps(r, item.writer, item.sn);
    if Enqueue(TrackOf(r, item.writer).rx, item.sn).accepted {
      NewKey(r, item.writer, item.sn);
      AddQueued(Received(r, item.writer, item.sn), item, nowMs);
    }
  }

  lemma QueueGrows(r: ReaderState, item: Item, nowMs: nat)
    requires SubSeq(r.taken + r.queue, r.queued)
    ensures SubSeq(r.taken + Swept(Bounded(r.qos, r.queue + [item]), nowMs), r.queued + [item])
  {
    hide SubSeq, Swept;
    var q := r.queue + [item];
    var b := Bounded(r.qos, q);
    SubSeqSnoc(r.taken + r.queue, r.queued, item);
    assert r.taken + r.queue + [item] == r.taken + q;
    TailIsSubSeq(r.taken, q, |q| - |b|);
    SweptIsSubSeq(b, nowMs, r.taken);
    SubSeqTrans(r.taken + Swept(b, nowMs), r.taken + b, r.taken + q);
    SubSeqTrans(r.taken + Swept(b, nowMs), r.taken + q, r.queued + [item]);
  }

  lemma SkipKeeps(r: ReaderState, writer: Guid, end: nat)
    requires ReaderInv(r)
    ensures var r' := Skip(r, writer, end);
            && ReaderInv(r') && r'.qos == r.qos && r'.queued == r.queued
            && TrackOf(r', writer) == OnGap(TrackOf(r, writer), end)
            && forall w | w != writer :: TrackOf(r', w) == TrackOf(r, w)
  {
    hide OnGap, SkipTo, TrackInv;
    var t := TrackOf(r, writer);
    TracksInv(r, writer);
    GapKeeps(t, end);
    SetTrack(r, writer, OnGap(t, end), if t.joined then SkipTo(t.rx, end).1 else 0);
  }

  lemma GapMovesRx(r: ReaderState, writer: Guid, end: nat)
    requires ReaderInv(r)
    ensures var t := TrackOf(r, writer);
            && t.joined == (writer in r.tracks)
            && OnGap(t, end).rx == if t.joined then SkipTo(t.rx, end).0 else Rx(end, 0)
  {
  }

  lemma TakeKeeps(r: ReaderState, nowMs: nat)
    requires ReaderInv(r)
    ensures ReaderInv(SweepQueue(r, nowMs))
    ensures var (r', item) := Take(r, nowMs);
            && ReaderInv(r') && r'.tracks == r.tracks && r'.queued == r.queued && r'.qos == r.qos
            && (item.Some? ==> item.value in r.queued && r'.taken == r.taken + [item.value])
  {
    hide SubSeq, Swept, TrackInv;
    var q := Swept(r.queue, nowMs);
    SweptIsSubSeq(r.queue, nowMs, r.taken);
    SubSeqTrans(r.taken + q, r.taken + r.queue, r.queued);
    if q != [] {
      assert r.taken + [q[0]] + q[1..] == r.taken + q;
      SubSeqElements(r.taken + q, r.queued);
      assert q[0] in r.taken + q;
    }
  }

  /** What is taken and still queued is in arrival order and holds each
      (writer, seq) at most once. */
  lemma DeliveredOnce(r: ReaderState)
    requires ReaderInv(r)
    ensures Distinct(r.taken + r.queue, (i: Item) => (i.writer, i.sn))
    ensures forall i | i in r.taken + r.queue :: i in r.queued
  {
    SubSeqDistinct(r.taken + r.queue, r.queued, (i: Item) => (i.writer, i.sn));
    SubSeqElements(r.taken + r.queue, r.queued);
  }

  /** The lost count over all writers: the seqs below each baseline that never
      arrived, plus the window bits that jumps passed over. */
  lemma LostCountLedger(r: ReaderState)
    requires ReaderInv(r)
    ensures r.lost == SumBy(r.tracks, (t: Track) => |Missing(t.got, t.base, t.rx.last)|)
                      + SumBy(r.tracks, (t: Track) => t.jumpBits)
  {
    forall w | w in r.tracks
      ensures var t := r.tracks[w]; t.lost == |Missing(t.got, t.base, t.rx.last)| + t.jumpBits
    {
      var t := r.tracks[w];
      MissingCount(t.got, t.base, t.rx.last);
    }
    SumAdd(r.tracks, (t: Track) => t.lost, (t: Track) => |Missing(t.got, t.base, t.rx.last)|,
           (t: Track) => t.jumpBits);
  }

  // ---- the class ----

  class Reader {
    const qos: Qos
    var rx: map<Guid, Rx>
    var queue: seq<Item>
    var lostCount: nat
    ghost var tracks: map<Guid, Track>
    ghost var queued: seq<Item>
    ghost var taken: seq<Item>

    ghost function State(): ReaderState
      reads this
    {
      ReaderState(qos, tracks, lostCount, queue, queued, taken)
    }

    ghost predicate Valid()
      reads this
    {
      && ReaderInv(State())
      && rx.Keys == tracks.Keys
      && forall w | w in rx :: rx[w] == tracks[w].rx
    }

    constructor (qos: Qos)
      ensures Valid() && State() == Fresh(qos)
    {
      this.qos := qos;
      rx, queue, lostCount := map[], [], 0;
      tracks, queued, taken := map[], [], [];
    }

    /** `enqueue` without the callback. */
    method EnqueueSample(item: Item, nowMs: nat) returns (queuedNow: bool, hole: bool)
      requires Valid()
      modifies this
      ensures Valid() && (State(), queuedNow, hole) == Deliver(old(State()), item, nowMs)
    {
      hide OnData, Enqueue, ReaderInv, Swept;
      DeliverKeeps(State(), item, nowMs);
      var accepted;
      accepted, hole := Register(item.writer, item.sn);
      queuedNow := accepted && !LifespanExpired(item.lifespanMs, item.pubMs, nowMs);
      if queuedNow {
        PushItem(item, nowMs);
      }
    }

    method Register(writer: Guid, sn: nat) returns (accepted: bool, hole: bool)
      requires Valid()
      modifies `rx, `lostCount, `tracks
      ensures Valid() && State() == Received(old(State()), writer, sn)
      ensures var o := Enqueue(TrackOf(old(State()), writer).rx, sn); accepted == o.accepted && hole == o.hole
    {
      hide OnData, Enqueue, ReaderInv;
      ReceivedKeeps(State(), writer, sn);
      ghost var t := TrackOf(State(), writer);
      var st := if writer in rx then rx[writer] else Rx(0, 0);
      var lost;
      st, accepted, lost, hole := Advance(st, sn);
      rx := rx[writer := st];
      lostCount := lostCount + lost;
      tracks := tracks[writer := OnData(t, sn)];
    }

    method PushItem(item: Item, nowMs: nat)
      modifies `queue, `queued
      ensures queue == Swept(Bounded(qos, old(queue) + [item]), nowMs)
      ensures queued == old(queued) + [item]
    {
      queued := queued + [item];
      queue := queue + [item];
      ghost var grown := queue;
      if qos.history == KEEP_LAST {
        var depth := if qos.depth >= 1 then qos.depth else 1;
        while |queue| > depth
          invariant queued == old(queued) + [item]
          invariant Bounded(qos, queue) == Bounded(qos, grown)
        {
          queue := queue[1..];
        }
      }
      SweepExpired(nowMs);
    }

    /** `sweep_expired_locked`: erase expired items where they stand. */
    method SweepExpired(nowMs: nat)
      modifies `queue
      ensures queue == Swept(old(queue), nowMs)
    {
      var k := 0;
      ghost var todo := queue;
      while k < |queue|
        invariant k <= |queue| && queue[k..] == todo
        invariant queue[..k] + Swept(todo, nowMs) == Swept(old(queue), nowMs)
        decreases |queue| - k
      {
        var kept, x, rest := queue[..k], queue[k], queue[k + 1..];
        assert todo == [x] + rest;
        assert kept + ([x] + Swept(rest, nowMs)) == kept + [x] + Swept(rest, nowMs);
        if LifespanExpired(x.lifespanMs, x.pubMs, nowMs) {
          queue := kept + rest;
        } else {
          assert queue[..k + 1] == kept + [x];
          k := k + 1;
        }
        todo := rest;
      }
    }

    method TakeSample(nowMs: nat) returns (item: Option<Item>)
      requires Valid()
      modifies this
      ensures Valid() && (State(), item) == Take(old(State()), nowMs)
    {
      hide ReaderInv, Swept;
      TakeKeeps(State(), nowMs);
      SweepExpired(nowMs);
      if queue == [] { return None; }
      item := Some(queue[0]);
      taken := taken + [queue[0]];
      queue := queue[1..];
    }

    method CurrentNack(writer: Guid) returns (base: nat, bitmap: nat)
      requires Valid()
      ensures (base, bitmap) == NackState(State(), writer)
    {
      if writer !in rx { return 1, 0; }
      return rx[writer].last + 1, rx[writer].window;
    }

    method ApplyGap(writer: Guid, gapStart: nat, gapEnd: nat)
      requires Valid()
      modifies this
      ensures Valid() && State() == Skip(old(State()), writer, gapEnd)
    {
      hide OnGap, SkipTo, ReaderInv;
      ghost var r := State();
      SkipKeeps(r, writer, gapEnd);
      GapMovesRx(r, writer, gapEnd);
      ghost var t := TrackOf(r, writer);
      if writer !in rx {
        rx := rx[writer := Rx(gapEnd, 0)];
      } else {
        var st := rx[writer];
        var lost;
        st, lost := Skipped(st, gapEnd);
        rx := rx[writer := st];
        lostCount := lostCount + lost;
      }
      tracks := tracks[writer := OnGap(t, gapEnd)];
    }
  }

  /** The receive-state part of `apply_gap`, with its counting loop. */
  method Skipped(st: Rx, gapEnd: nat) returns (rx: Rx, lost: nat)
    ensures (rx, lost) == SkipTo(st, gapEnd)
  {
    if gapEnd <= st.last { return st, 0; }
    var span := gapEnd - st.last;
    var received := 0;
    var tracked := Min(span, 64);
    for i := 0 to tracked
      invariant received == PopCount(st.window, i)
    {
      if Bit(st.window, i) { received := received + 1; }
    }
    lost := span - received;
    rx := Rx(gapEnd, if span >= 64 then 0 else Shr(st.window, span));
  }

  /** The receive-state part of `enqueue`, with its absorbing loop. */
  method Advance(st: Rx, sn: nat) returns (rx: Rx, accepted: bool, lost: nat, hole: bool)
    ensures Outcome(rx, accepted, lost, hole) == Enqueue(st, sn)
  {
    rx, lost, hole := st, 0, false;
    if sn <= st.last { return rx, false, lost, hole; }
    var offset := sn - st.last - 1;
    if offset >= 64 {
      lost := offset;
      rx := Rx(sn, 0);
    } else if offset > 0 {
      if Bit(st.window, offset) { return rx, false, lost, hole; }
      rx := Rx(st.last, SetBit(st.window, offset));
      hole := true;
    } else {
      var alreadyReceived := Bit(st.window, 0);
      var last: nat, window: nat := st.last + 1, Shr(st.window, 1);
      while Bit(window, 0)
        invariant Slide(Rx(last, window)) == Slide(Rx(st.last + 1, Shr(st.window, 1)))
        decreases window
      {
        ShrOne(window);
        last, window := last + 1, Shr(window, 1);
      }
      rx := Rx(last, window);
      if alreadyReceived { return rx, false, lost, hole; }
    }
    return rx, true, lost, hole;
  }
}
