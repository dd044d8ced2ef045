/** Splitting a sample into frames and putting it together again. */
module Fragments {
  import BigEndian
  import opened Base
  import opened Frames
  import opened Intervals

  // ---- the fragmenter ----

  /** DATA_FRAG frames for payload[offset..], `capacity` bytes at a time. */
  function Chunks(flags: nat, writer: Guid, sn: nat, pubMs: nat, payload: Bytes, offset: nat, capacity: nat): seq<Frame>
    requires capacity > 0
    decreases |payload| - offset
  {
    if offset >= |payload| then []
    else
      var len := Min(capacity, |payload| - offset);
      [DataFrag(flags, writer, sn, pubMs, |payload|, offset, payload[offset..offset + len])]
      + Chunks(flags, writer, sn, pubMs, payload, offset + len, capacity)
  }

  const FRAME_OVERHEAD: nat := HEADER_SIZE + FRAG_FIXED

  /** The frames `Fragmenter::fragment` produces for one sample. */
  function Fragment(flags: nat, writer: Guid, sn: nat, pubMs: nat, payload: Bytes, maxPayload: nat): seq<Frame> {
    if HEADER_SIZE + DATA_FIXED + |payload| <= maxPayload then [Data(flags, writer, sn, pubMs, payload)]
    else if maxPayload <= FRAME_OVERHEAD then []
    else Chunks(flags, writer, sn, pubMs, payload, 0, maxPayload - FRAME_OVERHEAD)
  }

  /** `f` carries a piece of the sample (writer, sn, payload). */
  predicate PieceOf(f: Frame, writer: Guid, sn: nat, payload: Bytes) {
    && f.DataFrag? && f.writer == writer && f.sn == sn && f.total == |payload|
    && f.offset + |f.chunk| <= |payload|
    && f.chunk == payload[f.offset..f.offset + |f.chunk|]
  }

  /** From `offset` on, the chunks tile the payload without gap or overlap. */
  ghost predicate Tiles(fs: seq<Frame>, offset: nat, payload: Bytes)
    decreases |fs|
  {
    if fs == [] then offset >= |payload|
    else
      && fs[0].DataFrag? && fs[0].offset == offset && |fs[0].chunk| > 0
      && Tiles(fs[1..], offset + |fs[0].chunk|, payload)
  }

  lemma {:induction false} ChunksTile(flags: nat, writer: Guid, sn: nat, pubMs: nat, payload: Bytes, offset: nat,
                                      capacity: nat)
    requires capacity > 0 && offset <= |payload|
    ensures var fs := Chunks(flags, writer, sn, pubMs, payload, offset, capacity);
            && Tiles(fs, offset, payload)
            && (forall k | 0 <= k < |fs| ::
                  PieceOf(fs[k], writer, sn, payload) && 0 < |fs[k].chunk| <= capacity &&
                  fs[k].flags == flags && fs[k].pubMs == pubMs)
            && (forall k | 0 <= k < |fs| - 1 :: |fs[k].chunk| == capacity)
            && (|payload| - offset > capacity ==> |fs| >= 2)
    decreases |payload| - offset
  {
    if offset < |payload| {
      var len := Min(capacity, |payload| - offset);
      ChunksTile(flags, writer, sn, pubMs, payload, offset + len, capacity);
      var rest := Chunks(flags, writer, sn, pubMs, payload, offset + len, capacity);
      var fs := Chunks(flags, writer, sn, pubMs, payload, offset, capacity);
      assert fs[1..] == rest;
      assert forall k | 1 <= k < |fs| :: fs[k] == rest[k - 1];
      if |payload| - offset > capacity { assert |rest| >= 1; }
    }
  }

  /** What a split promises: every frame fits the transport, all but the last of a
      split fill it, and each carries the sample; either one DATA frame with the whole payload, or at least two
      non-empty chunks tiling it, or nothing when the transport is too narrow. */
  lemma FragmentShape(flags: nat, writer: Guid, sn: nat, pubMs: nat, payload: Bytes, maxPayload: nat)
    requires flags < U16 && sn < U64 && pubMs < U64 && HEADER_SIZE + FRAG_FIXED + |payload| < U32
    ensures var fs := Fragment(flags, writer, sn, pubMs, payload, maxPayload);
            && (forall k | 0 <= k < |fs| :: Fits(fs[k]) && |Encode(fs[k], [])| <= maxPayload)
            && (fs == [Data(flags, writer, sn, pubMs, payload)] <==> 48 + |payload| <= maxPayload)
            && (forall k | 0 <= k < |fs| - 1 :: |Encode(fs[k], [])| == maxPayload)
            && (fs == [] <==> maxPayload <= FRAME_OVERHEAD && HEADER_SIZE + DATA_FIXED + |payload| > maxPayload)
            && (|fs| == 1 ==> fs == [Data(flags, writer, sn, pubMs, payload)])
            && (|fs| >= 2 ==>
                  && Tiles(fs, 0, payload)
                  && forall k | 0 <= k < |fs| ::
                       PieceOf(fs[k], writer, sn, payload) && fs[k].chunk != [] && fs[k].pubMs == pubMs &&
                       fs[k].flags == flags)
  {
    if maxPayload > FRAME_OVERHEAD && HEADER_SIZE + DATA_FIXED + |payload| > maxPayload {
      ChunksTile(flags, writer, sn, pubMs, payload, 0, maxPayload - FRAME_OVERHEAD);
    }
  }

  lemma ChunksCons(fs: seq<Frame>, f: Frame, rest: seq<Frame>)
    ensures fs + ([f] + rest) == (fs + [f]) + rest
  {
  }

  /** The loop of `Fragmenter::fragment`; the uint32 cast of the capacity never
      truncates, so the loop makes progress. */
  method FragmentSample(flags: nat, writer: Guid, sn: nat, pubMs: nat, payload: Bytes, maxPayload: nat)
    returns (frames: seq<Frame>)
    requires |payload| < U32
    ensures frames == Fragment(flags, writer, sn, pubMs, payload, maxPayload)
  {
    if HEADER_SIZE + DATA_FIXED + |payload| <= maxPayload {
      return [Data(flags, writer, sn, pubMs, payload)];
    }
    if maxPayload <= FRAME_OVERHEAD { return []; }
    var capacity := (maxPayload - HEADER_SIZE - FRAG_FIXED) % U32;
    assert capacity == maxPayload - FRAME_OVERHEAD;
    frames := ChunkLoop(flags, writer, sn, pubMs, payload, capacity);
  }

  method ChunkLoop(flags: nat, writer: Guid, sn: nat, pubMs: nat, payload: Bytes, capacity: nat)
    returns (frames: seq<Frame>)
    requires capacity > 0
    ensures frames == Chunks(flags, writer, sn, pubMs, payload, 0, capacity)
  {
    frames := [];
    var offset := 0;
    ghost var all := Chunks(flags, writer, sn, pubMs, payload, 0, capacity);
    ghost var rest := all;
    assert frames + rest == all;
    while offset < |payload|
      invariant offset <= |payload|
      invariant rest == Chunks(flags, writer, sn, pubMs, payload, offset, capacity)
      invariant frames + rest == all
    {
      var len := Min(capacity, |payload| - offset);
      var frame := DataFrag(flags, writer, sn, pubMs, |payload|, offset, payload[offset..offset + len]);
      ghost var rest' := Chunks(flags, writer, sn, pubMs, payload, offset + len, capacity);
      assert rest == [frame] + rest';
      ChunksCons(frames, frame, rest');
      rest := rest';
      frames := frames + [frame];
      offset := offset + len;
    }
    assert rest == [];
  }

  /** Some chunk covers every byte of the payload. */
  lemma {:induction false} TilesCover(fs: seq<Frame>, offset: nat, payload: Bytes, x: nat) returns (k: nat)
    requires Tiles(fs, offset, payload) && offset <= x < |payload|
    ensures k < |fs| && fs[k].DataFrag? && fs[k].offset <= x < fs[k].offset + |fs[k].chunk|
    decreases |fs|
  {
    if x < offset + |fs[0].chunk| {
      k := 0;
    } else {
      k := TilesCover(fs[1..], offset + |fs[0].chunk|, payload, x);
      k := k + 1;
    }
  }

  // ---- the reassembler ----

  type Key = (Guid, nat)

  datatype Partial = Partial(total: nat, buffer: Bytes, intervals: seq<Interval>, updated: nat)

  predicate Sound(p: Partial) {
    |p.buffer| == p.total > 0 && Normal(p.intervals) && Within(p.intervals, p.total)
  }

  predicate AllSound(ps: map<Key, Partial>) {
    forall k | k in ps :: Sound(ps[k])
  }

  /** The uint32 range test of `add_fragment`. */
  predicate InRange(total: nat, offset: nat, len: nat) {
    total > 0 && (offset + len) % U32 <= total
  }

  /** The 32-bit sum is exact on everything `decode_data_frag` lets through; in
      general it is exact unless the sum wraps to at most `total`. */
  lemma RangeTestExactIff(total: nat, offset: nat, len: nat)
    requires 0 < total < U32 && offset < U32 && len < U32
    ensures (InRange(total, offset, len) <==> offset + len <= total)
            <==> (offset + len < U32 || total < offset + len - U32)
  {
  }

  lemma DecodedIsInRange(buf: Bytes)
    ensures var d := DecodeDataFrag(buf);
            d.Some? ==>
              var f := d.value.0;
              f.DataFrag? && f.offset + |f.chunk| <= f.total < U32 &&
              (InRange(f.total, f.offset, |f.chunk|) <==> f.total > 0)
  {
    var body := BodyOf(buf, DATA_FRAG, FRAG_FIXED);
    if body.Some? { BigEndian.Bounds(body.value[32..36]); }
  }

  function Zeros(n: nat): (s: Bytes)
    ensures |s| == n
  {
    seq(n, _ => 0)
  }

  function Absorb(p: Partial, offset: nat, chunk: Bytes, now: nat): Partial
    requires offset + |chunk| <= |p.buffer|
  {
    Partial(p.total, p.buffer[..offset] + chunk + p.buffer[offset + |chunk|..],
            Merge(p.intervals, offset, offset + |chunk|), now)
  }

  /** What `add_fragment` needs of its caller: a fragment that passes the range
      test lies within its total. */
  predicate Addable(f: Frame) {
    f.DataFrag? && (InRange(f.total, f.offset, |f.chunk|) ==> f.offset + |f.chunk| <= f.total)
  }

  /** The partial a fragment goes into: the existing one, or a fresh one. */
  function Target(ps: map<Key, Partial>, f: Frame, now: nat): (p: Partial)
    requires AllSound(ps) && f.DataFrag? && f.total > 0
    ensures Sound(p)
  {
    var key := (f.writer, f.sn);
    if key in ps then ps[key] else Partial(f.total, Zeros(f.total), [], now)
  }

  /** A complete partial leaves the table, an incomplete one stays. */
  function Settle(ps: map<Key, Partial>, key: Key, p: Partial): (map<Key, Partial>, Option<Bytes>) {
    if p.intervals == [(0, p.total)] then (ps - {key}, Some(p.buffer)) else (ps[key := p], None)
  }

  /** `Reassembler::add_fragment`: the new table and the completed message. */
  function AddFragment(ps: map<Key, Partial>, f: Frame, now: nat): (map<Key, Partial>, Option<Bytes>)
    requires AllSound(ps) && Addable(f)
  {
    if !InRange(f.total, f.offset, |f.chunk|) then (ps, None)
    else
      var p := Target(ps, f, now);
      if p.total != f.total then (ps, None)
      else Settle(ps, (f.writer, f.sn), Absorb(p, f.offset, f.chunk, now))
  }

  function Sweep(ps: map<Key, Partial>, now: int, timeout: nat): map<Key, Partial> {
    map k | k in ps && now - ps[k].updated <= timeout :: ps[k]
  }

  function DropWriter(ps: map<Key, Partial>, writer: Guid): map<Key, Partial> {
    map k | k in ps && k.0 != writer :: ps[k]
  }

  lemma AddFragmentSound(ps: map<Key, Partial>, f: Frame, now: nat)
    requires AllSound(ps) && Addable(f)
    ensures AllSound(AddFragment(ps, f, now).0)
    ensures forall k | k != (f.writer, f.sn) ::
              (k in ps <==> k in AddFragment(ps, f, now).0) &&
              (k in ps ==> AddFragment(ps, f, now).0[k] == ps[k])
  {
    var key := (f.writer, f.sn);
    if InRange(f.total, f.offset, |f.chunk|) {
      var p := Target(ps, f, now);
      if p.total == f.total { AbsorbSound(p, f.offset, f.chunk, now); }
    }
  }

  lemma AbsorbSound(p: Partial, offset: nat, chunk: Bytes, now: nat)
    requires Sound(p) && offset + |chunk| <= p.total
    ensures Sound(Absorb(p, offset, chunk, now))
  {
    MergeNormal(p.intervals, offset, offset + |chunk|, -1, p.total);
  }

  // ---- what a partial knows about its sample ----

  /** Every covered byte of the buffer is the sample's. */
  ghost predicate Agrees(p: Partial, payload: Bytes) {
    && Sound(p) && p.total == |payload|
    && forall x: nat | x < p.total :: Covers(p.intervals, x) ==> p.buffer[x] == payload[x]
  }

  lemma AbsorbAgrees(p: Partial, payload: Bytes, f: Frame, now: nat)
    requires f.DataFrag? && Agrees(p, payload) && PieceOf(f, f.writer, f.sn, payload)
    ensures var p' := Absorb(p, f.offset, f.chunk, now);
            && Agrees(p', payload)
            && (forall x: nat :: Covers(p'.intervals, x) <==>
                  Covers(p.intervals, x) || f.offset <= x < f.offset + |f.chunk|)
  {
    var p' := Absorb(p, f.offset, f.chunk, now);
    var begin, end := f.offset, f.offset + |f.chunk|;
    MergeNormal(p.intervals, begin, end, -1, p.total);
    forall x: nat
      ensures Covers(p'.intervals, x) <==> Covers(p.intervals, x) || begin <= x < end
      ensures x < p.total && Covers(p'.intervals, x) ==> p'.buffer[x] == payload[x]
    {
      MergeCovers(p.intervals, begin, end, x);
    }
  }

  /** Byte x was covered already or is covered by the fragment. */
  predicate CoveredWith(ps: map<Key, Partial>, f: Frame, x: nat)
    requires f.DataFrag?
  {
    ((f.writer, f.sn) in ps && Covers(ps[(f.writer, f.sn)].intervals, x)) || f.offset <= x < f.offset + |f.chunk|
  }

  /** A piece of the sample either completes it, and then the output is the
      payload and every byte had been covered, or leaves a partial that still
      agrees and covers the piece as well. */
  lemma AddPiece(ps: map<Key, Partial>, f: Frame, payload: Bytes, now: nat)
    requires AllSound(ps) && Addable(f) && |payload| > 0 && PieceOf(f, f.writer, f.sn, payload)
    requires var key := (f.writer, f.sn); key in ps ==> Agrees(ps[key], payload)
    ensures var key := (f.writer, f.sn);
            var (ps', out) := AddFragment(ps, f, now);
            match out
            case Some(b) =>
              && b == payload && key !in ps'
              && (forall x: nat | x < |payload| :: CoveredWith(ps, f, x))
            case None =>
              && key in ps' && Agrees(ps'[key], payload)
              && (exists x: nat :: x < |payload| && !Covers(ps'[key].intervals, x))
              && (forall x: nat :: Covers(ps'[key].intervals, x) <==> CoveredWith(ps, f, x))
  {
    var key := (f.writer, f.sn);
    var p := Target(ps, f, now);
    assert Agrees(p, payload);
    AbsorbAgrees(p, payload, f, now);
    var p' := Absorb(p, f.offset, f.chunk, now);
    CompleteIff(p'.intervals, p'.total);
    if p'.intervals == [(0, f.total)] {
      assert p'.buffer == payload;
    }
  }

  // ---- runs of the reassembler ----

  datatype Event = Add(f: Frame, now: nat) | Expire(now: nat) | Forget(writer: Guid)

  predicate Feedable(es: seq<Event>) {
    forall k | 0 <= k < |es| && es[k].Add? :: Addable(es[k].f)
  }

  /** The table after a run and everything it put out. */
  function Run(es: seq<Event>, timeout: nat): (r: (map<Key, Partial>, seq<(Key, Bytes)>))
    requires Feedable(es)
    ensures AllSound(r.0)
  {
    if es == [] then (map[], [])
    else
      var (ps, outs) := Run(es[..|es| - 1], timeout);
      match es[|es| - 1]
      case Add(f, now) =>
        AddFragmentSound(ps, f, now);
        var (ps', out) := AddFragment(ps, f, now);
        (ps', if out.Some? then outs + [((f.writer, f.sn), out.value)] else outs)
      case Expire(now) => (Sweep(ps, now, timeout), outs)
      case Forget(writer) => (DropWriter(ps, writer), outs)
  }

  predicate Feeds(e: Event, key: Key) {
    e.Add? && e.f.DataFrag? && (e.f.writer, e.f.sn) == key
  }

  /** All fragments of the key are pieces of the payload, from whatever splits. */
  ghost predicate OnlyPieces(es: seq<Event>, key: Key, payload: Bytes) {
    forall k | 0 <= k < |es| && Feeds(es[k], key) :: PieceOf(es[k].f, key.0, key.1, payload)
  }

  /** In any order, with duplicates, with chunks of different splits, and
      interleaved with other samples, sweeps and drops, the only thing ever put
      out for the key is the payload. */
  lemma {:induction false} OutputsOnlyThePayload(es: seq<Event>, timeout: nat, key: Key, payload: Bytes)
    requires Feedable(es) && |payload| > 0 && OnlyPieces(es, key, payload)
    ensures var (ps, outs) := Run(es, timeout);
            && (key in ps ==> Agrees(ps[key], payload))
            && (forall k | 0 <= k < |outs| && outs[k].0 == key :: outs[k].1 == payload)
  {
    if es != [] {
      var pre := es[..|es| - 1];
      OutputsOnlyThePayload(pre, timeout, key, payload);
      var ps := Run(pre, timeout).0;
      match es[|es| - 1]
      case Add(f, now) =>
        if (f.writer, f.sn) == key {
          AddPiece(ps, f, payload, now);
        } else {
          AddFragmentSound(ps, f, now);
        }
      case Expire(_) =>
      case Forget(_) =>
    }
  }

  predicate FeedsByte(e: Event, key: Key, x: nat) {
    Feeds(e, key) && e.f.offset <= x < e.f.offset + |e.f.chunk|
  }

  /** Some fragment of the key covers byte x. */
  ghost predicate ByteFed(es: seq<Event>, key: Key, x: nat) {
    exists k :: 0 <= k < |es| && FeedsByte(es[k], key, x)
  }

  ghost predicate Emitted(outs: seq<(Key, Bytes)>, key: Key, payload: Bytes) {
    exists k :: 0 <= k < |outs| && outs[k] == (key, payload)
  }

  // ---- what a partial covers ----

  predicate Holds(es: seq<Event>, timeout: nat, key: Key, n: nat)
    requires Feedable(es) && n <= |es|
  {
    key in Run(es[..n], timeout).0
  }

  /** Some fragment fed after the key was last taken out of the table, by
      completion, sweep or drop, covers byte x. */
  ghost predicate FedSince(es: seq<Event>, timeout: nat, key: Key, x: nat)
    requires Feedable(es)
  {
    exists k :: 0 <= k < |es| && FeedsByte(es[k], key, x) && HeldFrom(es, timeout, key, k + 1)
  }

  ghost predicate HeldFrom(es: seq<Event>, timeout: nat, key: Key, from: nat)
    requires Feedable(es)
  {
    forall n | from <= n <= |es| :: Holds(es, timeout, key, n)
  }

  lemma HoldsPrefix(es: seq<Event>, timeout: nat, key: Key, n: nat)
    requires Feedable(es) && n < |es|
    ensures Holds(es, timeout, key, n) == Holds(es[..|es| - 1], timeout, key, n)
  {
    hide Run;
    assert es[..n] == es[..|es| - 1][..n];
  }

  lemma HeldSnoc(es: seq<Event>, timeout: nat, key: Key, from: nat)
    requires Feedable(es) && es != [] && from <= |es|
    ensures HeldFrom(es, timeout, key, from) <==>
            Holds(es, timeout, key, |es|) && (from == |es| || HeldFrom(es[..|es| - 1], timeout, key, from))
  {
    hide Holds;
    var pre := es[..|es| - 1];
    forall n | 0 <= n < |es|
      ensures Holds(es, timeout, key, n) == Holds(pre, timeout, key, n)
    {
      HoldsPrefix(es, timeout, key, n);
    }
  }

  lemma FedSinceSnoc(es: seq<Event>, timeout: nat, key: Key, x: nat)
    requires Feedable(es) && es != []
    ensures FedSince(es, timeout, key, x) <==>
            && Holds(es, timeout, key, |es|)
            && (FeedsByte(es[|es| - 1], key, x) || FedSince(es[..|es| - 1], timeout, key, x))
  {
    hide HeldFrom, Holds, FeedsByte;
    var n := |es| - 1;
    var pre := es[..n];
    HeldSnoc(es, timeout, key, |es|);
    if FedSince(es, timeout, key, x) {
      var k :| 0 <= k < |es| && FeedsByte(es[k], key, x) && HeldFrom(es, timeout, key, k + 1);
      HeldSnoc(es, timeout, key, k + 1);
      if k < n { assert FeedsByte(pre[k], key, x); }
    }
    if Holds(es, timeout, key, |es|) {
      if FeedsByte(es[n], key, x) {
        assert HeldFrom(es, timeout, key, n + 1);
      } else if FedSince(pre, timeout, key, x) {
        var k :| 0 <= k < n && FeedsByte(pre[k], key, x) && HeldFrom(pre, timeout, key, k + 1);
        HeldSnoc(es, timeout, key, k + 1);
        assert FeedsByte(es[k], key, x);
      }
    }
  }

  /** In every run, whatever is swept, dropped or fed in between, a partial covers
      exactly the bytes fed since its key was last taken out of the table. */
  lemma {:induction false} CoversWhatWasFed(es: seq<Event>, timeout: nat, key: Key, payload: Bytes, x: nat)
    requires Feedable(es) && |payload| > 0 && OnlyPieces(es, key, payload)
    ensures var ps := Run(es, timeout).0;
            FedSince(es, timeout, key, x) <==> key in ps && Covers(ps[key].intervals, x)
  {
    hide Covers, AddFragment, Agrees, FedSince, FeedsByte;
    if es == [] {
      NothingFed(timeout, key, x);
    } else {
      var n := |es| - 1;
      CoversWhatWasFed(es[..n], timeout, key, payload, x);
      OutputsOnlyThePayload(es[..n], timeout, key, payload);
      FedSinceSnoc(es, timeout, key, x);
      assert es[..|es|] == es;
      StepCovers(es, timeout, key, payload, x);
    }
  }

  lemma NothingFed(timeout: nat, key: Key, x: nat)
    ensures !FedSince([], timeout, key, x)
  {
  }

  lemma StepCovers(es: seq<Event>, timeout: nat, key: Key, payload: Bytes, x: nat)
    requires Feedable(es) && es != [] && |payload| > 0 && OnlyPieces(es, key, payload)
    requires var ps := Run(es[..|es| - 1], timeout).0; key in ps ==> Agrees(ps[key], payload)
    ensures var ps, ps' := Run(es[..|es| - 1], timeout).0, Run(es, timeout).0;
            key in ps' ==>
              (Covers(ps'[key].intervals, x) <==>
                 FeedsByte(es[|es| - 1], key, x) || (key in ps && Covers(ps[key].intervals, x)))
  {
    hide Covers, AddFragment, Agrees, PieceOf;
    var ps := Run(es[..|es| - 1], timeout).0;
    var e := es[|es| - 1];
    if e.Add? {
      AddFragmentSound(ps, e.f, e.now);
      if Feeds(e, key) { AddPiece(ps, e.f, payload, e.now); }
    }
  }

  /** `add_fragment` completes exactly when every byte of the payload was fed since
      the key was last taken out of the table, the fragment itself included. */
  lemma CompletesIff(es: seq<Event>, timeout: nat, key: Key, payload: Bytes, f: Frame, now: nat)
    requires Feedable(es) && |payload| > 0 && OnlyPieces(es, key, payload)
    requires Addable(f) && (f.writer, f.sn) == key && PieceOf(f, key.0, key.1, payload)
    ensures AddFragment(Run(es, timeout).0, f, now).1 ==
            if forall x: nat | x < |payload| :: FedSince(es, timeout, key, x) || FeedsByte(Add(f, now), key, x)
            then Some(payload) else None
  {
    hide Covers, AddFragment, Agrees, FedSince, Run;
    var ps := Run(es, timeout).0;
    OutputsOnlyThePayload(es, timeout, key, payload);
    AddPiece(ps, f, payload, now);
    forall x: nat
      ensures FedSince(es, timeout, key, x) <==> key in ps && Covers(ps[key].intervals, x)
    {
      CoversWhatWasFed(es, timeout, key, payload, x);
    }
    var (ps', out) := AddFragment(ps, f, now);
    match out
    case None =>
      var x: nat :| x < |payload| && !Covers(ps'[key].intervals, x);
      assert !FedSince(es, timeout, key, x) && !FeedsByte(Add(f, now), key, x);
    case Some(_) =>
      forall x: nat | x < |payload|
        ensures FedSince(es, timeout, key, x) || FeedsByte(Add(f, now), key, x)
      {
        assert CoveredWith(ps, f, x);
      }
  }

  /** No sweep and no drop takes the key out. */
  ghost predicate NeverForgotten(es: seq<Event>, timeout: nat, key: Key)
    requires Feedable(es)
  {
    forall k | 0 <= k < |es| && !es[k].Add? :: Holds(es, timeout, key, k) ==> Holds(es, timeout, key, k + 1)
  }

  lemma ForgottenPrefix(es: seq<Event>, timeout: nat, key: Key)
    requires Feedable(es) && es != [] && NeverForgotten(es, timeout, key)
    ensures NeverForgotten(es[..|es| - 1], timeout, key)
    ensures !es[|es| - 1].Add? && key in Run(es[..|es| - 1], timeout).0 ==> key in Run(es, timeout).0
  {
    hide Run;
    var pre := es[..|es| - 1];
    assert es[..|es|] == es;
    assert Holds(es, timeout, key, |pre|) == (key in Run(pre, timeout).0);
    assert Holds(es, timeout, key, |es|) == (key in Run(es, timeout).0);
    hide Holds;
    forall k | 0 <= k < |pre| && !pre[k].Add?
      ensures Holds(pre, timeout, key, k) ==> Holds(pre, timeout, key, k + 1)
    {
      assert !es[k].Add?;
      HoldsPrefix(es, timeout, key, k);
      HoldsPrefix(es, timeout, key, k + 1);
    }
  }

  lemma StillEmitted(es: seq<Event>, timeout: nat, key: Key, payload: Bytes)
    requires Feedable(es) && es != [] && Emitted(Run(es[..|es| - 1], timeout).1, key, payload)
    ensures Emitted(Run(es, timeout).1, key, payload)
  {
    hide AddFragment;
    var outs, outs' := Run(es[..|es| - 1], timeout).1, Run(es, timeout).1;
    var k :| 0 <= k < |outs| && outs[k] == (key, payload);
    assert outs'[k] == (key, payload);
  }

  /** One event more: every byte fed is still remembered, unless the sample came
      out. */
  lemma NotYetEmitted(es: seq<Event>, timeout: nat, key: Key, payload: Bytes)
    requires Feedable(es) && es != [] && |payload| > 0 && OnlyPieces(es, key, payload) &&
             NeverForgotten(es, timeout, key)
    requires var pre := es[..|es| - 1];
             && (exists x: nat :: x < |payload| && !ByteFed(pre, key, x))
             && forall x: nat | x < |payload| :: ByteFed(pre, key, x) ==> FedSince(pre, timeout, key, x)
    ensures || Emitted(Run(es, timeout).1, key, payload)
            || ((exists x: nat :: x < |payload| && !ByteFed(es, key, x)) &&
                forall x: nat | x < |payload| :: ByteFed(es, key, x) ==> FedSince(es, timeout, key, x))
  {
    hide Covers, AddFragment, Agrees, FedSince, PieceOf;
    var n := |es| - 1;
    var pre, e := es[..n], es[n];
    var (ps, outs) := Run(pre, timeout);
    OutputsOnlyThePayload(pre, timeout, key, payload);
    ForgottenPrefix(es, timeout, key);
    if Feeds(e, key) {
      AddPiece(ps, e.f, payload, e.now);
      if AddFragment(ps, e.f, e.now).1.Some? {
        assert Run(es, timeout).1[|outs|] == (key, payload);
      } else {
        Remembered(pre, es, timeout, key, payload);
        var x: nat :| x < |payload| && !Covers(Run(es, timeout).0[key].intervals, x);
        CoversWhatWasFed(es, timeout, key, payload, x);
      }
    } else {
      var y: nat :| y < |payload| && !ByteFed(pre, key, y);
      FedSnoc(es, key, y);
      if e.Add? { AddFragmentSound(ps, e.f, e.now); }
      if key in ps {
        Remembered(pre, es, timeout, key, payload);
      } else {
        forall x: nat | x < |payload|
          ensures !ByteFed(es, key, x)
        {
          FedSnoc(es, key, x);
          CoversWhatWasFed(pre, timeout, key, payload, x);
        }
      }
    }
  }

  lemma Remembered(pre: seq<Event>, es: seq<Event>, timeout: nat, key: Key, payload: Bytes)
    requires Feedable(es) && es != [] && pre == es[..|es| - 1] && key in Run(es, timeout).0
    requires forall x: nat | x < |payload| :: ByteFed(pre, key, x) ==> FedSince(pre, timeout, key, x)
    ensures forall x: nat | x < |payload| :: ByteFed(es, key, x) ==> FedSince(es, timeout, key, x)
  {
    hide FedSince, FeedsByte, Run;
    assert es[..|es|] == es;
    forall x: nat | x < |payload|
      ensures ByteFed(es, key, x) ==> FedSince(es, timeout, key, x)
    {
      FedSnoc(es, key, x);
      FedSinceSnoc(es, timeout, key, x);
    }
  }

  /** As long as no sweep and no drop takes the key out, a run puts the payload
      out as soon as every byte of it has been fed, whatever happens in between. */
  lemma {:induction false} CoveredIsEmitted(es: seq<Event>, timeout: nat, key: Key, payload: Bytes)
    requires Feedable(es) && |payload| > 0 && OnlyPieces(es, key, payload) && NeverForgotten(es, timeout, key)
    ensures var outs := Run(es, timeout).1;
            || Emitted(outs, key, payload)
            || ((exists x: nat :: x < |payload| && !ByteFed(es, key, x)) &&
                forall x: nat | x < |payload| :: ByteFed(es, key, x) ==> FedSince(es, timeout, key, x))
  {
    hide Covers, AddFragment, Agrees, FedSince, FeedsByte, PieceOf;
    if es == [] {
      assert 0 < |payload| && !ByteFed(es, key, 0);
    } else {
      var n := |es| - 1;
      var pre := es[..n];
      assert NeverForgotten(pre, timeout, key) by { ForgottenPrefix(es, timeout, key); }
      CoveredIsEmitted(pre, timeout, key, payload);
      if Emitted(Run(pre, timeout).1, key, payload) {
        StillEmitted(es, timeout, key, payload);
      } else {
        NotYetEmitted(es, timeout, key, payload);
      }
    }
  }

  lemma FedSnoc(es: seq<Event>, key: Key, x: nat)
    requires es != []
    ensures ByteFed(es, key, x) <==> ByteFed(es[..|es| - 1], key, x) || FeedsByte(es[|es| - 1], key, x)
  {
    var n := |es| - 1;
    if ByteFed(es[..n], key, x) {
      var k :| 0 <= k < n && FeedsByte(es[..n][k], key, x);
      assert FeedsByte(es[k], key, x);
    }
    if ByteFed(es, key, x) {
      var k :| 0 <= k < |es| && FeedsByte(es[k], key, x);
      assert k < n ==> FeedsByte(es[..n][k], key, x);
    }
  }

  ghost predicate IsFed(es: seq<Event>, f: Frame) {
    exists i :: 0 <= i < |es| && es[i].Add? && es[i].f == f
  }

  /** The round trip: a run fed every frame of a split sample, in any order, among
      anything else and with sweeps and drops that leave it alone, puts out that
      sample and nothing else for it. */
  lemma FragmentRoundTrip(flags: nat, writer: Guid, sn: nat, pubMs: nat, payload: Bytes, maxPayload: nat,
                          es: seq<Event>, timeout: nat)
    requires Feedable(es) && NeverForgotten(es, timeout, (writer, sn))
    requires var fs := Fragment(flags, writer, sn, pubMs, payload, maxPayload);
             |fs| >= 2 && forall k | 0 <= k < |fs| :: IsFed(es, fs[k])
    requires OnlyPieces(es, (writer, sn), payload)
    ensures var outs := Run(es, timeout).1;
            && Emitted(outs, (writer, sn), payload)
            && forall k | 0 <= k < |outs| && outs[k].0 == (writer, sn) :: outs[k].1 == payload
  {
    hide Run, FedSince, NeverForgotten, Tiles;
    var key := (writer, sn);
    var fs := Fragment(flags, writer, sn, pubMs, payload, maxPayload);
    assert HEADER_SIZE + DATA_FIXED + |payload| > maxPayload > FRAME_OVERHEAD;
    ChunksTile(flags, writer, sn, pubMs, payload, 0, maxPayload - FRAME_OVERHEAD);
    OutputsOnlyThePayload(es, timeout, key, payload);
    CoveredIsEmitted(es, timeout, key, payload);
    forall x: nat | x < |payload|
      ensures ByteFed(es, key, x)
    {
      var k := TilesCover(fs, 0, payload, x);
      var i :| 0 <= i < |es| && es[i].Add? && es[i].f == fs[k];
      assert FeedsByte(es[i], key, x);
    }
  }

  // ---- sweeps and time ----

  /** When the key's last fragment was fed. */
  ghost function LastFed(es: seq<Event>, key: Key): Option<nat> {
    if es == [] then None
    else if Feeds(es[|es| - 1], key) then Some(es[|es| - 1].now)
    else LastFed(es[..|es| - 1], key)
  }

  /** A partial carries the time of the key's last fragment, and once the writer is
      dropped the key is gone. */
  lemma {:induction false} UpdatedWhenLastFed(es: seq<Event>, timeout: nat, key: Key, payload: Bytes)
    requires Feedable(es) && |payload| > 0 && OnlyPieces(es, key, payload)
    ensures var ps := Run(es, timeout).0;
            && (key in ps ==> LastFed(es, key) == Some(ps[key].updated))
            && (es != [] && es[|es| - 1] == Forget(key.0) ==> key !in ps)
  {
    if es != [] {
      var pre, e := es[..|es| - 1], es[|es| - 1];
      UpdatedWhenLastFed(pre, timeout, key, payload);
      OutputsOnlyThePayload(pre, timeout, key, payload);
      var ps := Run(pre, timeout).0;
      if e.Add? {
        if Feeds(e, key) {
          AddedNow(ps, e.f, payload, e.now);
        } else {
          AddFragmentSound(ps, e.f, e.now);
        }
      }
    }
  }

  lemma AddedNow(ps: map<Key, Partial>, f: Frame, payload: Bytes, now: nat)
    requires AllSound(ps) && Addable(f) && |payload| > 0 && PieceOf(f, f.writer, f.sn, payload)
    requires var key := (f.writer, f.sn); key in ps ==> Agrees(ps[key], payload)
    ensures var ps' := AddFragment(ps, f, now).0;
            (f.writer, f.sn) in ps' ==> ps'[(f.writer, f.sn)].updated == now
  {
  }

  /** At every sweep of the run, the key's last fragment is no older than the
      timeout. */
  ghost predicate SweptInTime(es: seq<Event>, timeout: nat, key: Key) {
    forall k | 0 <= k < |es| && es[k].Expire? ::
      var last := LastFed(es[..k], key);
      last.Some? ==> es[k].now - last.value <= timeout
  }

  /** Sweeps that come in time leave the key alone, so a sample whose fragments keep
      arriving within the timeout is put together, whatever else is swept. */
  lemma InTimeIsNeverForgotten(es: seq<Event>, timeout: nat, key: Key, payload: Bytes)
    requires Feedable(es) && |payload| > 0 && OnlyPieces(es, key, payload) && SweptInTime(es, timeout, key)
    requires forall k | 0 <= k < |es| :: es[k] != Forget(key.0)
    ensures NeverForgotten(es, timeout, key)
  {
    hide LastFed;
    forall k | 0 <= k < |es| && !es[k].Add?
      ensures Holds(es, timeout, key, k) ==> Holds(es, timeout, key, k + 1)
    {
      var pre := es[..k];
      UpdatedWhenLastFed(pre, timeout, key, payload);
      assert es[..k + 1][..k] == pre && es[..k + 1][k] == es[k];
    }
  }

  /** A sweep that comes more than the timeout after the key's last fragment takes
      it out, and so does dropping its writer. */
  lemma LateIsForgotten(es: seq<Event>, timeout: nat, key: Key, payload: Bytes)
    requires Feedable(es) && es != [] && |payload| > 0 && OnlyPieces(es, key, payload)
    requires var e, last := es[|es| - 1], LastFed(es[..|es| - 1], key);
             || e == Forget(key.0)
             || (e.Expire? && (last.Some? ==> e.now - last.value > timeout))
    ensures key !in Run(es, timeout).0
  {
    hide LastFed;
    UpdatedWhenLastFed(es[..|es| - 1], timeout, key, payload);
    UpdatedWhenLastFed(es, timeout, key, payload);
  }

  /** The round trip in time: fed every frame of a split sample, with no sweep later
      than the timeout after its last fragment so far and no drop of its writer, a
      run puts the sample out. */
  lemma TimelyRoundTrip(flags: nat, writer: Guid, sn: nat, pubMs: nat, payload: Bytes, maxPayload: nat,
                        es: seq<Event>, timeout: nat)
    requires Feedable(es) && SweptInTime(es, timeout, (writer, sn))
    requires forall k | 0 <= k < |es| :: es[k] != Forget(writer)
    requires var fs := Fragment(flags, writer, sn, pubMs, payload, maxPayload);
             |fs| >= 2 && forall k | 0 <= k < |fs| :: IsFed(es, fs[k])
    requires OnlyPieces(es, (writer, sn), payload)
    ensures Emitted(Run(es, timeout).1, (writer, sn), payload)
  {
    hide Run, SweptInTime, NeverForgotten, Tiles;
    SplitIsNotEmpty(flags, writer, sn, pubMs, payload, maxPayload);
    InTimeIsNeverForgotten(es, timeout, (writer, sn), payload);
    FragmentRoundTrip(flags, writer, sn, pubMs, payload, maxPayload, es, timeout);
  }

  lemma SplitIsNotEmpty(flags: nat, writer: Guid, sn: nat, pubMs: nat, payload: Bytes, maxPayload: nat)
    requires |Fragment(flags, writer, sn, pubMs, payload, maxPayload)| >= 2
    ensures |payload| > 0
  {
  }

  /** A fragment that is out of range or disagrees with the partial on the total
      changes nothing and completes nothing. */
  lemma BadFragment(ps: map<Key, Partial>, f: Frame, now: nat)
    requires AllSound(ps) && Addable(f)
    requires var key := (f.writer, f.sn);
             f.total == 0 || (f.offset + |f.chunk|) % U32 > f.total || (key in ps && ps[key].total != f.total)
    ensures AddFragment(ps, f, now) == (ps, None)
  {
  }

  /** A good fragment leaves its partial stamped with the time, if it leaves one. */
  lemma Stamped(ps: map<Key, Partial>, f: Frame, now: nat)
    requires AllSound(ps) && Addable(f)
    requires f.total > 0 && (f.offset + |f.chunk|) % U32 <= f.total
    ensures var key, ps' := (f.writer, f.sn), AddFragment(ps, f, now).0;
            key in ps' && (key in ps ==> ps[key].total == f.total) ==> ps'[key].updated == now
  {
  }

  // ---- the class ----

  /** Copy a fragment into a partial's buffer and merge its interval. */
  method Receive(p: Partial, f: Frame, now: nat) returns (p': Partial)
    requires Sound(p) && f.DataFrag? && f.offset + |f.chunk| <= p.total
    ensures p' == Absorb(p, f.offset, f.chunk, now)
  {
    var merged := MergeIn(p.intervals, f.offset, f.offset + |f.chunk|);
    p' := Partial(p.total, p.buffer[..f.offset] + f.chunk + p.buffer[f.offset + |f.chunk|..], merged, now);
  }

  class Reassembler {
    var partials: map<Key, Partial>
    const timeout: nat

    ghost predicate Valid()
      reads this
    {
      AllSound(partials)
    }

    constructor (timeout: nat := 5000)
      ensures Valid() && partials == map[] && this.timeout == timeout
    {
      this.timeout := timeout;
      partials := map[];
    }

    method Add(f: Frame, now: nat) returns (done: bool, out: Bytes)
      requires Valid() && Addable(f)
      modifies this
      ensures Valid()
      ensures var (ps, o) := AddFragment(old(partials), f, now);
              partials == ps && done == o.Some? && (done ==> out == o.value)
    {
      AddFragmentSound(partials, f, now);
      out := [];
      done := false;
      if f.total == 0 || (f.offset + |f.chunk|) % U32 > f.total { return; }
      var key := (f.writer, f.sn);
      var p := if key in partials then partials[key] else Partial(f.total, Zeros(f.total), [], now);
      assert p == Target(partials, f, now);
      if p.total != f.total { return; }
      p := Receive(p, f, now);
      if |p.intervals| == 1 && p.intervals[0].0 == 0 && p.intervals[0].1 == f.total {
        assert p.intervals == [(0, p.total)];
        done, out := true, p.buffer;
        partials := partials - {key};
      } else {
        partials := partials[key := p];
      }
    }

    method SweepExpired(now: nat) returns (dropped: nat)
      requires Valid()
      modifies this
      ensures Valid() && partials == Sweep(old(partials), now, timeout)
      ensures dropped + |partials| == |old(partials)|
    {
      hide Sound;
      dropped := 0;
      var todo := partials.Keys;
      while todo != {}
        invariant todo <= partials.Keys <= old(partials).Keys
        invariant forall k | k in partials :: partials[k] == old(partials)[k]
        invariant forall k | k in old(partials) && k !in todo :: k in partials <==>
                  now - old(partials)[k].updated <= timeout
        invariant dropped + |partials| == |old(partials)|
        decreases |todo|
      {
        var k :| k in todo;
        todo := todo - {k};
        if now - partials[k].updated > timeout {
          var less := partials - {k};
          assert less.Keys == partials.Keys - {k} && |less| == |less.Keys| == |partials| - 1;
          partials := less;
          dropped := dropped + 1;
        }
      }
      assert partials == Sweep(old(partials), now, timeout);
    }

    method DropAll(writer: Guid)
      requires Valid()
      modifies this
      ensures Valid() && partials == DropWriter(old(partials), writer)
    {
      hide Sound;
      var todo := partials.Keys;
      while todo != {}
        invariant todo <= partials.Keys <= old(partials).Keys
        invariant forall k | k in partials :: partials[k] == old(partials)[k]
        invariant forall k | k in old(partials) && k !in todo :: k in partials <==> k.0 != writer
        decreases |todo|
      {
        var k :| k in todo;
        todo := todo - {k};
        if k.0 == writer { partials := partials - {k}; }
      }
      assert partials == DropWriter(old(partials), writer);
    }
  }
}
