/** The writer side: the bounded history of published samples and the answer to
    a NACK. */
module Writers {
  import opened Base
  import opened Words

  datatype Sample = Sample(sn: nat, pubMs: nat, pubUs: nat, payload: Bytes)

  const KEEP_ALL_CAP: nat := 256

  function Cap(qos: Qos): nat {
    if qos.history == KEEP_ALL then KEEP_ALL_CAP else Max(qos.depth, 1)
  }

  predicate Caches(qos: Qos) {
    qos.reliability == RELIABLE || qos.durability == TRANSIENT_LOCAL
  }

  function DropExpired(lifespanMs: nat, h: seq<Sample>, nowMs: nat): seq<Sample> {
    if h != [] && LifespanExpired(lifespanMs, h[0].pubMs, nowMs) then DropExpired(lifespanMs, h[1..], nowMs) else h
  }

  function Trim(h: seq<Sample>, cap: nat): seq<Sample> {
    if |h| > cap then h[|h| - cap..] else h
  }

  /** The history after `cache_sample`, or None when a full KEEP_ALL history
      rejects the sample. */
  function Cache(qos: Qos, h: seq<Sample>, s: Sample, nowMs: nat): Option<seq<Sample>> {
    if !Caches(qos) then Some(h)
    else if qos.history == KEEP_ALL && |h| >= KEEP_ALL_CAP then None
    else Some(DropExpired(qos.lifespanMs, Trim(h + [s], Cap(qos)), nowMs))
  }

  /** A writer with everything it ever published in `log`. */
  datatype WriterState = WriterState(qos: Qos, sn: nat, history: seq<Sample>, log: seq<Sample>)

  /** The locked part of `write_sample`: claim the next seq unless the history
      rejects the sample. */
  function Publish(w: WriterState, payload: Bytes, pubUs: nat, nowMs: nat): (WriterState, bool) {
    var s := Sample(w.sn + 1, pubUs / 1000, pubUs, payload);
    match Cache(w.qos, w.history, s, nowMs)
    case None => (w, false)
    case Some(h) => (w.(sn := w.sn + 1, history := h, log := w.log + [s]), true)
  }

  /** How many of the published samples are no longer held. */
  function Evicted(w: WriterState): int { |w.log| - |w.history| }

  /** The history is the tail of what was published: empty, or a contiguous run
      of seqs ending at the writer's seq. */
  predicate WriterInv(w: WriterState) {
    && |w.log| == w.sn
    && (forall i | 0 <= i < |w.log| :: w.log[i].sn == i + 1 && w.log[i].pubMs == w.log[i].pubUs / 1000)
    && |w.history| <= |w.log|
    && w.history == w.log[|w.log| - |w.history|..]
    && |w.history| <= Cap(w.qos)
    && (!Caches(w.qos) ==> w.history == [])
  }

  /** Publication times never decrease with the seq. */
  predicate Monotone(log: seq<Sample>) {
    forall i, j | 0 <= i < j < |log| :: log[i].pubUs <= log[j].pubUs
  }

  lemma {:induction false} DropExpiredIsTail(lifespanMs: nat, h: seq<Sample>, nowMs: nat)
    ensures var d := DropExpired(lifespanMs, h, nowMs); |d| <= |h| && d == h[|h| - |d|..]
    decreases |h|
  {
    if h != [] && LifespanExpired(lifespanMs, h[0].pubMs, nowMs) {
      DropExpiredIsTail(lifespanMs, h[1..], nowMs);
    }
  }

  /** Publishing keeps the history a tail of the log; a rejected write changes
      nothing, and an accepted one takes the next seq without a hole. */
  lemma PublishKeeps(w: WriterState, payload: Bytes, pubUs: nat, nowMs: nat)
    requires WriterInv(w)
    ensures var (w', ok) := Publish(w, payload, pubUs, nowMs);
            && WriterInv(w') && Evicted(w) <= Evicted(w') && w'.qos == w.qos
            && (ok ==> w'.sn == w.sn + 1 && w'.log == w.log + [Sample(w.sn + 1, pubUs / 1000, pubUs, payload)])
            && (!ok ==> w' == w && w.qos.history == KEEP_ALL && |w.history| == KEEP_ALL_CAP)
  {
    if Caches(w.qos) {
      CacheIsTail(w.qos, w.log, w.history, Sample(w.sn + 1, pubUs / 1000, pubUs, payload), nowMs);
    }
  }

  /** Appending, trimming and sweeping leave a tail of the published samples. */
  lemma CacheIsTail(qos: Qos, log: seq<Sample>, h: seq<Sample>, s: Sample, nowMs: nat)
    requires Caches(qos) && |h| <= |log| && h == log[|log| - |h|..]
    ensures var h' := Cache(qos, h, s, nowMs);
            h'.Some? ==>
              && |h'.value| <= Cap(qos) && |h'.value| <= |h| + 1
              && h'.value == (log + [s])[|log| + 1 - |h'.value|..]
  {
    hide LifespanExpired, Cap, Caches;
    GrownIsTail(log, h, s);
    KeptIsTail(qos, log + [s], h + [s], nowMs);
  }

  lemma KeptIsTail(qos: Qos, log: seq<Sample>, grown: seq<Sample>, nowMs: nat)
    requires |grown| <= |log| && grown == log[|log| - |grown|..]
    ensures var kept := DropExpired(qos.lifespanMs, Trim(grown, Cap(qos)), nowMs);
            |kept| <= Cap(qos) && |kept| <= |grown| && kept == log[|log| - |kept|..]
  {
    var trimmed := Trim(grown, Cap(qos));
    TrimIsTail(grown, Cap(qos));
    DropExpiredIsTail(qos.lifespanMs, trimmed, nowMs);
    hide DropExpired, Trim, Cap;
    TailOfTail(log, grown, trimmed);
    TailOfTail(log, trimmed, DropExpired(qos.lifespanMs, trimmed, nowMs));
  }

  lemma GrownIsTail(log: seq<Sample>, h: seq<Sample>, s: Sample)
    requires |h| <= |log| && h == log[|log| - |h|..]
    ensures h + [s] == (log + [s])[|log| - |h|..]
  {
  }

  lemma TrimIsTail(h: seq<Sample>, cap: nat)
    ensures var t := Trim(h, cap); |t| <= cap && |t| <= |h| && t == h[|h| - |t|..]
  {
  }

  lemma TailOfTail(log: seq<Sample>, h: seq<Sample>, h': seq<Sample>)
    requires |h'| <= |h| <= |log| && h == log[|log| - |h|..] && h' == h[|h| - |h'|..]
    ensures h' == log[|log| - |h'|..]
  {
  }

  /** KEEP_ALL without lifespan never evicts: the history is everything ever
      published, and once it is full every later write is rejected. */
  lemma KeepAllKeepsAll(w: WriterState, payload: Bytes, pubUs: nat, nowMs: nat)
    requires WriterInv(w) && Caches(w.qos) && w.qos.history == KEEP_ALL && w.qos.lifespanMs == 0
    requires w.history == w.log
    ensures var (w', ok) := Publish(w, payload, pubUs, nowMs);
            && w'.history == w'.log && w'.sn <= KEEP_ALL_CAP
            && (ok <==> w.sn < KEEP_ALL_CAP)
            && (!ok ==> w' == w)
  {
  }

  // ---- what the history holds ----

  /** A caching writer misses a published sample only if as many newer ones as its
      depth allows exist, or the sample has expired; and it never holds more. */
  ghost predicate HeldOk(w: WriterState, nowMs: nat) {
    && (forall j | 0 <= j < |w.log| - |w.history| && Caches(w.qos) ::
          OutOfDepth(w, j) || LifespanExpired(w.qos.lifespanMs, w.log[j].pubMs, nowMs))
    && |w.history| <= if w.qos.history == KEEP_ALL then 256 else Max(w.qos.depth, 1)
  }

  predicate OutOfDepth(w: WriterState, j: nat) {
    w.qos.history != KEEP_ALL && |w.log| - j > Max(w.qos.depth, 1)
  }

  /** What the sweep drops had expired, and what it leaves starts with a sample that
      has not. */
  lemma {:induction false} DroppedHadExpired(lifespanMs: nat, h: seq<Sample>, nowMs: nat)
    ensures var d := DropExpired(lifespanMs, h, nowMs);
            && |d| <= |h|
            && (forall i | 0 <= i < |h| - |d| :: LifespanExpired(lifespanMs, h[i].pubMs, nowMs))
            && (d != [] ==> !LifespanExpired(lifespanMs, d[0].pubMs, nowMs))
    decreases |h|
  {
    if h != [] && LifespanExpired(lifespanMs, h[0].pubMs, nowMs) {
      DroppedHadExpired(lifespanMs, h[1..], nowMs);
    }
  }

  lemma HeldLater(w: WriterState, nowMs: nat, later: nat)
    requires HeldOk(w, nowMs) && nowMs <= later
    ensures HeldOk(w, later)
  {
  }

  /** Publishing keeps it so, and an accepted sample leaves no expired one in
      front. */
  lemma PublishHolds(w: WriterState, payload: Bytes, pubUs: nat, nowMs: nat)
    requires WriterInv(w) && HeldOk(w, nowMs)
    ensures var (w', ok) := Publish(w, payload, pubUs, nowMs);
            && HeldOk(w', nowMs)
            && (ok && w'.history != [] ==> !LifespanExpired(w.qos.lifespanMs, w'.history[0].pubMs, nowMs))
  {
    hide LifespanExpired, DropExpired, Trim;
    var s := Sample(w.sn + 1, pubUs / 1000, pubUs, payload);
    PublishKeeps(w, payload, pubUs, nowMs);
    if Caches(w.qos) && !(w.qos.history == KEEP_ALL && |w.history| >= KEEP_ALL_CAP) {
      var log, grown := w.log + [s], w.history + [s];
      GrownIsTail(w.log, w.history, s);
      KeptHolds(w, log, grown, nowMs);
    }
  }

  lemma KeptHolds(w: WriterState, log: seq<Sample>, grown: seq<Sample>, nowMs: nat)
    requires Caches(w.qos) && |grown| <= |log| && grown == log[|log| - |grown|..]
    requires w.qos.history == KEEP_ALL ==> |grown| <= KEEP_ALL_CAP
    requires |log| == |w.log| + 1 && w.log == log[..|w.log|] && |grown| == |w.history| + 1 && HeldOk(w, nowMs)
    ensures var kept := DropExpired(w.qos.lifespanMs, Trim(grown, Cap(w.qos)), nowMs);
            && HeldOk(WriterState(w.qos, w.sn + 1, kept, log), nowMs)
            && (kept != [] ==> !LifespanExpired(w.qos.lifespanMs, kept[0].pubMs, nowMs))
  {
    hide LifespanExpired;
    var trimmed := Trim(grown, Cap(w.qos));
    TrimIsTail(grown, Cap(w.qos));
    DroppedHadExpired(w.qos.lifespanMs, trimmed, nowMs);
    var kept := DropExpired(w.qos.lifespanMs, trimmed, nowMs);
    forall j | 0 <= j < |log| - |kept|
      ensures OutOfDepth(WriterState(w.qos, w.sn + 1, kept, log), j) ||
              LifespanExpired(w.qos.lifespanMs, log[j].pubMs, nowMs)
    {
      if j < |log| - |grown| {
        assert log[j] == w.log[j];
      } else if j >= |log| - |trimmed| {
        assert log[j] == trimmed[j - (|log| - |trimmed|)];
      }
    }
  }

  // ---- answering a NACK ----

  function Find(h: seq<Sample>, sn: nat): Option<Sample> {
    if h == [] then None else if h[0].sn == sn then Some(h[0]) else Find(h[1..], sn)
  }

  /** What the requesting reader may get: with `clamp`, nothing published before
      its birth. */
  predicate Entitled(s: Sample, clamp: bool, birthUs: nat) {
    !(clamp && s.pubUs < birthUs)
  }

  predicate WillNeverSend(h: seq<Sample>, sn: nat, clamp: bool, birthUs: nat) {
    match Find(h, sn)
    case Some(e) => !Entitled(e, clamp, birthUs)
    case None => h != [] && sn < h[0].sn
  }

  /** The samples resent for the first n requested positions, in seq order. */
  function Resends(h: seq<Sample>, base: nat, bitmap: nat, clamp: bool, birthUs: nat, n: nat): seq<Sample> {
    if n == 0 then []
    else
      var found := Find(h, base + n - 1);
      Resends(h, base, bitmap, clamp, birthUs, n - 1)
      + if !Bit(bitmap, n - 1) && found.Some? && Entitled(found.value, clamp, birthUs) then [found.value] else []
  }

  /** The highest of the first n requested positions that will never be sent; 0
      when there is none. */
  function GapEnd(h: seq<Sample>, base: nat, bitmap: nat, clamp: bool, birthUs: nat, n: nat): nat {
    if n == 0 then 0
    else if !Bit(bitmap, n - 1) && WillNeverSend(h, base + n - 1, clamp, birthUs) then base + n - 1
    else GapEnd(h, base, bitmap, clamp, birthUs, n - 1)
  }

  ghost predicate Contiguous(h: seq<Sample>, last: nat) {
    |h| <= last && forall i | 0 <= i < |h| :: h[i].sn == last - |h| + 1 + i
  }

  lemma HistoryContiguous(w: WriterState)
    requires WriterInv(w)
    ensures Contiguous(w.history, w.sn)
    ensures forall i | 0 <= i < |w.history| :: w.history[i] == w.log[Evicted(w) + i]
  {
  }

  lemma {:induction false} FindContiguous(h: seq<Sample>, last: nat, sn: nat)
    requires Contiguous(h, last)
    ensures Find(h, sn) == if last - |h| < sn <= last then Some(h[sn - (last - |h|) - 1]) else None
    decreases |h|
  {
    if h != [] {
      FindContiguous(h[1..], last, sn);
    }
  }

  lemma {:induction false} ResendIff(h: seq<Sample>, last: nat, base: nat, bitmap: nat, clamp: bool, birthUs: nat,
                                     n: nat, e: Sample)
    requires Contiguous(h, last)
    ensures e in Resends(h, base, bitmap, clamp, birthUs, n) <==>
            e in h && base <= e.sn < base + n && !Bit(bitmap, e.sn - base) && Entitled(e, clamp, birthUs)
    decreases n
  {
    if n > 0 {
      ResendIff(h, last, base, bitmap, clamp, birthUs, n - 1, e);
      FindContiguous(h, last, base + n - 1);
      if e in h { InHistory(h, last, e); }
    }
  }

  lemma InHistory(h: seq<Sample>, last: nat, e: Sample)
    requires Contiguous(h, last) && e in h
    ensures last - |h| < e.sn <= last && h[e.sn - (last - |h|) - 1] == e
  {
  }

  /** The GAP range ends at a requested seq that will never be sent, and no
      higher requested seq is such. */
  lemma {:induction false} GapEndIsHighest(h: seq<Sample>, base: nat, bitmap: nat, clamp: bool, birthUs: nat, n: nat)
    ensures var end := GapEnd(h, base, bitmap, clamp, birthUs, n);
            && (end > 0 ==>
                  base <= end < base + n && !Bit(bitmap, end - base) && WillNeverSend(h, end, clamp, birthUs))
            && (forall i: nat | i < n && !Bit(bitmap, i) ::
                  WillNeverSend(h, base + i, clamp, birthUs) ==> base + i <= end)
    decreases n
  {
    if n > 0 {
      GapEndIsHighest(h, base, bitmap, clamp, birthUs, n - 1);
    }
  }

  /** With a non-empty history and publication times that do not decrease, what
      will never be sent is a prefix. */
  lemma NeverSentIsPrefix(h: seq<Sample>, last: nat, clamp: bool, birthUs: nat, lo: nat, hi: nat)
    requires Contiguous(h, last) && h != [] && Monotone(h)
    requires lo <= hi && WillNeverSend(h, hi, clamp, birthUs)
    ensures hi <= last && WillNeverSend(h, lo, clamp, birthUs)
  {
    FindContiguous(h, last, lo);
    FindContiguous(h, last, hi);
  }

  /** Each unreceived seq among the 64 requested is answered by exactly one of a
      resend and the GAP when the writer has published it, and by neither when
      it has not; no resent seq lies in the GAP. */
  lemma AnswerPartition(h: seq<Sample>, last: nat, base: nat, bitmap: nat, clamp: bool, birthUs: nat, i: nat)
    requires Contiguous(h, last) && h != [] && Monotone(h)
    requires i < 64 && !Bit(bitmap, i) && base + i > 0
    ensures var sn := base + i;
            var resent := exists e :: e in Resends(h, base, bitmap, clamp, birthUs, 64) && e.sn == sn;
            var gapped := sn <= GapEnd(h, base, bitmap, clamp, birthUs, 64);
            && (sn <= last ==> resent != gapped)
            && (sn > last ==> !resent && !gapped)
            && (gapped <==> WillNeverSend(h, sn, clamp, birthUs))
  {
    var sn := base + i;
    var end := GapEnd(h, base, bitmap, clamp, birthUs, 64);
    GapEndIsHighest(h, base, bitmap, clamp, birthUs, 64);
    FindContiguous(h, last, sn);
    if sn <= end { NeverSentIsPrefix(h, last, clamp, birthUs, sn, end); }
    forall e | e in h
      ensures e.sn == sn ==> Find(h, sn) == Some(e)
    {
      InHistory(h, last, e);
    }
    forall e
      ensures e in Resends(h, base, bitmap, clamp, birthUs, 64) && e.sn == sn <==>
              Find(h, sn) == Some(e) && Entitled(e, clamp, birthUs)
    {
      ResendIff(h, last, base, bitmap, clamp, birthUs, 64, e);
    }
    if Find(h, sn).Some? && Entitled(Find(h, sn).value, clamp, birthUs) {
      assert Find(h, sn).value in Resends(h, base, bitmap, clamp, birthUs, 64);
    }
  }

  // ---- the class ----

  class Writer {
    const qos: Qos
    var sn: nat
    var history: seq<Sample>
    ghost var log: seq<Sample>

    ghost function State(): WriterState
      reads this
    {
      WriterState(qos, sn, history, log)
    }

    ghost predicate Valid()
      reads this
    {
      WriterInv(State())
    }

    constructor (qos: Qos)
      ensures Valid() && State() == WriterState(qos, 0, [], [])
    {
      this.qos := qos;
      sn, history, log := 0, [], [];
    }

    /** `cache_sample`. */
    method CacheSample(s: Sample, nowMs: nat) returns (ok: bool)
      modifies `history
      ensures var h := Cache(qos, old(history), s, nowMs);
              ok == h.Some? && history == if ok then h.value else old(history)
    {
      if qos.reliability != RELIABLE && qos.durability != TRANSIENT_LOCAL { return true; }
      var cap := if qos.history == KEEP_ALL then KEEP_ALL_CAP else Max(qos.depth, 1);
      if qos.history == KEEP_ALL && |history| >= cap { return false; }
      history := history + [s];
      ghost var grown := history;
      while |history| > cap
        invariant cap > 0 && Trim(history, cap) == Trim(grown, cap)
      {
        history := history[1..];
      }
      ghost var trimmed := history;
      while history != [] && LifespanExpired(qos.lifespanMs, history[0].pubMs, nowMs)
        invariant DropExpired(qos.lifespanMs, history, nowMs) == DropExpired(qos.lifespanMs, trimmed, nowMs)
        decreases |history|
      {
        history := history[1..];
      }
      return true;
    }

    /** The locked part of `write_sample`. */
    method Write(payload: Bytes, pubUs: nat, nowMs: nat) returns (ok: bool)
      requires Valid()
      modifies this
      ensures Valid() && (State(), ok) == Publish(old(State()), payload, pubUs, nowMs)
    {
      PublishKeeps(State(), payload, pubUs, nowMs);
      var s := Sample(sn + 1, pubUs / 1000, pubUs, payload);
      ok := CacheSample(s, nowMs);
      if !ok { return; }
      sn := sn + 1;
      log := log + [s];
    }

    /** The inner scan of `handle_acknack`. */
    method Search(wanted: nat) returns (found: Option<Sample>)
      ensures found == Find(history, wanted)
    {
      for k := 0 to |history|
        invariant Find(history, wanted) == Find(history[k..], wanted)
      {
        var entry := history[k];
        assert history[k..][0] == entry && history[k..][1..] == history[k + 1..];
        if entry.sn == wanted { return Some(entry); }
      }
      return None;
    }

    /** The scan of `handle_acknack` over the 64 requested positions. */
    method AnswerNack(base: nat, bitmap: nat, clamp: bool, birthUs: nat) returns (resend: seq<Sample>, gapEnd: nat)
      requires Valid()
      ensures resend == Resends(history, base, bitmap, clamp, birthUs, 64)
      ensures gapEnd == GapEnd(history, base, bitmap, clamp, birthUs, 64)
    {
      hide Find;
      FirstHeld();
      resend, gapEnd := [], 0;
      var firstAvail := if history == [] then 0 else history[0].sn;
      for i := 0 to 64
        invariant resend == Resends(history, base, bitmap, clamp, birthUs, i)
        invariant gapEnd == GapEnd(history, base, bitmap, clamp, birthUs, i)
      {
        var wanted := base + i;
        if Bit(bitmap, i) { continue; }
        var found := Search(wanted);
        if found.Some? {
          if clamp && found.value.pubUs < birthUs {
            gapEnd := wanted;
          } else {
            resend := resend + [found.value];
          }
        } else if firstAvail > 0 && wanted < firstAvail {
          gapEnd := wanted;
        }
      }
    }

    lemma FirstHeld()
      requires Valid()
      ensures history != [] ==> history[0].sn > 0
    {
      HistoryContiguous(State());
    }
  }
}
