/** The reader's per-writer receive state: a baseline plus a 64-bit window of
    out-of-order receipts, and what it stands for: the unbounded set of
    sequence numbers accepted so far. */
module Window {
  import opened Base
  import opened Words

  /** Bit i of `window` says that seq `last + 1 + i` was received. */
  datatype Rx = Rx(last: nat, window: nat)

  /** What `ReaderImpl::enqueue` does to the receive state: the new state,
      whether the sample is new, what is added to the lost count, and whether a
      hole below the sample was noticed. */
  datatype Outcome = Outcome(rx: Rx, accepted: bool, lost: nat, hole: bool)

  /** The absorbing loop: move the baseline over contiguous receipts. */
  function Slide(rx: Rx): Rx
    decreases rx.window
  {
    if Bit(rx.window, 0) then
      ShrOne(rx.window);
      Slide(Rx(rx.last + 1, Shr(rx.window, 1)))
    else rx
  }

  predicate IsJump(rx: Rx, sn: nat) {
    sn >= rx.last + 65
  }

  function Enqueue(rx: Rx, sn: nat): Outcome {
    if sn <= rx.last then Outcome(rx, false, 0, false)
    else if IsJump(rx, sn) then Outcome(Rx(sn, 0), true, sn - rx.last - 1, false)
    else
      var offset := sn - rx.last - 1;
      if offset == 0 then
        Outcome(Slide(Rx(rx.last + 1, Shr(rx.window, 1))), !Bit(rx.window, 0), 0, false)
      else if Bit(rx.window, offset) then Outcome(rx, false, 0, false)
      else Outcome(Rx(rx.last, SetBit(rx.window, offset)), true, 0, true)
  }

  /** What `ReaderImpl::apply_gap` does to an existing receive state: the new
      state and what is added to the lost count. */
  function SkipTo(rx: Rx, end: nat): (Rx, nat) {
    if end <= rx.last then (rx, 0)
    else
      var span := end - rx.last;
      (Rx(end, if span >= 64 then 0 else Shr(rx.window, span)),
       span - PopCount(rx.window, Min(span, 64)))
  }

  // ---- the set of accepted sequence numbers ----

  /** `rx` is a faithful picture of the accepted set `got`. */
  ghost predicate Pictures(rx: Rx, got: set<nat>) {
    && rx.window < U64
    && (forall i: nat | i < 64 :: Bit(rx.window, i) <==> rx.last + 1 + i in got)
    && (forall s | s in got :: 1 <= s <= rx.last + 64)
  }

  lemma NoHighBit(w: nat, i: nat)
    requires w < U64 && 64 <= i
    ensures !Bit(w, i)
  {
    Pow64();
    HighBits(w, 64, i);
  }

  /** Moving the baseline by `n` and shifting the window by `n` loses nothing. */
  lemma ShiftPictures(rx: Rx, got: set<nat>, n: nat)
    requires Pictures(rx, got)
    ensures Pictures(Rx(rx.last + n, Shr(rx.window, n)), got)
    ensures n >= 64 ==> Shr(rx.window, n) == 0
  {
    ShrLe(rx.window, n);
    Pow64();
    if n >= 64 { ShrOut(rx.window, 64, n); }
    forall i: nat | i < 64
      ensures Bit(Shr(rx.window, n), i) <==> rx.last + n + 1 + i in got
    {
      ShrBit(rx.window, n, i);
      if n + i >= 64 {
        NoHighBit(rx.window, n + i);
      } else {
        assert Bit(rx.window, n + i) <==> rx.last + 1 + (n + i) in got;
      }
    }
  }

  /** The absorbing loop stops at the first sequence number not received. */
  lemma {:induction false} SlidePictures(rx: Rx, got: set<nat>)
    requires Pictures(rx, got)
    ensures Pictures(Slide(rx), got)
    ensures !Bit(Slide(rx).window, 0) && Slide(rx).last >= rx.last
    ensures forall s | rx.last < s <= Slide(rx).last :: s in got
    decreases rx.window
  {
    if Bit(rx.window, 0) {
      assert rx.last + 1 + 0 in got;
      ShiftPictures(rx, got, 1);
      ShrOne(rx.window);
      SlidePictures(Rx(rx.last + 1, Shr(rx.window, 1)), got);
    }
  }

  /** `enqueue` accepts a sequence number exactly when it lies above the
      baseline and is not in the accepted set, and the new state pictures the
      accepted set with it added. */
  lemma EnqueueRefines(rx: Rx, got: set<nat>, sn: nat)
    requires Pictures(rx, got)
    ensures var o := Enqueue(rx, sn);
            && o.accepted == (sn > rx.last && sn !in got)
            && Pictures(o.rx, if o.accepted then got + {sn} else got)
            && o.rx.last >= rx.last
            && (o.rx.last > rx.last ==> o.rx.last in got + {sn})
            && (o.lost > 0 ==> IsJump(rx, sn))
            && (o.hole <==> rx.last + 1 < sn <= rx.last + 64 && sn !in got)
            && (o.hole ==> o.accepted && o.rx.last == rx.last)
  {
    var o := Enqueue(rx, sn);
    var got' := got + {sn};
    if sn > rx.last {
      var offset := sn - rx.last - 1;
      if IsJump(rx, sn) {
        forall i: nat | i < 64
          ensures !Bit(0, i)
        {
          ZeroBits(i);
        }
      } else {
        assert Bit(rx.window, offset) <==> rx.last + 1 + offset in got;
        if offset == 0 {
          var next := Rx(rx.last + 1, Shr(rx.window, 1));
          ShiftPictures(rx, got, 1);
          assert Pictures(next, got') by {
            forall i: nat | i < 64
              ensures Bit(next.window, i) <==> next.last + 1 + i in got'
            {
              assert Bit(next.window, i) <==> next.last + 1 + i in got;
            }
          }
          SlidePictures(next, got');
          if !o.accepted { assert got' == got; }
        } else if o.accepted {
          SetBitPictures(rx, got, offset);
        }
      }
    }
  }

  lemma SetBitPictures(rx: Rx, got: set<nat>, offset: nat)
    requires Pictures(rx, got) && offset < 64
    ensures Pictures(Rx(rx.last, SetBit(rx.window, offset)), got + {rx.last + 1 + offset})
  {
    Pow64();
    SetBitFits(rx.window, offset, 64);
    forall i: nat | i < 64
      ensures Bit(SetBit(rx.window, offset), i) <==> rx.last + 1 + i in got + {rx.last + 1 + offset}
    {
      SetBitBit(rx.window, offset, i);
    }
  }

  // ---- counting ----

  /** How many of (lo, hi] are in `got`. */
  ghost function CountIn(got: set<nat>, lo: nat, hi: nat): nat
    decreases hi
  {
    if hi <= lo then 0 else CountIn(got, lo, hi - 1) + (if hi in got then 1 else 0)
  }

  ghost function Missing(got: set<nat>, lo: nat, hi: nat): set<nat> {
    set s | lo < s <= hi && s !in got
  }

  lemma {:induction false} MissingCount(got: set<nat>, lo: nat, hi: nat)
    requires lo <= hi
    ensures |Missing(got, lo, hi)| + CountIn(got, lo, hi) == hi - lo
    decreases hi
  {
    if lo == hi {
      assert Missing(got, lo, hi) == {};
    } else {
      MissingCount(got, lo, hi - 1);
      var less := Missing(got, lo, hi - 1);
      assert Missing(got, lo, hi) == if hi in got then less else less + {hi};
    }
  }

  lemma {:induction false} CountSplit(got: set<nat>, lo: nat, mid: nat, hi: nat)
    requires lo <= mid <= hi
    ensures CountIn(got, lo, hi) == CountIn(got, lo, mid) + CountIn(got, mid, hi)
    decreases hi
  {
    if mid < hi { CountSplit(got, lo, mid, hi - 1); }
  }

  /** Counting window bits counts receipts just above the baseline. */
  lemma {:induction false} PopCountIsCountIn(rx: Rx, got: set<nat>, n: nat)
    requires Pictures(rx, got) && n <= 64
    ensures PopCount(rx.window, n) == CountIn(got, rx.last, rx.last + n)
    decreases n
  {
    if n > 0 {
      PopCountIsCountIn(rx, got, n - 1);
      assert Bit(rx.window, n - 1) <==> rx.last + 1 + (n - 1) in got;
    }
  }

  lemma {:induction false} NothingAbove(got: set<nat>, lo: nat, hi: nat)
    requires forall s | s in got :: s <= lo
    ensures CountIn(got, lo, hi) == 0
    decreases hi
  {
    if lo < hi { NothingAbove(got, lo, hi - 1); }
  }

  lemma {:induction false} CountFrame(got: set<nat>, sn: nat, lo: nat, hi: nat)
    requires lo <= hi && (sn <= lo || hi < sn)
    ensures CountIn(got + {sn}, lo, hi) == CountIn(got, lo, hi)
    decreases hi
  {
    if lo < hi { CountFrame(got, sn, lo, hi - 1); }
  }

  /** Receipts in (last, end], whatever the span, are the window bits that
      `apply_gap` counts. */
  lemma WindowCount(rx: Rx, got: set<nat>, end: nat)
    requires Pictures(rx, got) && rx.last <= end
    ensures PopCount(rx.window, Min(end - rx.last, 64)) == CountIn(got, rx.last, end)
  {
    var span := end - rx.last;
    if span <= 64 {
      PopCountIsCountIn(rx, got, span);
    } else {
      PopCountIsCountIn(rx, got, 64);
      CountSplit(got, rx.last, rx.last + 64, end);
      NothingAbove(got, rx.last + 64, end);
    }
  }

  // ---- one reader's view of one writer, with its past ----

  /** The receive state together with what happened so far: whether the entry
      exists, the join baseline, the accepted set, the seqs a GAP made the
      reader count lost, the amounts window jumps added to the lost count, and
      the window bits that were set when those jumps happened. */
  datatype Track = Track(
    joined: bool, rx: Rx, base: nat, got: set<nat>,
    lost: nat, gapLost: set<nat>, jumpLost: nat, jumpBits: nat)

  const UNSEEN := Track(false, Rx(0, 0), 0, {}, 0, {}, 0, 0)

  function OnData(t: Track, sn: nat): Track {
    var o := Enqueue(t.rx, sn);
    t.(joined := true, rx := o.rx,
       got := if o.accepted then t.got + {sn} else t.got,
       lost := t.lost + o.lost,
       jumpLost := t.jumpLost + o.lost,
       jumpBits := t.jumpBits + if IsJump(t.rx, sn) then PopCount(t.rx.window, 64) else 0)
  }

  /** Without an entry the GAP establishes the join baseline and nothing is
      lost; otherwise the baseline moves and the unreceived seqs are lost. */
  function OnGap(t: Track, end: nat): Track {
    if !t.joined then Track(true, Rx(end, 0), end, {}, 0, {}, 0, 0)
    else
      var (rx, n) := SkipTo(t.rx, end);
      t.(rx := rx, lost := t.lost + n,
         gapLost := t.gapLost + set s | t.rx.last < s <= end && s !in t.got)
  }

  ghost predicate Ledger(t: Track) {
    && t.lost + CountIn(t.got, t.base, t.rx.last) == t.rx.last - t.base + t.jumpBits
    && t.lost == |t.gapLost| + t.jumpLost
  }

  ghost predicate TrackInv(t: Track) {
    && (!t.joined ==> t == UNSEEN)
    && Pictures(t.rx, t.got)
    && t.base <= t.rx.last
    && (forall s | s in t.got :: t.base < s)
    && (forall s | s in t.gapLost :: t.base < s <= t.rx.last && s !in t.got)
    && Ledger(t)
  }

  lemma UnseenInv()
    ensures TrackInv(UNSEEN)
  {
    forall i: nat | i < 64
      ensures !Bit(0, i)
    {
      ZeroBits(i);
    }
  }

  lemma DataKeeps(t: Track, sn: nat)
    requires TrackInv(t)
    ensures var t', o := OnData(t, sn), Enqueue(t.rx, sn);
            && TrackInv(t') && t'.joined && t'.rx == o.rx && t'.rx.last >= t.rx.last
            && o.accepted == (sn > t.rx.last && sn !in t.got)
            && t'.got == (if o.accepted then t.got + {sn} else t.got)
            && (t'.rx.last == t.rx.last || t'.rx.last in t'.got)
            && t'.lost == t.lost + o.lost
            && t'.base == t.base && t'.gapLost == t.gapLost
  {
    EnqueueRefines(t.rx, t.got, sn);
    DataLedger(t, sn);
    if t.got + {sn} != OnData(t, sn).got { assert sn <= t.rx.last; }
  }

  lemma DataLedger(t: Track, sn: nat)
    requires TrackInv(t)
    ensures Ledger(OnData(t, sn))
  {
    if IsJump(t.rx, sn) {
      JumpLedger(t, sn);
    } else if sn == t.rx.last + 1 {
      NextIsSlide(t);
      SlideLedger(t);
    } else if sn > t.rx.last {
      CountFrame(t.got, sn, t.base, t.rx.last);
    }
  }

  lemma JumpLedger(t: Track, sn: nat)
    requires Pictures(t.rx, t.got) && t.base <= t.rx.last && Ledger(t) && IsJump(t.rx, sn)
    ensures Ledger(OnData(t, sn))
  {
    JumpCount(t.rx, t.got, t.base, sn);
    var t' := OnData(t, sn);
    assert t'.rx.last == sn && t'.got == t.got + {sn} && t'.gapLost == t.gapLost;
  }

  lemma JumpCount(rx: Rx, got: set<nat>, base: nat, sn: nat)
    requires Pictures(rx, got) && base <= rx.last && IsJump(rx, sn)
    ensures CountIn(got + {sn}, base, sn) == CountIn(got, base, rx.last) + PopCount(rx.window, 64) + 1
  {
    WindowCount(rx, got, sn - 1);
    CountSplit(got, base, rx.last, sn - 1);
    CountFrame(got, sn, base, sn - 1);
  }

  lemma NextIsSlide(t: Track)
    requires TrackInv(t)
    ensures OnData(t, t.rx.last + 1) ==
            t.(joined := true, rx := Slide(Rx(t.rx.last + 1, Shr(t.rx.window, 1))),
               got := t.got + {t.rx.last + 1})
  {
    assert Bit(t.rx.window, 0) <==> t.rx.last + 1 + 0 in t.got;
    hide Slide, Bit, Shr, TrackInv;
    assert !IsJump(t.rx, t.rx.last + 1);
    if Bit(t.rx.window, 0) { assert t.got + {t.rx.last + 1} == t.got; }
  }

  lemma SlideLedger(t: Track)
    requires TrackInv(t)
    ensures Ledger(t.(joined := true, rx := Slide(Rx(t.rx.last + 1, Shr(t.rx.window, 1))),
                      got := t.got + {t.rx.last + 1}))
  {
    var last := t.rx.last;
    ShiftPictures(t.rx, t.got, 1);
    var next := Rx(last + 1, Shr(t.rx.window, 1));
    SlidePictures(next, t.got);
    SlideCount(t.got, t.base, last, Slide(next).last);
  }

  lemma SlideCount(got: set<nat>, base: nat, last: nat, last': nat)
    requires base <= last < last' && forall s | last + 1 < s <= last' :: s in got
    ensures CountIn(got + {last + 1}, base, last') == CountIn(got, base, last) + last' - last
  {
    var got' := got + {last + 1};
    CountFrame(got, last + 1, base, last);
    CountSplit(got', base, last, last');
    AllIn(got', last, last');
  }

  lemma {:induction false} AllIn(got: set<nat>, lo: nat, hi: nat)
    requires lo <= hi && forall s | lo < s <= hi :: s in got
    ensures CountIn(got, lo, hi) == hi - lo
    decreases hi
  {
    if lo < hi { AllIn(got, lo, hi - 1); }
  }

  lemma GapKeeps(t: Track, end: nat)
    requires TrackInv(t)
    ensures var t' := OnGap(t, end);
            && TrackInv(t') && t'.joined && t'.rx.last >= t.rx.last && t.got == t'.got
            && t'.lost == t.lost + (if t.joined then SkipTo(t.rx, end).1 else 0)
            && t'.jumpLost == t.jumpLost
            && t'.gapLost == t.gapLost + if t.joined then Missing(t.got, t.rx.last, end) else {}
  {
    if !t.joined {
      UnseenInv();
      assert Pictures(Rx(end, 0), {});
    } else if end > t.rx.last {
      ShiftPictures(t.rx, t.got, end - t.rx.last);
      GapLedger(t, end);
    } else {
      assert Missing(t.got, t.rx.last, end) == {};
    }
  }

  lemma GapLedger(t: Track, end: nat)
    requires Pictures(t.rx, t.got) && t.base <= t.rx.last < end && Ledger(t) && t.joined
    requires forall s | s in t.gapLost :: s <= t.rx.last
    ensures Ledger(OnGap(t, end)) && OnGap(t, end).gapLost == t.gapLost + Missing(t.got, t.rx.last, end)
  {
    WindowCount(t.rx, t.got, end);
    CountSplit(t.got, t.base, t.rx.last, end);
    MissingCount(t.got, t.rx.last, end);
    assert Missing(t.got, t.rx.last, end) !! t.gapLost;
  }

  // ---- runs ----

  datatype Event = Arrival(sn: nat) | GapTo(end: nat)

  function Step(t: Track, e: Event): Track {
    match e
    case Arrival(sn) => OnData(t, sn)
    case GapTo(end) => OnGap(t, end)
  }

  function Run(es: seq<Event>): Track {
    if es == [] then UNSEEN else Step(Run(es[..|es| - 1]), es[|es| - 1])
  }

  lemma {:induction false} RunInv(es: seq<Event>)
    ensures TrackInv(Run(es))
  {
    if es == [] {
      UnseenInv();
    } else {
      RunInv(es[..|es| - 1]);
      var t := Run(es[..|es| - 1]);
      match es[|es| - 1]
      case Arrival(sn) => DataKeeps(t, sn);
      case GapTo(end) => GapKeeps(t, end);
    }
  }

  /** The loss ledger: the lost count is the number of seqs between the join
      baseline and the baseline that were never received, plus the window bits
      that were set when a jump happened. */
  lemma LossLedger(es: seq<Event>)
    ensures var t := Run(es);
            t.lost == |Missing(t.got, t.base, t.rx.last)| + t.jumpBits
  {
    RunInv(es);
    var t := Run(es);
    MissingCount(t.got, t.base, t.rx.last);
  }

  /** Event k is a window jump that finds receipts in the window. */
  ghost predicate JumpsOverReceipts(es: seq<Event>, k: nat) {
    k < |es| && es[k].Arrival? &&
    var rx := Run(es[..k]).rx;
    IsJump(rx, es[k].sn) && rx.window != 0
  }

  lemma {:induction false} PopCountZero(w: nat, n: nat)
    requires w < Pow2(n)
    ensures PopCount(w, n) == 0 <==> w == 0
  {
    if w == 0 { NoBits(n); }
    if PopCount(w, n) == 0 {
      forall i: nat
        ensures Bit(w, i) == Bit(0, i)
      {
        ZeroBits(i);
        if i >= n { HighBits(w, n, i); } else { NoBitCounted(w, n, i); }
      }
      SameBits(w, 0);
    }
  }

  lemma {:induction false} NoBits(n: nat)
    ensures PopCount(0, n) == 0
  {
    if n > 0 {
      NoBits(n - 1);
      ZeroBits(n - 1);
    }
  }

  lemma {:induction false} NoBitCounted(w: nat, n: nat, i: nat)
    requires PopCount(w, n) == 0 && i < n
    ensures !Bit(w, i)
    decreases n
  {
    if i < n - 1 { NoBitCounted(w, n - 1, i); }
  }

  /** Each lost seq is counted exactly once if and only if no window jump of
      the run passed over receipts. */
  lemma LossExactIff(es: seq<Event>)
    ensures var t := Run(es);
            t.lost == |Missing(t.got, t.base, t.rx.last)| <==> forall k: nat :: !JumpsOverReceipts(es, k)
  {
    LossLedger(es);
    JumpBitsIff(es);
  }

  lemma {:induction false} JumpBitsIff(es: seq<Event>)
    ensures Run(es).jumpBits == 0 <==> forall k: nat :: !JumpsOverReceipts(es, k)
  {
    if es != [] {
      var n: nat := |es| - 1;
      var pre := es[..n];
      JumpBitsIff(pre);
      RunInv(pre);
      Pow64();
      PopCountZero(Run(pre).rx.window, 64);
      forall k: nat
        ensures JumpsOverReceipts(es, k) <==> JumpsOverReceipts(pre, k) || (k == n && JumpsOverReceipts(es, n))
      {
        if k < n { assert es[..k] == pre[..k]; }
      }
      assert (Run(es).jumpBits == 0) == (Run(pre).jumpBits == 0 && !JumpsOverReceipts(es, n)) by {
        GapKeepsJumpBits(Run(pre), es[n]);
      }
    }
  }

  lemma GapKeepsJumpBits(t: Track, e: Event)
    requires TrackInv(t)
    ensures e.GapTo? ==> Step(t, e).jumpBits == t.jumpBits
  {
  }

  lemma RunSnoc(es: seq<Event>, e: Event)
    ensures Run(es + [e]) == Step(Run(es), e)
  {
    assert (es + [e])[..|es|] == es;
  }

  /** The over-count is real: extend any run by a receipt b above a hole and a
      jump c; b was received and is counted lost all the same. */
  lemma JumpOvercounts(es: seq<Event>, b: nat, c: nat)
    requires var t := Run(es);
             t.rx.last + 1 < b <= t.rx.last + 64 && b !in t.got && IsJump(t.rx, c)
    ensures var t := Run(es + [Arrival(b), Arrival(c)]);
            b in t.got && t.lost > |Missing(t.got, t.base, t.rx.last)|
  {
    RunInv(es);
    RunSnoc(es, Arrival(b));
    RunSnoc(es + [Arrival(b)], Arrival(c));
    assert es + [Arrival(b)] + [Arrival(c)] == es + [Arrival(b), Arrival(c)];
    var t := Run(es);
    var t' := OnData(t, b);
    EnqueueRefines(t.rx, t.got, b);
    DataKeeps(t, b);
    HoleIsTracked(t.rx, t.got, b);
    BitCounted(t'.rx.window, 64, b - t.rx.last - 1);
    LossLedger(es + [Arrival(b), Arrival(c)]);
  }

  lemma HoleIsTracked(rx: Rx, got: set<nat>, b: nat)
    requires Pictures(rx, got) && rx.last + 1 < b <= rx.last + 64 && b !in got
    ensures var o := Enqueue(rx, b);
            && o.accepted && o.lost == 0 && o.rx.last == rx.last && Bit(o.rx.window, b - rx.last - 1)
  {
    var offset := b - rx.last - 1;
    assert Bit(rx.window, offset) <==> rx.last + 1 + offset in got;
    SetBitBit(rx.window, offset, offset);
  }

  lemma {:induction false} BitCounted(w: nat, n: nat, i: nat)
    requires i < n && Bit(w, i)
    ensures PopCount(w, n) > 0
    decreases n
  {
    if i < n - 1 { BitCounted(w, n - 1, i); }
  }

  // ---- is the NACK base the first missing seq? ----

  /** The last event that moved the baseline was a GAP to some g with g + 1
      already received. */
  ghost predicate EndsInStuckGap(es: seq<Event>) {
    es != [] &&
    var pre, e := es[..|es| - 1], es[|es| - 1];
    if Run(es).rx.last == Run(pre).rx.last then EndsInStuckGap(pre)
    else e.GapTo? && e.end + 1 in Run(pre).got
  }

  /** `last + 1`, the base of every NACK, is received already exactly when the
      baseline was last moved by a GAP that stopped just below a receipt. */
  lemma {:induction false} BaseReceivedIff(es: seq<Event>)
    ensures var t := Run(es);
            && (Bit(t.rx.window, 0) <==> t.rx.last + 1 in t.got)
            && (Bit(t.rx.window, 0) <==> EndsInStuckGap(es))
  {
    RunInv(es);
    var t' := Run(es);
    assert Bit(t'.rx.window, 0) <==> t'.rx.last + 1 + 0 in t'.got;
    if es == [] {
      ZeroBits(0);
    } else {
      BaseReceivedIff(es[..|es| - 1]);
      RunInv(es[..|es| - 1]);
      BaseStep(Run(es[..|es| - 1]), es[|es| - 1]);
    }
  }

  lemma BaseStep(t: Track, e: Event)
    requires TrackInv(t)
    ensures var t' := Step(t, e);
            if t'.rx.last == t.rx.last then Bit(t'.rx.window, 0) == Bit(t.rx.window, 0)
            else Bit(t'.rx.window, 0) <==> e.GapTo? && e.end + 1 in t.got
  {
    match e
    case Arrival(sn) =>
      DataBitZero(t.rx, t.got, sn);
    case GapTo(end) =>
      if end > t.rx.last { GapBitZero(t, end); }
  }

  lemma GapBitZero(t: Track, end: nat)
    requires TrackInv(t) && end > t.rx.last
    ensures Bit(OnGap(t, end).rx.window, 0) <==> end + 1 in t.got
  {
    ShiftPictures(t.rx, t.got, end - t.rx.last);
    var rx := Rx(end, Shr(t.rx.window, end - t.rx.last));
    assert Bit(rx.window, 0) <==> rx.last + 1 + 0 in t.got;
    ZeroBits(0);
  }

  lemma DataBitZero(rx: Rx, got: set<nat>, sn: nat)
    requires Pictures(rx, got)
    ensures var rx' := Enqueue(rx, sn).rx;
            if rx'.last == rx.last then Bit(rx'.window, 0) == Bit(rx.window, 0)
            else !Bit(rx'.window, 0)
  {
    if rx.last < sn && !IsJump(rx, sn) {
      if sn == rx.last + 1 {
        ShiftPictures(rx, got, 1);
        SlidePictures(Rx(rx.last + 1, Shr(rx.window, 1)), got);
      } else {
        SetBitBit(rx.window, sn - rx.last - 1, 0);
      }
    }
  }

  /** On GAP-free runs the NACK base is the first missing seq. */
  lemma {:induction false} GapFreeBase(es: seq<Event>)
    requires forall k | 0 <= k < |es| :: es[k].Arrival?
    ensures var t := Run(es); t.rx.last + 1 !in t.got
  {
    GapFreeNotStuck(es);
    BaseReceivedIff(es);
  }

  lemma {:induction false} GapFreeNotStuck(es: seq<Event>)
    requires forall k | 0 <= k < |es| :: es[k].Arrival?
    ensures !EndsInStuckGap(es)
  {
    if es != [] { GapFreeNotStuck(es[..|es| - 1]); }
  }

  /** Once the base is a received seq, only a duplicate of it, a further GAP or
      a jump moves the baseline. */
  lemma StuckMoves(t: Track, e: Event)
    requires TrackInv(t) && t.joined && Bit(t.rx.window, 0)
    ensures Step(t, e).rx.last != t.rx.last <==>
            match e
            case Arrival(sn) => sn == t.rx.last + 1 || IsJump(t.rx, sn)
            case GapTo(end) => end > t.rx.last
  {
    match e
    case Arrival(sn) =>
      if sn == t.rx.last + 1 {
        ShiftPictures(t.rx, t.got, 1);
        SlidePictures(Rx(t.rx.last + 1, Shr(t.rx.window, 1)), t.got);
      }
    case GapTo(_) =>
  }
}
