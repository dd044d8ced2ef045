/** Wire format v4: the 12-byte header, the five data-plane bodies and the
    tolerant TLV trailer. */
module Frames {
  import opened Base
  import opened BigEndian

  const DATA: Byte := 1
  const DATA_FRAG: Byte := 2
  const ACKNACK: Byte := 3
  const HEARTBEAT: Byte := 4
  const ANNOUNCE: Byte := 5
  const GAP: Byte := 6

  const VERSION: Byte := 4
  const HEADER_SIZE: nat := 12
  const DATA_FIXED: nat := 36
  const FRAG_FIXED: nat := 44
  const ACKNACK_SIZE: nat := 48
  const HEARTBEAT_SIZE: nat := 32
  const GAP_SIZE: nat := 48

  const TLV_ORIGIN_GUID: Byte := 1
  const TLV_ORIGIN_SEQ: Byte := 2

  datatype Header = Header(kind: Byte, flags: nat, bodyLen: nat)

  datatype Trailer = Trailer(hasOrigin: bool, originGuid: Guid, originSeq: nat)

  const NO_TRAILER: Trailer := Trailer(false, [0, 0, 0, 0, 0, 0, 0, 0, 0, 0, 0, 0, 0, 0, 0, 0], 0)

  /** A data-plane frame as the participant sees it. */
  datatype Frame =
    | Data(flags: nat, writer: Guid, sn: nat, pubMs: nat, payload: Bytes)
    | DataFrag(flags: nat, writer: Guid, sn: nat, pubMs: nat, total: nat, offset: nat, chunk: Bytes)
    | AckNack(reader: Guid, writer: Guid, base: nat, bitmap: nat)
    | Heartbeat(writer: Guid, first: nat, last: nat)
    | Gap(writer: Guid, reader: Guid, start: nat, end: nat)

  /** The field widths of the wire format. */
  predicate Fits(f: Frame) {
    match f
    case Data(flags, _, sn, pubMs, payload) =>
      flags < U16 && sn < U64 && pubMs < U64 && DATA_FIXED + |payload| < U32
    case DataFrag(flags, _, sn, pubMs, total, offset, chunk) =>
      flags < U16 && sn < U64 && pubMs < U64 && total < U32 && FRAG_FIXED + |chunk| < U32 &&
      offset + |chunk| <= total
    case AckNack(_, _, base, bitmap) => base < U64 && bitmap < U64
    case Heartbeat(_, first, last) => first < U64 && last < U64
    case Gap(_, _, start, end) => start < U64 && end < U64
  }

  // ---- layout ----

  function HeaderBytes(kind: Byte, flags: nat, bodyLen: nat): (s: Bytes)
    ensures |s| == HEADER_SIZE
  {
    [0x4D, 0x44, 0x44, 0x53, VERSION, kind] + Put(flags, 2) + Put(bodyLen, 4)
  }

  function Enclose(kind: Byte, flags: nat, body: Bytes): Bytes {
    HeaderBytes(kind, flags, |body|) + body
  }

  function TrailerBytes(t: Trailer): Bytes {
    if t.hasOrigin then
      [TLV_ORIGIN_GUID, 16] + t.originGuid + [TLV_ORIGIN_SEQ, 8] + Put(t.originSeq, 8)
    else []
  }

  function DataHead(writer: Guid, sn: nat, pubMs: nat, payloadLen: nat): (s: Bytes)
    ensures |s| == DATA_FIXED
  {
    writer + Put(sn, 8) + Put(pubMs, 8) + Put(payloadLen, 4)
  }

  function FragHead(writer: Guid, sn: nat, pubMs: nat, total: nat, offset: nat, len: nat): (s: Bytes)
    ensures |s| == FRAG_FIXED
  {
    writer + Put(sn, 8) + Put(pubMs, 8) + Put(total, 4) + Put(offset, 4) + Put(len, 4)
  }

  /** What a frame looks like on the wire; `tail` follows the payload. */
  function Encode(f: Frame, tail: Bytes): Bytes {
    match f
    case Data(flags, writer, sn, pubMs, payload) =>
      Enclose(DATA, flags, DataHead(writer, sn, pubMs, |payload|) + payload + tail)
    case DataFrag(flags, writer, sn, pubMs, total, offset, chunk) =>
      Enclose(DATA_FRAG, flags, FragHead(writer, sn, pubMs, total, offset, |chunk|) + chunk + tail)
    case AckNack(reader, writer, base, bitmap) =>
      Enclose(ACKNACK, 0, reader + writer + Put(base, 8) + Put(bitmap, 8))
    case Heartbeat(writer, first, last) =>
      Enclose(HEARTBEAT, 0, writer + Put(first, 8) + Put(last, 8))
    case Gap(writer, reader, start, end) =>
      Enclose(GAP, 0, writer + reader + Put(start, 8) + Put(end, 8))
  }

  // ---- decoding ----

  function DecodeHeader(buf: Bytes): Option<Header> {
    if |buf| < HEADER_SIZE then None
    else if buf[0] != 0x4D || buf[1] != 0x44 || buf[2] != 0x44 || buf[3] != 0x53 then None
    else if buf[4] != VERSION then None
    else
      var bodyLen := Get(buf[8..12]);
      if |buf| - HEADER_SIZE < bodyLen then None
      else Some(Header(buf[5], Get(buf[6..8]), bodyLen))
  }

  /** The body of a frame of the given kind and minimal size. All decoders read
      from it and from nothing else. */
  function BodyOf(buf: Bytes, kind: Byte, atLeast: nat): (body: Option<Bytes>)
    ensures body.Some? ==> |body.value| >= atLeast
  {
    match DecodeHeader(buf)
    case None => None
    case Some(h) =>
      if h.kind != kind || h.bodyLen < atLeast then None
      else Some(buf[HEADER_SIZE..HEADER_SIZE + h.bodyLen])
  }

  function ApplyTlv(t: Trailer, kind: Byte, value: Bytes): Trailer {
    if kind == TLV_ORIGIN_GUID && |value| == 16 then t.(hasOrigin := true, originGuid := value)
    else if kind == TLV_ORIGIN_SEQ && |value| == 8 then t.(originSeq := Get(value))
    else t
  }

  /** The entries of a trailer up to the first malformed one, and whether all
      bytes parsed cleanly. */
  function TrailerFrom(t: Trailer, s: Bytes): (Trailer, bool)
    decreases |s|
  {
    if |s| < 2 then (t, s == [])
    else if 2 + s[1] > |s| then (t, false)
    else TrailerFrom(ApplyTlv(t, s[0], s[2..2 + s[1]]), s[2 + s[1]..])
  }

  function DataFrom(flags: nat, body: Bytes): Option<(Frame, Trailer)>
    requires |body| >= DATA_FIXED
  {
    var len := Get(body[32..36]);
    if |body| - DATA_FIXED < len then None
    else
      Some((Data(flags, body[..16], Get(body[16..24]), Get(body[24..32]), body[DATA_FIXED..DATA_FIXED + len]),
            TrailerFrom(NO_TRAILER, body[DATA_FIXED + len..]).0))
  }

  function DecodeData(buf: Bytes): Option<(Frame, Trailer)> {
    match BodyOf(buf, DATA, DATA_FIXED)
    case None => None
    case Some(body) => DataFrom(Get(buf[6..8]), body)
  }

  function DataFragFrom(flags: nat, body: Bytes): Option<(Frame, Trailer)>
    requires |body| >= FRAG_FIXED
  {
    var total := Get(body[32..36]);
    var offset := Get(body[36..40]);
    var len := Get(body[40..44]);
    if |body| - FRAG_FIXED < len || offset + len > total then None
    else
      Some((DataFrag(flags, body[..16], Get(body[16..24]), Get(body[24..32]), total, offset,
                     body[FRAG_FIXED..FRAG_FIXED + len]),
            TrailerFrom(NO_TRAILER, body[FRAG_FIXED + len..]).0))
  }

  function DecodeDataFrag(buf: Bytes): Option<(Frame, Trailer)> {
    match BodyOf(buf, DATA_FRAG, FRAG_FIXED)
    case None => None
    case Some(body) => DataFragFrom(Get(buf[6..8]), body)
  }

  function DecodeAckNack(buf: Bytes): Option<Frame> {
    match BodyOf(buf, ACKNACK, ACKNACK_SIZE)
    case None => None
    case Some(body) => Some(AckNack(body[..16], body[16..32], Get(body[32..40]), Get(body[40..48])))
  }

  function DecodeHeartbeat(buf: Bytes): Option<Frame> {
    match BodyOf(buf, HEARTBEAT, HEARTBEAT_SIZE)
    case None => None
    case Some(body) => Some(Heartbeat(body[..16], Get(body[16..24]), Get(body[24..32])))
  }

  function DecodeGap(buf: Bytes): Option<Frame> {
    match BodyOf(buf, GAP, GAP_SIZE)
    case None => None
    case Some(body) => Some(Gap(body[..16], body[16..32], Get(body[32..40]), Get(body[40..48])))
  }

  /** The dispatch of `handle_bytes` over the data-plane frames. */
  function Decode(buf: Bytes): Option<Frame> {
    match DecodeHeader(buf)
    case None => None
    case Some(h) =>
      if h.kind == DATA then
        var d := DecodeData(buf); if d.Some? then Some(d.value.0) else None
      else if h.kind == DATA_FRAG then
        var d := DecodeDataFrag(buf); if d.Some? then Some(d.value.0) else None
      else if h.kind == ACKNACK then DecodeAckNack(buf)
      else if h.kind == HEARTBEAT then DecodeHeartbeat(buf)
      else if h.kind == GAP then DecodeGap(buf)
      else None
  }

  // ---- round trips ----

  lemma HeaderRoundTrip(kind: Byte, flags: nat, body: Bytes, rest: Bytes)
    requires flags < U16 && |body| < U32
    ensures var buf := Enclose(kind, flags, body) + rest;
            && DecodeHeader(buf) == Some(Header(kind, flags, |body|))
            && Get(buf[6..8]) == flags
            && buf[HEADER_SIZE..HEADER_SIZE + |body|] == body
  {
    var buf := Enclose(kind, flags, body) + rest;
    RoundTrip(flags, 2);
    RoundTrip(|body|, 4);
    assert buf[6..8] == Put(flags, 2);
    assert buf[8..12] == Put(|body|, 4);
  }

  /** The decoders find exactly the enclosed body. */
  lemma BodyRoundTrip(kind: Byte, atLeast: nat, flags: nat, body: Bytes, rest: Bytes)
    requires flags < U16 && atLeast <= |body| < U32
    ensures BodyOf(Enclose(kind, flags, body) + rest, kind, atLeast) == Some(body)
  {
    HeaderRoundTrip(kind, flags, body, rest);
  }

  lemma FragDecodesBody(flags: nat, body: Bytes, rest: Bytes)
    requires flags < U16 && FRAG_FIXED <= |body| < U32
    ensures DecodeDataFrag(Enclose(DATA_FRAG, flags, body) + rest) == DataFragFrom(flags, body)
  {
    HeaderRoundTrip(DATA_FRAG, flags, body, rest);
    BodyRoundTrip(DATA_FRAG, FRAG_FIXED, flags, body, rest);
  }

  lemma DataSlices(g: Guid, a: Bytes, b: Bytes, n: Bytes, payload: Bytes, tail: Bytes)
    requires |a| == |b| == 8 && |n| == 4
    ensures var body := g + a + b + n + payload + tail;
            && body[..16] == g && body[16..24] == a && body[24..32] == b && body[32..36] == n
            && body[36..36 + |payload|] == payload && body[36 + |payload|..] == tail
  {
  }

  lemma DataRoundTrip(f: Frame, tail: Bytes, rest: Bytes)
    requires f.Data? && Fits(f) && DATA_FIXED + |f.payload| + |tail| < U32
    ensures DecodeData(Encode(f, tail) + rest) == Some((f, TrailerFrom(NO_TRAILER, tail).0))
  {
    DataBodyRoundTrip(f, tail);
    HeaderRoundTrip(DATA, f.flags, DataHead(f.writer, f.sn, f.pubMs, |f.payload|) + f.payload + tail, rest);
  }

  lemma DataBodyRoundTrip(f: Frame, tail: Bytes)
    requires f.Data? && Fits(f)
    ensures DataFrom(f.flags, DataHead(f.writer, f.sn, f.pubMs, |f.payload|) + f.payload + tail) ==
            Some((f, TrailerFrom(NO_TRAILER, tail).0))
  {
    DataSlices(f.writer, Put(f.sn, 8), Put(f.pubMs, 8), Put(|f.payload|, 4), f.payload, tail);
    RoundTrip(f.sn, 8);
    RoundTrip(f.pubMs, 8);
    RoundTrip(|f.payload|, 4);
  }

  lemma FragSlices(g: Guid, a: Bytes, b: Bytes, t: Bytes, o: Bytes, n: Bytes, chunk: Bytes, tail: Bytes)
    requires |a| == |b| == 8 && |t| == |o| == |n| == 4
    ensures var body := g + a + b + t + o + n + chunk + tail;
            && body[..16] == g && body[16..24] == a && body[24..32] == b
            && body[32..36] == t && body[36..40] == o && body[40..44] == n
            && body[44..44 + |chunk|] == chunk && body[44 + |chunk|..] == tail
  {
  }

  lemma DataFragRoundTrip(f: Frame, tail: Bytes, rest: Bytes)
    requires f.DataFrag? && Fits(f) && FRAG_FIXED + |f.chunk| + |tail| < U32
    ensures DecodeDataFrag(Encode(f, tail) + rest) == Some((f, TrailerFrom(NO_TRAILER, tail).0))
  {
    DataFragBodyRoundTrip(f, tail);
    var body := FragHead(f.writer, f.sn, f.pubMs, f.total, f.offset, |f.chunk|) + f.chunk + tail;
    FragDecodesBody(f.flags, body, rest);
  }

  lemma DataFragBodyRoundTrip(f: Frame, tail: Bytes)
    requires f.DataFrag? && Fits(f)
    ensures DataFragFrom(f.flags, FragHead(f.writer, f.sn, f.pubMs, f.total, f.offset, |f.chunk|) + f.chunk + tail) ==
            Some((f, TrailerFrom(NO_TRAILER, tail).0))
  {
    FragSlices(f.writer, Put(f.sn, 8), Put(f.pubMs, 8), Put(f.total, 4), Put(f.offset, 4), Put(|f.chunk|, 4),
               f.chunk, tail);
    RoundTrip(f.sn, 8);
    RoundTrip(f.pubMs, 8);
    RoundTrip(f.total, 4);
    RoundTrip(f.offset, 4);
    RoundTrip(|f.chunk|, 4);
  }

  lemma TwoGuidSlices(g: Guid, h: Guid, a: Bytes, b: Bytes)
    requires |a| == |b| == 8
    ensures var body := g + h + a + b;
            body[..16] == g && body[16..32] == h && body[32..40] == a && body[40..48] == b
  {
  }

  lemma AckNackRoundTrip(f: Frame, rest: Bytes)
    requires f.AckNack? && Fits(f)
    ensures DecodeAckNack(Encode(f, []) + rest) == Some(f)
  {
    BodyRoundTrip(ACKNACK, ACKNACK_SIZE, 0, f.reader + f.writer + Put(f.base, 8) + Put(f.bitmap, 8), rest);
    TwoGuidSlices(f.reader, f.writer, Put(f.base, 8), Put(f.bitmap, 8));
    RoundTrip(f.base, 8);
    RoundTrip(f.bitmap, 8);
  }

  lemma GapRoundTrip(f: Frame, rest: Bytes)
    requires f.Gap? && Fits(f)
    ensures DecodeGap(Encode(f, []) + rest) == Some(f)
  {
    BodyRoundTrip(GAP, GAP_SIZE, 0, f.writer + f.reader + Put(f.start, 8) + Put(f.end, 8), rest);
    TwoGuidSlices(f.writer, f.reader, Put(f.start, 8), Put(f.end, 8));
    RoundTrip(f.start, 8);
    RoundTrip(f.end, 8);
  }

  lemma HeartbeatRoundTrip(f: Frame, rest: Bytes)
    requires f.Heartbeat? && Fits(f)
    ensures DecodeHeartbeat(Encode(f, []) + rest) == Some(f)
  {
    var body := f.writer + Put(f.first, 8) + Put(f.last, 8);
    BodyRoundTrip(HEARTBEAT, HEARTBEAT_SIZE, 0, body, rest);
    RoundTrip(f.first, 8);
    RoundTrip(f.last, 8);
    assert body[..16] == f.writer && body[16..24] == Put(f.first, 8) && body[24..32] == Put(f.last, 8);
  }

  lemma KindOf(f: Frame, rest: Bytes)
    requires Fits(f)
    ensures var h := DecodeHeader(Encode(f, []) + rest);
            h.Some? && h.value.kind ==
            match f
            case Data(_, _, _, _, _) => DATA
            case DataFrag(_, _, _, _, _, _, _) => DATA_FRAG
            case AckNack(_, _, _, _) => ACKNACK
            case Heartbeat(_, _, _) => HEARTBEAT
            case Gap(_, _, _, _) => GAP
  {
    match f
    case Data(flags, w, sn, pubMs, payload) =>
      HeaderRoundTrip(DATA, flags, DataHead(w, sn, pubMs, |payload|) + payload + [], rest);
    case DataFrag(flags, w, sn, pubMs, total, offset, chunk) =>
      HeaderRoundTrip(DATA_FRAG, flags, FragHead(w, sn, pubMs, total, offset, |chunk|) + chunk + [], rest);
    case AckNack(r, w, base, bitmap) =>
      HeaderRoundTrip(ACKNACK, 0, r + w + Put(base, 8) + Put(bitmap, 8), rest);
    case Heartbeat(w, first, last) =>
      HeaderRoundTrip(HEARTBEAT, 0, w + Put(first, 8) + Put(last, 8), rest);
    case Gap(w, r, start, end) =>
      HeaderRoundTrip(GAP, 0, w + r + Put(start, 8) + Put(end, 8), rest);
  }

  /** Every frame within the field widths comes back unchanged, whatever
      follows it in the buffer. */
  lemma FrameRoundTrip(f: Frame, rest: Bytes)
    requires Fits(f)
    ensures Decode(Encode(f, []) + rest) == Some(f)
  {
    KindOf(f, rest);
    match f
    case Data(_, _, _, _, _) => DataRoundTrip(f, [], rest);
    case DataFrag(_, _, _, _, _, _, _) => DataFragRoundTrip(f, [], rest);
    case AckNack(_, _, _, _) => AckNackRoundTrip(f, rest);
    case Heartbeat(_, _, _) => HeartbeatRoundTrip(f, rest);
    case Gap(_, _, _, _) => GapRoundTrip(f, rest);
  }

  /** Decoding never depends on bytes past the declared body. */
  lemma DecodeIsLocal(buf: Bytes)
    ensures match DecodeHeader(buf)
            case None => Decode(buf) == None
            case Some(h) => Decode(buf) == Decode(buf[..HEADER_SIZE + h.bodyLen])
  {
    match DecodeHeader(buf)
    case None =>
    case Some(h) =>
      var own := buf[..HEADER_SIZE + h.bodyLen];
      assert own[8..12] == buf[8..12] && own[6..8] == buf[6..8];
      assert own[HEADER_SIZE..HEADER_SIZE + h.bodyLen] == buf[HEADER_SIZE..HEADER_SIZE + h.bodyLen];
  }

  /** Whatever decodes is within the field widths. */
  lemma DecodedFits(buf: Bytes)
    ensures Decode(buf).Some? ==> Fits(Decode(buf).value)
  {
    if Decode(buf).Some? {
      Bounds(buf[6..8]);
      Bounds(buf[8..12]);
      var body := buf[HEADER_SIZE..HEADER_SIZE + DecodeHeader(buf).value.bodyLen];
      if |body| >= 32 {
        Bounds(body[16..24]);
        Bounds(body[24..32]);
      }
      if |body| >= 44 {
        Bounds(body[32..36]);
        Bounds(body[36..40]);
        Bounds(body[40..44]);
      }
      if |body| >= 48 {
        Bounds(body[32..40]);
        Bounds(body[40..48]);
      }
    }
  }

  // ---- the TLV trailer ----

  datatype Tlv = Tlv(kind: Byte, value: Bytes)

  function TlvBytes(es: seq<Tlv>): Bytes
    requires forall e | e in es :: |e.value| < 0x100
  {
    if es == [] then [] else [es[0].kind, |es[0].value|] + es[0].value + TlvBytes(es[1..])
  }

  function FoldTlvs(t: Trailer, es: seq<Tlv>): Trailer
    decreases |es|
  {
    if es == [] then t else FoldTlvs(ApplyTlv(t, es[0].kind, es[0].value), es[1..])
  }

  /** A tail no entry can be read from. */
  predicate Unreadable(s: Bytes) {
    |s| < 2 || 2 + s[1] > |s|
  }

  /** Well-formed entries before an unreadable tail are all applied, in order,
      and the parse is clean exactly when the tail is empty. */
  lemma {:induction false} TrailerFold(t: Trailer, es: seq<Tlv>, tail: Bytes)
    requires (forall e | e in es :: |e.value| < 0x100) && Unreadable(tail)
    ensures TrailerFrom(t, TlvBytes(es) + tail) == (FoldTlvs(t, es), tail == [])
    decreases |es|
  {
    var s := TlvBytes(es) + tail;
    if es == [] {
      assert s == tail;
    } else {
      var v := es[0].value;
      assert s[2..2 + |v|] == v;
      assert s[2 + |v|..] == TlvBytes(es[1..]) + tail;
      TrailerFold(ApplyTlv(t, es[0].kind, v), es[1..], tail);
    }
  }

  /** Every trailer is well-formed entries followed by an unreadable tail. */
  lemma {:induction false} TrailerShape(s: Bytes) returns (es: seq<Tlv>, tail: Bytes)
    ensures forall e | e in es :: |e.value| < 0x100
    ensures Unreadable(tail) && s == TlvBytes(es) + tail
    decreases |s|
  {
    if Unreadable(s) {
      es, tail := [], s;
    } else {
      var rest;
      rest, tail := TrailerShape(s[2 + s[1]..]);
      var e := Tlv(s[0], s[2..2 + s[1]]);
      es := [e] + rest;
      assert es[1..] == rest;
      assert s == [s[0], s[1]] + e.value + s[2 + s[1]..];
    }
  }

  predicate NamesOrigin(e: Tlv) { e.kind == 1 && |e.value| == 16 }

  predicate NumbersOrigin(e: Tlv) { e.kind == 2 && |e.value| == 8 }

  predicate IsLast(es: seq<Tlv>, k: nat, p: Tlv -> bool) {
    k < |es| && p(es[k]) && forall j | k < j < |es| :: !p(es[j])
  }

  lemma OneTlv(t: Trailer, e: Tlv)
    ensures var r := ApplyTlv(t, e.kind, e.value);
            && r.hasOrigin == (t.hasOrigin || NamesOrigin(e))
            && r.originGuid == (if NamesOrigin(e) then e.value else t.originGuid)
            && r.originSeq == (if NumbersOrigin(e) then Get(e.value) else t.originSeq)
  {
  }

  lemma {:induction false} FoldOrigin(t: Trailer, es: seq<Tlv>)
    ensures var r := FoldTlvs(t, es);
            && (forall k: nat | IsLast(es, k, NamesOrigin) :: r.hasOrigin && r.originGuid == es[k].value)
            && ((forall e | e in es :: !NamesOrigin(e)) ==> r.hasOrigin == t.hasOrigin && r.originGuid == t.originGuid)
    decreases |es|
  {
    if es != [] {
      OneTlv(t, es[0]);
      hide ApplyTlv, NamesOrigin, NumbersOrigin, Get;
      FoldOrigin(ApplyTlv(t, es[0].kind, es[0].value), es[1..]);
      LastInRest(es, NamesOrigin);
    }
  }

  lemma {:induction false} FoldSeq(t: Trailer, es: seq<Tlv>)
    ensures var r := FoldTlvs(t, es);
            && (forall k: nat | IsLast(es, k, NumbersOrigin) :: r.originSeq == Get(es[k].value))
            && ((forall e | e in es :: !NumbersOrigin(e)) ==> r.originSeq == t.originSeq)
    decreases |es|
  {
    if es != [] {
      OneTlv(t, es[0]);
      hide ApplyTlv, NamesOrigin, NumbersOrigin, Get;
      FoldSeq(ApplyTlv(t, es[0].kind, es[0].value), es[1..]);
      LastInRest(es, NumbersOrigin);
    }
  }

  /** What the entries of a trailer mean: the last well-sized origin GUID and the
      last well-sized origin seq count; unknown kinds and wrong lengths do not. */
  lemma FoldMeaning(t: Trailer, es: seq<Tlv>)
    ensures var r := FoldTlvs(t, es);
            && (forall k: nat | IsLast(es, k, NamesOrigin) :: r.hasOrigin && r.originGuid == es[k].value)
            && (forall k: nat | IsLast(es, k, NumbersOrigin) :: r.originSeq == Get(es[k].value))
            && ((forall e | e in es :: !NamesOrigin(e)) ==> r.hasOrigin == t.hasOrigin && r.originGuid == t.originGuid)
            && ((forall e | e in es :: !NumbersOrigin(e)) ==> r.originSeq == t.originSeq)
  {
    hide FoldTlvs, NamesOrigin, NumbersOrigin, Get, IsLast;
    FoldOrigin(t, es);
    FoldSeq(t, es);
  }

  lemma LastInRest(es: seq<Tlv>, p: Tlv -> bool)
    requires es != []
    ensures forall k: nat | IsLast(es, k, p) ::
              if k == 0 then forall e | e in es[1..] :: !p(e) else IsLast(es[1..], k - 1, p)
    ensures (forall e | e in es :: !p(e)) <==> !p(es[0]) && forall e | e in es[1..] :: !p(e)
  {
    assert es == [es[0]] + es[1..];
    forall k: nat | IsLast(es, k, p)
      ensures if k == 0 then forall e | e in es[1..] :: !p(e) else IsLast(es[1..], k - 1, p)
    {
      if k == 0 {
        forall e | e in es[1..]
          ensures !p(e)
        {
          var j :| 0 <= j < |es[1..]| && es[1..][j] == e;
          assert es[j + 1] == e;
        }
      }
    }
  }

  lemma TrailerRoundTrip(t: Trailer)
    requires t.originSeq < U64 && (!t.hasOrigin ==> t == NO_TRAILER)
    ensures TrailerFrom(NO_TRAILER, TrailerBytes(t)) == (t, true)
  {
    if t.hasOrigin {
      var es := [Tlv(TLV_ORIGIN_GUID, t.originGuid), Tlv(TLV_ORIGIN_SEQ, Put(t.originSeq, 8))];
      assert es[1..][1..] == [];
      assert TlvBytes(es[1..]) == [TLV_ORIGIN_SEQ, 8] + Put(t.originSeq, 8) + [];
      assert TrailerBytes(t) == TlvBytes(es) + [];
      RoundTrip(t.originSeq, 8);
      var named := NO_TRAILER.(hasOrigin := true, originGuid := t.originGuid);
      assert FoldTlvs(named, es[1..]) == ApplyTlv(named, TLV_ORIGIN_SEQ, Put(t.originSeq, 8)) == t;
      assert FoldTlvs(NO_TRAILER, es) == FoldTlvs(named, es[1..]);
      TrailerFold(NO_TRAILER, es, []);
    }
  }

  /** `parse_trailer`: a cursor over the tail, stopping at the first malformed
      entry. */
  method ParseTrailer(s: Bytes) returns (t: Trailer, clean: bool)
    ensures (t, clean) == TrailerFrom(NO_TRAILER, s)
  {
    t := NO_TRAILER;
    var pos := 0;
    while pos + 2 <= |s|
      invariant pos <= |s|
      invariant TrailerFrom(NO_TRAILER, s) == TrailerFrom(t, s[pos..])
    {
      var kind, len := s[pos], s[pos + 1];
      if pos + 2 + len > |s| { return t, false; }
      var value := s[pos + 2..pos + 2 + len];
      assert s[pos..][2..2 + len] == value;
      assert s[pos..][2 + len..] == s[pos + 2 + len..];
      if kind == TLV_ORIGIN_GUID {
        if len == 16 { t := t.(originGuid := value, hasOrigin := true); }
      } else if kind == TLV_ORIGIN_SEQ {
        if len == 8 { t := t.(originSeq := Get(value)); }
      }
      pos := pos + 2 + len;
    }
    return t, pos == |s|;
  }

  // ---- the encoders: a preallocated buffer filled by offset ----

  lemma Join(h: Bytes, a: Bytes, b: Bytes, c: Bytes, d: Bytes)
    ensures h + a + b + c + d == h + (a + b + c + d)
  {
  }

  method PutHeader(out: array<Byte>, kind: Byte, flags: nat, bodyLen: nat)
    requires out.Length >= HEADER_SIZE && flags < U16 && bodyLen < U32
    modifies out
    ensures out[..HEADER_SIZE] == HeaderBytes(kind, flags, bodyLen)
  {
    out[0] := 0x4D;
    out[1] := 0x44;
    out[2] := 0x44;
    out[3] := 0x53;
    out[4] := VERSION;
    out[5] := kind;
    assert out[..6] == [0x4D, 0x44, 0x44, 0x53, VERSION, kind];
    PutU16(out, 6, flags);
    PutU32(out, 8, bodyLen);
  }

  method EncodeTrailer(t: Trailer) returns (out: array<Byte>)
    requires t.originSeq < U64
    ensures fresh(out) && out[..] == TrailerBytes(t)
  {
    if !t.hasOrigin {
      out := new Byte[0];
      return;
    }
    out := new Byte[28](_ => 0);
    out[0] := TLV_ORIGIN_GUID;
    out[1] := 16;
    assert out[..2] == [TLV_ORIGIN_GUID, 16];
    Copy(out, 2, t.originGuid);
    ghost var begun := out[..18];
    out[18] := TLV_ORIGIN_SEQ;
    out[19] := 8;
    assert out[..20] == begun + [TLV_ORIGIN_SEQ, 8];
    PutU64(out, 20, t.originSeq);
    assert out[..28] == out[..];
  }

  method PutDataHead(out: array<Byte>, writer: Guid, sn: nat, pubMs: nat, payloadLen: nat)
    requires out.Length >= 48 && sn < U64 && pubMs < U64 && payloadLen < U32
    modifies out
    ensures out[..48] == old(out[..12]) + DataHead(writer, sn, pubMs, payloadLen)
  {
    Copy(out, 12, writer);
    PutU64(out, 28, sn);
    PutU64(out, 36, pubMs);
    PutU32(out, 44, payloadLen);
    Join(old(out[..12]), writer, Put(sn, 8), Put(pubMs, 8), Put(payloadLen, 4));
  }

  method PutFragHead(out: array<Byte>, writer: Guid, sn: nat, pubMs: nat, total: nat, offset: nat, len: nat)
    requires out.Length >= 56 && sn < U64 && pubMs < U64 && total < U32 && offset < U32 && len < U32
    modifies out
    ensures out[..56] == old(out[..12]) + FragHead(writer, sn, pubMs, total, offset, len)
  {
    Copy(out, 12, writer);
    PutU64(out, 28, sn);
    PutU64(out, 36, pubMs);
    PutU32(out, 44, total);
    PutU32(out, 48, offset);
    PutU32(out, 52, len);
    var begun := writer + Put(sn, 8) + Put(pubMs, 8);
    Join(old(out[..12]), [], writer, Put(sn, 8), Put(pubMs, 8));
    assert old(out[..12]) + [] == old(out[..12]) && [] + writer == writer;
    Join(old(out[..12]), begun, Put(total, 4), Put(offset, 4), Put(len, 4));
  }

  method EncodeData(flags: nat, writer: Guid, sn: nat, pubMs: nat, payload: Bytes, trailer: Trailer)
    returns (out: array<Byte>)
    requires Fits(Data(flags, writer, sn, pubMs, payload)) && trailer.originSeq < U64
    requires DATA_FIXED + |payload| + |TrailerBytes(trailer)| < U32
    ensures fresh(out) && out[..] == Encode(Data(flags, writer, sn, pubMs, payload), TrailerBytes(trailer))
  {
    var tail := EncodeTrailer(trailer);
    var bodyLen := DATA_FIXED + |payload| + tail.Length;
    out := new Byte[HEADER_SIZE + bodyLen](_ => 0);
    PutHeader(out, DATA, flags, bodyLen);
    PutDataHead(out, writer, sn, pubMs, |payload|);
    Copy(out, 48, payload);
    Copy(out, 48 + |payload|, tail[..]);
    assert out[..] == out[..48 + |payload| + tail.Length];
    var header := HeaderBytes(DATA, flags, bodyLen);
    Join(header, [], DataHead(writer, sn, pubMs, |payload|), payload, tail[..]);
    assert header + [] == header;
    assert [] + DataHead(writer, sn, pubMs, |payload|) == DataHead(writer, sn, pubMs, |payload|);
  }

  method EncodeDataFrag(flags: nat, writer: Guid, sn: nat, pubMs: nat, total: nat, offset: nat, chunk: Bytes,
                        trailer: Trailer)
    returns (out: array<Byte>)
    requires Fits(DataFrag(flags, writer, sn, pubMs, total, offset, chunk)) && trailer.originSeq < U64
    requires FRAG_FIXED + |chunk| + |TrailerBytes(trailer)| < U32
    ensures fresh(out)
    ensures out[..] == Encode(DataFrag(flags, writer, sn, pubMs, total, offset, chunk), TrailerBytes(trailer))
  {
    var tail := EncodeTrailer(trailer);
    var bodyLen := FRAG_FIXED + |chunk| + tail.Length;
    out := new Byte[HEADER_SIZE + bodyLen](_ => 0);
    PutHeader(out, DATA_FRAG, flags, bodyLen);
    PutFragHead(out, writer, sn, pubMs, total, offset, |chunk|);
    Copy(out, 56, chunk);
    Copy(out, 56 + |chunk|, tail[..]);
    assert out[..] == out[..56 + |chunk| + tail.Length];
    var header := HeaderBytes(DATA_FRAG, flags, bodyLen);
    var head := FragHead(writer, sn, pubMs, total, offset, |chunk|);
    Join(header, [], head, chunk, tail[..]);
    assert header + [] == header && [] + head == head;
  }

  method EncodeAckNack(reader: Guid, writer: Guid, base: nat, bitmap: nat) returns (out: array<Byte>)
    requires Fits(AckNack(reader, writer, base, bitmap))
    ensures fresh(out) && out[..] == Encode(AckNack(reader, writer, base, bitmap), [])
  {
    out := new Byte[HEADER_SIZE + ACKNACK_SIZE](_ => 0);
    PutHeader(out, ACKNACK, 0, ACKNACK_SIZE);
    Copy(out, 12, reader);
    Copy(out, 28, writer);
    PutU64(out, 44, base);
    PutU64(out, 52, bitmap);
    assert out[..] == out[..60];
    Join(HeaderBytes(ACKNACK, 0, ACKNACK_SIZE), reader, writer, Put(base, 8), Put(bitmap, 8));
  }

  method EncodeHeartbeat(writer: Guid, first: nat, last: nat) returns (out: array<Byte>)
    requires Fits(Heartbeat(writer, first, last))
    ensures fresh(out) && out[..] == Encode(Heartbeat(writer, first, last), [])
  {
    out := new Byte[HEADER_SIZE + HEARTBEAT_SIZE](_ => 0);
    PutHeader(out, HEARTBEAT, 0, HEARTBEAT_SIZE);
    Copy(out, 12, writer);
    PutU64(out, 28, first);
    PutU64(out, 36, last);
    assert out[..] == out[..44];
    var header := HeaderBytes(HEARTBEAT, 0, HEARTBEAT_SIZE);
    Join(header, writer, Put(first, 8), Put(last, 8), []);
    assert writer + Put(first, 8) + Put(last, 8) + [] == writer + Put(first, 8) + Put(last, 8);
  }

  method EncodeGap(writer: Guid, reader: Guid, start: nat, end: nat) returns (out: array<Byte>)
    requires Fits(Gap(writer, reader, start, end))
    ensures fresh(out) && out[..] == Encode(Gap(writer, reader, start, end), [])
  {
    out := new Byte[HEADER_SIZE + GAP_SIZE](_ => 0);
    PutHeader(out, GAP, 0, GAP_SIZE);
    Copy(out, 12, writer);
    Copy(out, 28, reader);
    PutU64(out, 44, start);
    PutU64(out, 52, end);
    assert out[..] == out[..60];
    Join(HeaderBytes(GAP, 0, GAP_SIZE), writer, reader, Put(start, 8), Put(end, 8));
  }
}
