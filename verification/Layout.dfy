/** The bytes of each data-plane frame, field by field, and that nothing else
    decodes. */
module Layout {
  import opened Base
  import opened BigEndian
  import opened Frames

  /** The 12-byte header: "MDDS", version 4, the kind, the flags and the length of
      the body. */
  lemma HeaderLayout(kind: Byte, flags: nat, body: Bytes)
    requires flags < U16 && |body| < U32
    ensures var b := Enclose(kind, flags, body);
            && b[..4] == [0x4D, 0x44, 0x44, 0x53] && b[4] == 4 && b[5] == kind
            && Get(b[6..8]) == flags && Get(b[8..12]) == |body| && b[12..] == body
  {
    HeaderRoundTrip(kind, flags, body, []);
    assert Enclose(kind, flags, body) + [] == Enclose(kind, flags, body);
  }

  /** The five bodies. */
  lemma BodyLayout(f: Frame, tail: Bytes)
    requires Fits(f)
    requires match f
             case Data(_, _, _, _, payload) => DATA_FIXED + |payload| + |tail| < U32
             case DataFrag(_, _, _, _, _, _, chunk) => FRAG_FIXED + |chunk| + |tail| < U32
             case _ => true
    ensures var b := Encode(f, tail);
            match f
            case Data(flags, writer, sn, pubMs, payload) =>
              && |b| == 48 + |payload| + |tail| && b[5] == 1 && Get(b[6..8]) == flags && b[12..28] == writer
              && Get(b[28..36]) == sn && Get(b[36..44]) == pubMs && Get(b[44..48]) == |payload|
              && b[48..48 + |payload|] == payload && b[48 + |payload|..] == tail
            case DataFrag(flags, writer, sn, pubMs, total, offset, chunk) =>
              && |b| == 56 + |chunk| + |tail| && b[5] == 2 && Get(b[6..8]) == flags && b[12..28] == writer
              && Get(b[28..36]) == sn && Get(b[36..44]) == pubMs && Get(b[44..48]) == total
              && Get(b[48..52]) == offset && Get(b[52..56]) == |chunk|
              && b[56..56 + |chunk|] == chunk && b[56 + |chunk|..] == tail
            case AckNack(reader, writer, base, bitmap) =>
              && |b| == 60 && b[5] == 3 && b[12..28] == reader && b[28..44] == writer
              && Get(b[44..52]) == base && Get(b[52..60]) == bitmap
            case Heartbeat(writer, first, last) =>
              |b| == 44 && b[5] == 4 && b[12..28] == writer && Get(b[28..36]) == first && Get(b[36..44]) == last
            case Gap(writer, reader, start, end) =>
              && |b| == 60 && b[5] == 6 && b[12..28] == writer && b[28..44] == reader
              && Get(b[44..52]) == start && Get(b[52..60]) == end
  {
    match f
    case Data(_, _, _, _, _) => DataLayout(f, tail);
    case DataFrag(_, _, _, _, _, _, _) => FragLayout(f, tail);
    case AckNack(reader, writer, base, bitmap) =>
      RoundTrip(base, 8);
      RoundTrip(bitmap, 8);
      TwoGuidsLayout(ACKNACK, reader, writer, Put(base, 8), Put(bitmap, 8));
    case Heartbeat(_, _, _) => HeartbeatLayout(f);
    case Gap(writer, reader, start, end) =>
      RoundTrip(start, 8);
      RoundTrip(end, 8);
      TwoGuidsLayout(GAP, writer, reader, Put(start, 8), Put(end, 8));
  }

  /** A slice of the body is the same slice of the frame, 12 bytes later. */
  lemma Shifted(b: Bytes, body: Bytes, from: nat, to: nat)
    requires |b| >= 12 && b[12..] == body && from <= to <= |body|
    ensures b[12 + from..12 + to] == body[from..to]
  {
  }

  lemma DataLayout(f: Frame, tail: Bytes)
    requires f.Data? && Fits(f) && DATA_FIXED + |f.payload| + |tail| < U32
    ensures var b, n := Encode(f, tail), |f.payload|;
            && |b| == 48 + n + |tail| && b[5] == 1 && Get(b[6..8]) == f.flags && b[12..28] == f.writer
            && Get(b[28..36]) == f.sn && Get(b[36..44]) == f.pubMs && Get(b[44..48]) == n
            && b[48..48 + n] == f.payload && b[48 + n..] == tail
  {
    var body := DataHead(f.writer, f.sn, f.pubMs, |f.payload|) + f.payload + tail;
    var b := Encode(f, tail);
    HeaderLayout(DATA, f.flags, body);
    DataSlices(f.writer, Put(f.sn, 8), Put(f.pubMs, 8), Put(|f.payload|, 4), f.payload, tail);
    RoundTrip(f.sn, 8);
    RoundTrip(f.pubMs, 8);
    RoundTrip(|f.payload|, 4);
    hide Encode, DataHead, Get, Put;
    Shifted(b, body, 0, 16);
    Shifted(b, body, 16, 24);
    Shifted(b, body, 24, 32);
    Shifted(b, body, 32, 36);
    Shifted(b, body, 36, 36 + |f.payload|);
    Shifted(b, body, 36 + |f.payload|, |body|);
    assert b[48 + |f.payload|..] == b[48 + |f.payload|..12 + |body|];
  }

  lemma FragLayout(f: Frame, tail: Bytes)
    requires f.DataFrag? && Fits(f) && FRAG_FIXED + |f.chunk| + |tail| < U32
    ensures var b, n := Encode(f, tail), |f.chunk|;
            && |b| == 56 + n + |tail| && b[5] == 2 && Get(b[6..8]) == f.flags && b[12..28] == f.writer
            && Get(b[28..36]) == f.sn && Get(b[36..44]) == f.pubMs && Get(b[44..48]) == f.total
            && Get(b[48..52]) == f.offset && Get(b[52..56]) == n
            && b[56..56 + n] == f.chunk && b[56 + n..] == tail
  {
    var body := FragHead(f.writer, f.sn, f.pubMs, f.total, f.offset, |f.chunk|) + f.chunk + tail;
    var b := Encode(f, tail);
    HeaderLayout(DATA_FRAG, f.flags, body);
    FragSlices(f.writer, Put(f.sn, 8), Put(f.pubMs, 8), Put(f.total, 4), Put(f.offset, 4), Put(|f.chunk|, 4),
               f.chunk, tail);
    RoundTrip(f.sn, 8);
    RoundTrip(f.pubMs, 8);
    RoundTrip(f.total, 4);
    RoundTrip(f.offset, 4);
    RoundTrip(|f.chunk|, 4);
    hide Encode, FragHead, Get, Put;
    Shifted(b, body, 0, 16);
    Shifted(b, body, 16, 24);
    Shifted(b, body, 24, 32);
    Shifted(b, body, 32, 36);
    Shifted(b, body, 36, 40);
    Shifted(b, body, 40, 44);
    Shifted(b, body, 44, 44 + |f.chunk|);
    Shifted(b, body, 44 + |f.chunk|, |body|);
    assert b[56 + |f.chunk|..] == b[56 + |f.chunk|..12 + |body|];
  }

  lemma TwoGuidsLayout(kind: Byte, g: Guid, h: Guid, a: Bytes, d: Bytes)
    requires |a| == |d| == 8
    ensures var b := Enclose(kind, 0, g + h + a + d);
            && |b| == 60 && b[5] == kind && b[12..28] == g && b[28..44] == h && b[44..52] == a && b[52..60] == d
  {
    var body := g + h + a + d;
    var b := Enclose(kind, 0, body);
    HeaderLayout(kind, 0, body);
    TwoGuidSlices(g, h, a, d);
    Shifted(b, body, 0, 16);
    Shifted(b, body, 16, 32);
    Shifted(b, body, 32, 40);
    Shifted(b, body, 40, 48);
  }

  lemma HeartbeatLayout(f: Frame)
    requires f.Heartbeat? && Fits(f)
    ensures var b := Encode(f, []);
            |b| == 44 && b[5] == 4 && b[12..28] == f.writer && Get(b[28..36]) == f.first && Get(b[36..44]) == f.last
  {
    var body := f.writer + Put(f.first, 8) + Put(f.last, 8);
    var b := Encode(f, []);
    HeaderLayout(HEARTBEAT, 0, body);
    RoundTrip(f.first, 8);
    RoundTrip(f.last, 8);
    assert body[..16] == f.writer && body[16..24] == Put(f.first, 8) && body[24..32] == Put(f.last, 8);
    Shifted(b, body, 0, 16);
    Shifted(b, body, 16, 24);
    Shifted(b, body, 24, 32);
  }

  // ---- nothing else decodes ----

  /** What decodes starts with the magic and version 4, declares no more than is
      there, and its header is the header of its kind, flags and length. */
  lemma HeaderReencodes(buf: Bytes)
    ensures match DecodeHeader(buf)
            case None => true
            case Some(h) =>
              && buf[..4] == [0x4D, 0x44, 0x44, 0x53] && buf[4] == 4 && |buf| >= 12 + h.bodyLen
              && buf[..12] == HeaderBytes(h.kind, h.flags, h.bodyLen)
  {
    if DecodeHeader(buf).Some? {
      PutGet(buf[6..8]);
      PutGet(buf[8..12]);
      assert buf[..12] == buf[..4] + [buf[4], buf[5]] + buf[6..8] + buf[8..12];
    }
  }

  /** And a buffer with a good header is not refused for its header. */
  lemma HeaderAccepted(buf: Bytes)
    requires |buf| >= 12 && buf[..4] == [0x4D, 0x44, 0x44, 0x53] && buf[4] == 4
    requires |buf| - 12 >= Get(buf[8..12])
    ensures DecodeHeader(buf) == Some(Header(buf[5], Get(buf[6..8]), Get(buf[8..12])))
  {
    assert forall i | 0 <= i < 4 :: buf[i] == buf[..4][i];
  }

  /** The fixed part and the payload of a body. */
  function Fields(f: Frame): Bytes {
    match f
    case Data(_, writer, sn, pubMs, payload) => DataHead(writer, sn, pubMs, |payload|) + payload
    case DataFrag(_, writer, sn, pubMs, total, offset, chunk) =>
      FragHead(writer, sn, pubMs, total, offset, |chunk|) + chunk
    case AckNack(reader, writer, base, bitmap) => reader + writer + Put(base, 8) + Put(bitmap, 8)
    case Heartbeat(writer, first, last) => writer + Put(first, 8) + Put(last, 8)
    case Gap(writer, reader, start, end) => writer + reader + Put(start, 8) + Put(end, 8)
  }

  /** Whatever decodes to a frame is that frame's header and fields, followed by
      what else its body declares and what follows the body. */
  lemma DecodedReencodes(buf: Bytes)
    requires Decode(buf).Some?
    ensures var f, h := Decode(buf).value, DecodeHeader(buf);
            && h.Some?
            && h.value.kind == (match f
                                case Data(_, _, _, _, _) => 1
                                case DataFrag(_, _, _, _, _, _, _) => 2
                                case AckNack(_, _, _, _) => 3
                                case Heartbeat(_, _, _) => 4
                                case Gap(_, _, _, _) => 6)
            && HeaderBytes(h.value.kind, h.value.flags, h.value.bodyLen) + Fields(f) <= buf
            && (f.Data? ==> f.flags == h.value.flags) && (f.DataFrag? ==> f.flags == h.value.flags)
  {
    DecodedKind(buf);
    HeaderReencodes(buf);
    FieldsOf(buf);
    hide HeaderBytes, Fields, Decode, DecodeHeader;
    var h := DecodeHeader(buf).value;
    PrefixOfBody(buf, 12 + h.bodyLen, Fields(Decode(buf).value));
  }

  lemma DecodedKind(buf: Bytes)
    requires Decode(buf).Some?
    ensures var f, h := Decode(buf).value, DecodeHeader(buf);
            && h.Some?
            && h.value.kind == (match f
                                case Data(_, _, _, _, _) => 1
                                case DataFrag(_, _, _, _, _, _, _) => 2
                                case AckNack(_, _, _, _) => 3
                                case Heartbeat(_, _, _) => 4
                                case Gap(_, _, _, _) => 6)
            && (f.Data? ==> f.flags == h.value.flags) && (f.DataFrag? ==> f.flags == h.value.flags)
  {
    hide TrailerFrom, Get;
  }

  lemma PrefixOfBody(buf: Bytes, end: nat, fields: Bytes)
    requires 12 <= end <= |buf| && fields <= buf[12..end]
    ensures buf[..12] + fields <= buf
  {
    assert fields == buf[12..12 + |fields|];
    assert buf[..12] + buf[12..12 + |fields|] == buf[..12 + |fields|];
  }

  lemma FieldsOf(buf: Bytes)
    requires Decode(buf).Some?
    ensures Fields(Decode(buf).value) <= buf[12..12 + DecodeHeader(buf).value.bodyLen]
  {
    var h, f := DecodeHeader(buf).value, Decode(buf).value;
    var body := buf[12..12 + h.bodyLen];
    match f
    case Data(_, _, _, _, _) => DataFields(body, f.payload);
    case DataFrag(_, _, _, _, _, _, _) => FragFields(body, f.chunk);
    case AckNack(_, _, _, _) => LongFields(body);
    case Heartbeat(_, _, _) => ShortFields(body);
    case Gap(_, _, _, _) => LongFields(body);
  }

  lemma DataFields(body: Bytes, payload: Bytes)
    requires |body| >= 36 + |payload| && payload == body[36..36 + |payload|] && Get(body[32..36]) == |payload|
    ensures DataHead(body[..16], Get(body[16..24]), Get(body[24..32]), |payload|) + payload <= body
  {
    PutGet(body[16..24]);
    PutGet(body[24..32]);
    PutGet(body[32..36]);
    hide Get, Put;
    assert body[..36 + |payload|] == body[..16] + body[16..24] + body[24..32] + body[32..36] + payload;
  }

  lemma FragFields(body: Bytes, chunk: Bytes)
    requires |body| >= 44 + |chunk| && chunk == body[44..44 + |chunk|] && Get(body[40..44]) == |chunk|
    ensures FragHead(body[..16], Get(body[16..24]), Get(body[24..32]), Get(body[32..36]), Get(body[36..40]), |chunk|)
            + chunk <= body
  {
    PutGet(body[16..24]);
    PutGet(body[24..32]);
    PutGet(body[32..36]);
    PutGet(body[36..40]);
    PutGet(body[40..44]);
    hide Get, Put;
    assert body[..44 + |chunk|] ==
           body[..16] + body[16..24] + body[24..32] + body[32..36] + body[36..40] + body[40..44] + chunk;
  }

  lemma LongFields(body: Bytes)
    requires |body| >= 48
    ensures body[..16] + body[16..32] + Put(Get(body[32..40]), 8) + Put(Get(body[40..48]), 8) <= body
  {
    PutGet(body[32..40]);
    PutGet(body[40..48]);
    hide Get, Put;
    assert body[..48] == body[..16] + body[16..32] + body[32..40] + body[40..48];
  }

  lemma ShortFields(body: Bytes)
    requires |body| >= 32
    ensures body[..16] + Put(Get(body[16..24]), 8) + Put(Get(body[24..32]), 8) <= body
  {
    PutGet(body[16..24]);
    PutGet(body[24..32]);
    hide Get, Put;
    assert body[..32] == body[..16] + body[16..24] + body[24..32];
  }
}
