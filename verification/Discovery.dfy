/** ANNOUNCE frames: a participant's full snapshot as nested length-prefixed
    lists, written by appending and read back through a cursor. */
module Discovery {
  import opened Base
  import opened BigEndian
  import opened Frames

  // Strings travel as the bytes they are.
  datatype NodeInfo = NodeInfo(ns: Bytes, name: Bytes)

  datatype Endpoint = Endpoint(guid: Guid, kind: Byte, topic: Bytes, typeName: Bytes, qos: Qos, birthUs: nat)

  datatype Snapshot = Snapshot(participant: Guid, nodes: seq<NodeInfo>, endpoints: seq<Endpoint>)

  const QOS_SIZE: nat := 32

  // ---- layout ----

  function StringBytes(s: Bytes): Bytes { Put(|s|, 2) + s }

  function NodeBytes(n: NodeInfo): Bytes { StringBytes(n.ns) + StringBytes(n.name) }

  function QosBytes(q: Qos): (s: Bytes)
    ensures |s| == QOS_SIZE
  {
    [q.reliability, q.durability, q.history, q.liveliness]
    + Put(q.depth, 4) + Put(q.deadlineMs, 8) + Put(q.lifespanMs, 8) + Put(q.leaseMs, 8)
  }

  function EndpointBytes(e: Endpoint): Bytes {
    e.guid + ([e.kind] + (StringBytes(e.topic) + (StringBytes(e.typeName) + (QosBytes(e.qos) + Put(e.birthUs, 8)))))
  }

  function ListBytes<T>(enc: T -> Bytes, xs: seq<T>): Bytes {
    if xs == [] then [] else enc(xs[0]) + ListBytes(enc, xs[1..])
  }

  /** A counted list; the count is truncated to 16 bits. */
  function CountedBytes<T>(enc: T -> Bytes, xs: seq<T>): Bytes { Put(|xs|, 2) + ListBytes(enc, xs) }

  function AnnounceBody(snap: Snapshot, sn: nat): Bytes {
    snap.participant
    + (Put(sn, 8) + (CountedBytes(NodeBytes, snap.nodes) + CountedBytes(EndpointBytes, snap.endpoints)))
  }

  // ---- the widths of the fields ----

  predicate NodeFits(n: NodeInfo) { |n.ns| < U16 && |n.name| < U16 }

  predicate QosFits(q: Qos) {
    q.depth < U32 && q.deadlineMs < U64 && q.lifespanMs < U64 && q.leaseMs < U64
  }

  predicate EndpointFits(e: Endpoint) {
    |e.topic| < U16 && |e.typeName| < U16 && QosFits(e.qos) && e.birthUs < U64
  }

  predicate SnapshotFits(snap: Snapshot, sn: nat) {
    && sn < U64 && |snap.nodes| < U16 && |snap.endpoints| < U16
    && (forall n | n in snap.nodes :: NodeFits(n))
    && (forall e | e in snap.endpoints :: EndpointFits(e))
  }

  // ---- the bytes ----

  lemma QosLayout(q: Qos)
    requires QosFits(q)
    ensures var b := QosBytes(q);
            && |b| == 32 && b[..4] == [q.reliability, q.durability, q.history, q.liveliness]
            && Get(b[4..8]) == q.depth && Get(b[8..16]) == q.deadlineMs && Get(b[16..24]) == q.lifespanMs
            && Get(b[24..32]) == q.leaseMs
  {
    RoundTrip(q.depth, 4);
    RoundTrip(q.deadlineMs, 8);
    RoundTrip(q.lifespanMs, 8);
    RoundTrip(q.leaseMs, 8);
    QosSlices([q.reliability, q.durability, q.history, q.liveliness],
              Put(q.depth, 4), Put(q.deadlineMs, 8), Put(q.lifespanMs, 8), Put(q.leaseMs, 8));
  }

  /** An endpoint: GUID, kind, topic and type, each after its 16-bit length, the QoS
      in 32 bytes, and the birth. */
  lemma EndpointLayout(e: Endpoint)
    requires EndpointFits(e)
    ensures var b, n, m := EndpointBytes(e), |e.topic|, |e.typeName|;
            && |b| == 61 + n + m && b[..16] == e.guid && b[16] == e.kind
            && Get(b[17..19]) == n && b[19..19 + n] == e.topic
            && Get(b[19 + n..21 + n]) == m && b[21 + n..21 + n + m] == e.typeName
            && b[21 + n + m..53 + n + m] == QosBytes(e.qos) && Get(b[53 + n + m..]) == e.birthUs
  {
    RoundTrip(|e.topic|, 2);
    RoundTrip(|e.typeName|, 2);
    RoundTrip(e.birthUs, 8);
    hide QosBytes, Get, Put;
    EndpointSlices(e.guid, [e.kind], Put(|e.topic|, 2), e.topic, Put(|e.typeName|, 2), e.typeName, QosBytes(e.qos),
                   Put(e.birthUs, 8));
  }

  lemma EndpointSlices(g: Bytes, k: Bytes, a: Bytes, t: Bytes, c: Bytes, y: Bytes, q: Bytes, u: Bytes)
    requires |g| == 16 && |k| == 1 && |a| == |c| == 2 && |q| == 32 && |u| == 8
    ensures var b, n, m := g + (k + (a + t + (c + y + (q + u)))), |t|, |y|;
            && |b| == 61 + n + m && b[..16] == g && b[16..17] == k && b[16] == k[0] && b[17..19] == a
            && b[19..19 + n] == t && b[19 + n..21 + n] == c && b[21 + n..21 + n + m] == y
            && b[21 + n + m..53 + n + m] == q && b[53 + n + m..] == u
  {
  }

  /** The body: participant, announce seq, then the nodes and the endpoints, each list
      after its 16-bit count; a node is its namespace and its name. */
  lemma AnnounceLayout(snap: Snapshot, sn: nat)
    requires SnapshotFits(snap, sn)
    ensures var b, n := AnnounceBody(snap, sn), ListBytes(NodeBytes, snap.nodes);
            && |b| >= 28 + |n| && b[..16] == snap.participant && Get(b[16..24]) == sn
            && Get(b[24..26]) == |snap.nodes| && b[26..26 + |n|] == n
            && Get(b[26 + |n|..28 + |n|]) == |snap.endpoints|
            && b[28 + |n|..] == ListBytes(EndpointBytes, snap.endpoints)
    ensures forall x :: NodeBytes(x) == Put(|x.ns|, 2) + x.ns + (Put(|x.name|, 2) + x.name)
  {
    RoundTrip(sn, 8);
    RoundTrip(|snap.nodes|, 2);
    RoundTrip(|snap.endpoints|, 2);
    var n, m := ListBytes(NodeBytes, snap.nodes), ListBytes(EndpointBytes, snap.endpoints);
    AnnounceSlices(snap.participant, Put(sn, 8), Put(|snap.nodes|, 2), n, Put(|snap.endpoints|, 2), m);
  }

  lemma AnnounceSlices(g: Bytes, s: Bytes, a: Bytes, n: Bytes, c: Bytes, m: Bytes)
    requires |g| == 16 && |s| == 8 && |a| == |c| == 2
    ensures var b := g + (s + (a + n + (c + m)));
            && b[..16] == g && b[16..24] == s && b[24..26] == a && b[26..26 + |n|] == n
            && b[26 + |n|..28 + |n|] == c && b[28 + |n|..] == m
  {
  }

  // ---- reading: a value and what is left, or None ----

  function TakeBytes(s: Bytes, n: nat): Option<(Bytes, Bytes)> {
    if |s| < n then None else Some((s[..n], s[n..]))
  }

  function TakeNumber(s: Bytes, n: nat): Option<(nat, Bytes)> {
    match TakeBytes(s, n)
    case None => None
    case Some((b, rest)) => Some((Get(b), rest))
  }

  function TakeString(s: Bytes): Option<(Bytes, Bytes)> {
    match TakeNumber(s, 2)
    case None => None
    case Some((n, rest)) => TakeBytes(rest, n)
  }

  function TakeNode(s: Bytes): Option<(NodeInfo, Bytes)> {
    match TakeString(s)
    case None => None
    case Some((ns, s1)) =>
      match TakeString(s1)
      case None => None
      case Some((name, s2)) => Some((NodeInfo(ns, name), s2))
  }

  /** `decode_qos`: enumerations are not range-checked. */
  function QosFrom(b: Bytes): Qos
    requires |b| == QOS_SIZE
  {
    Qos(b[0], b[1], b[2], b[3], Get(b[4..8]), Get(b[8..16]), Get(b[16..24]), Get(b[24..32]))
  }

  function TakeQosAndBirth(s: Bytes): Option<((Qos, nat), Bytes)> {
    match TakeBytes(s, QOS_SIZE)
    case None => None
    case Some((q, s1)) =>
      match TakeNumber(s1, 8)
      case None => None
      case Some((birthUs, s2)) => Some(((QosFrom(q), birthUs), s2))
  }

  function TakeEndpoint(s: Bytes): Option<(Endpoint, Bytes)> {
    match TakeBytes(s, 16)
    case None => None
    case Some((guid, s1)) =>
      match TakeBytes(s1, 1)
      case None => None
      case Some((kind, s2)) =>
        match TakeNode(s2)
        case None => None
        case Some((names, s3)) =>
          match TakeQosAndBirth(s3)
          case None => None
          case Some((qb, s4)) => Some((Endpoint(guid, kind[0], names.ns, names.name, qb.0, qb.1), s4))
  }

  function TakeList<T>(take: Bytes -> Option<(T, Bytes)>, s: Bytes, n: nat): Option<(seq<T>, Bytes)>
    decreases n
  {
    if n == 0 then Some(([], s))
    else
      match take(s)
      case None => None
      case Some((x, s1)) =>
        match TakeList(take, s1, n - 1)
        case None => None
        case Some((xs, s2)) => Some(([x] + xs, s2))
  }

  function TakeCounted<T>(take: Bytes -> Option<(T, Bytes)>, s: Bytes): Option<(seq<T>, Bytes)> {
    match TakeNumber(s, 2)
    case None => None
    case Some((n, rest)) => TakeList(take, rest, n)
  }

  function TakeAnnounce(s: Bytes): Option<((Snapshot, nat), Bytes)> {
    match TakeBytes(s, 16)
    case None => None
    case Some((guid, s1)) =>
      match TakeNumber(s1, 8)
      case None => None
      case Some((sn, s2)) =>
        match TakeCounted(TakeNode, s2)
        case None => None
        case Some((nodes, s3)) =>
          match TakeCounted(TakeEndpoint, s3)
          case None => None
          case Some((endpoints, s4)) => Some(((Snapshot(guid, nodes, endpoints), sn), s4))
  }

  function DecodeAnnounce(buf: Bytes): Option<(Snapshot, nat)> {
    match BodyOf(buf, ANNOUNCE, 0)
    case None => None
    case Some(body) =>
      match TakeAnnounce(body)
      case None => None
      case Some((v, _)) => Some(v)
  }

  // ---- both ways, from the bottom up ----

  lemma NumberTaken(v: nat, n: nat, rest: Bytes)
    requires (n == 2 && v < U16) || (n == 4 && v < U32) || (n == 8 && v < U64)
    ensures TakeNumber(Put(v, n) + rest, n) == Some((v, rest))
  {
    RoundTrip(v, n);
    assert (Put(v, n) + rest)[..n] == Put(v, n) && (Put(v, n) + rest)[n..] == rest;
  }

  lemma NumberSound(s: Bytes, n: nat)
    requires n == 2 || n == 4 || n == 8
    ensures var d := TakeNumber(s, n);
            d.Some? ==>
              && s == Put(d.value.0, n) + d.value.1
              && d.value.0 < if n == 2 then U16 else if n == 4 then U32 else U64
  {
    if |s| >= n {
      PutGet(s[..n]);
      Bounds(s[..n]);
    }
  }

  lemma BytesTaken(b: Bytes, rest: Bytes)
    ensures TakeBytes(b + rest, |b|) == Some((b, rest))
  {
  }

  lemma StringTaken(x: Bytes, rest: Bytes)
    requires |x| < U16
    ensures TakeString(StringBytes(x) + rest) == Some((x, rest))
  {
    assert StringBytes(x) + rest == Put(|x|, 2) + (x + rest);
    NumberTaken(|x|, 2, x + rest);
    BytesTaken(x, rest);
  }

  lemma StringSound(s: Bytes)
    ensures var d := TakeString(s);
            d.Some? ==> |d.value.0| < U16 && s == StringBytes(d.value.0) + d.value.1
  {
    NumberSound(s, 2);
  }

  lemma NodeTaken(n: NodeInfo, rest: Bytes)
    requires NodeFits(n)
    ensures TakeNode(NodeBytes(n) + rest) == Some((n, rest))
  {
    assert NodeBytes(n) + rest == StringBytes(n.ns) + (StringBytes(n.name) + rest);
    StringTaken(n.ns, StringBytes(n.name) + rest);
    StringTaken(n.name, rest);
  }

  lemma NodeSound(s: Bytes)
    ensures var d := TakeNode(s);
            d.Some? ==> NodeFits(d.value.0) && s == NodeBytes(d.value.0) + d.value.1
  {
    hide StringBytes, TakeString;
    StringSound(s);
    if TakeString(s).Some? {
      var (ns, s1) := TakeString(s).value;
      StringSound(s1);
      if TakeString(s1).Some? {
        var (name, s2) := TakeString(s1).value;
        assert StringBytes(ns) + (StringBytes(name) + s2) == StringBytes(ns) + StringBytes(name) + s2;
      }
    }
  }

  lemma QosRoundTrip(q: Qos)
    requires QosFits(q)
    ensures QosFrom(QosBytes(q)) == q
  {
    RoundTrip(q.depth, 4);
    RoundTrip(q.deadlineMs, 8);
    RoundTrip(q.lifespanMs, 8);
    RoundTrip(q.leaseMs, 8);
    QosSlices([q.reliability, q.durability, q.history, q.liveliness],
              Put(q.depth, 4), Put(q.deadlineMs, 8), Put(q.lifespanMs, 8), Put(q.leaseMs, 8));
  }

  lemma QosSlices(e: Bytes, a: Bytes, b: Bytes, c: Bytes, d: Bytes)
    requires |e| == |a| == 4 && |b| == |c| == |d| == 8
    ensures var s := e + a + b + c + d;
            && s[..4] == e && s[4..8] == a && s[8..16] == b && s[16..24] == c && s[24..32] == d
  {
  }

  lemma QosReencoded(b: Bytes)
    requires |b| == QOS_SIZE
    ensures QosFits(QosFrom(b)) && QosBytes(QosFrom(b)) == b
  {
    PutGet(b[4..8]);
    PutGet(b[8..16]);
    PutGet(b[16..24]);
    PutGet(b[24..32]);
    Bounds(b[4..8]);
    Bounds(b[8..16]);
    Bounds(b[16..24]);
    Bounds(b[24..32]);
    assert b == b[..4] + b[4..8] + b[8..16] + b[16..24] + b[24..32];
  }

  lemma QosAndBirthTaken(q: Qos, birthUs: nat, rest: Bytes)
    requires QosFits(q) && birthUs < U64
    ensures TakeQosAndBirth(QosBytes(q) + Put(birthUs, 8) + rest) == Some(((q, birthUs), rest))
  {
    hide QosBytes, QosFrom;
    assert QosBytes(q) + Put(birthUs, 8) + rest == QosBytes(q) + (Put(birthUs, 8) + rest);
    BytesTaken(QosBytes(q), Put(birthUs, 8) + rest);
    NumberTaken(birthUs, 8, rest);
    QosRoundTrip(q);
  }

  lemma QosAndBirthSound(s: Bytes)
    ensures var d := TakeQosAndBirth(s);
            d.Some? ==>
              var ((q, birthUs), rest) := d.value;
              QosFits(q) && birthUs < U64 && s == QosBytes(q) + Put(birthUs, 8) + rest
  {
    hide QosBytes, QosFrom;
    if |s| >= QOS_SIZE {
      QosReencoded(s[..QOS_SIZE]);
      NumberSound(s[QOS_SIZE..], 8);
    }
  }

  /** An endpoint's bytes, grouped as they are read. */
  lemma EndpointGrouped(e: Endpoint, rest: Bytes)
    ensures EndpointBytes(e) + rest ==
            e.guid + ([e.kind] + (NodeBytes(NodeInfo(e.topic, e.typeName)) +
                                  (QosBytes(e.qos) + Put(e.birthUs, 8) + rest)))
  {
    hide QosBytes, StringBytes;
  }

  lemma EndpointTaken(e: Endpoint, rest: Bytes)
    requires EndpointFits(e)
    ensures TakeEndpoint(EndpointBytes(e) + rest) == Some((e, rest))
  {
    hide EndpointBytes, NodeBytes, QosBytes, TakeNode, TakeQosAndBirth;
    EndpointGrouped(e, rest);
    var names := NodeInfo(e.topic, e.typeName);
    var s3 := QosBytes(e.qos) + Put(e.birthUs, 8) + rest;
    BytesTaken(e.guid, [e.kind] + (NodeBytes(names) + s3));
    BytesTaken([e.kind], NodeBytes(names) + s3);
    NodeTaken(names, s3);
    QosAndBirthTaken(e.qos, e.birthUs, rest);
  }

  lemma EndpointSound(s: Bytes)
    ensures var d := TakeEndpoint(s);
            d.Some? ==> EndpointFits(d.value.0) && s == EndpointBytes(d.value.0) + d.value.1
  {
    hide EndpointBytes, NodeBytes, QosBytes, TakeNode, TakeQosAndBirth;
    if |s| >= 17 {
      var s2 := s[17..];
      assert s[16..][1..] == s2 && s[16..][..1] == [s[16]];
      assert s == s[..16] + ([s[16]] + s2);
      NodeSound(s2);
      if TakeNode(s2).Some? { QosAndBirthSound(TakeNode(s2).value.1); }
      var d := TakeEndpoint(s);
      if d.Some? { EndpointGrouped(d.value.0, d.value.1); }
    }
  }

  // ---- lists ----

  /** `take` reads back what `enc` writes, and reads nothing else. */
  ghost predicate Codec<T(!new)>(take: Bytes -> Option<(T, Bytes)>, enc: T -> Bytes, fits: T -> bool) {
    && (forall x, rest | fits(x) :: take(enc(x) + rest) == Some((x, rest)))
    && (forall s | take(s).Some? :: fits(take(s).value.0) && s == enc(take(s).value.0) + take(s).value.1)
  }

  lemma {:induction false} ListTaken<T(!new)>(
    take: Bytes -> Option<(T, Bytes)>, enc: T -> Bytes, fits: T -> bool, xs: seq<T>, rest: Bytes)
    requires Codec(take, enc, fits) && forall x | x in xs :: fits(x)
    ensures TakeList(take, ListBytes(enc, xs) + rest, |xs|) == Some((xs, rest))
    decreases |xs|
  {
    if xs == [] {
      assert ListBytes(enc, xs) + rest == rest;
    } else {
      var s1 := ListBytes(enc, xs[1..]) + rest;
      assert ListBytes(enc, xs) + rest == enc(xs[0]) + s1;
      ListTaken(take, enc, fits, xs[1..], rest);
      assert [xs[0]] + xs[1..] == xs;
    }
  }

  lemma {:induction false} ListSound<T(!new)>(
    take: Bytes -> Option<(T, Bytes)>, enc: T -> Bytes, fits: T -> bool, s: Bytes, n: nat)
    requires Codec(take, enc, fits)
    ensures var d := TakeList(take, s, n);
            d.Some? ==>
              var (xs, rest) := d.value;
              |xs| == n && (forall x | x in xs :: fits(x)) && s == ListBytes(enc, xs) + rest
    decreases n
  {
    if n > 0 && take(s).Some? {
      var (x, s1) := take(s).value;
      ListSound(take, enc, fits, s1, n - 1);
      if TakeList(take, s1, n - 1).Some? {
        var (xs, rest) := TakeList(take, s1, n - 1).value;
        assert ([x] + xs)[1..] == xs;
        assert enc(x) + (ListBytes(enc, xs) + rest) == enc(x) + ListBytes(enc, xs) + rest;
      }
    }
  }

  lemma CountedTaken<T(!new)>(
    take: Bytes -> Option<(T, Bytes)>, enc: T -> Bytes, fits: T -> bool, xs: seq<T>, rest: Bytes)
    requires Codec(take, enc, fits) && |xs| < U16 && forall x | x in xs :: fits(x)
    ensures TakeCounted(take, CountedBytes(enc, xs) + rest) == Some((xs, rest))
  {
    hide Codec, TakeList, ListBytes, TakeNumber;
    assert CountedBytes(enc, xs) + rest == Put(|xs|, 2) + (ListBytes(enc, xs) + rest);
    NumberTaken(|xs|, 2, ListBytes(enc, xs) + rest);
    ListTaken(take, enc, fits, xs, rest);
  }

  lemma CountedSound<T(!new)>(take: Bytes -> Option<(T, Bytes)>, enc: T -> Bytes, fits: T -> bool, s: Bytes)
    requires Codec(take, enc, fits)
    ensures var d := TakeCounted(take, s);
            d.Some? ==>
              var (xs, rest) := d.value;
              |xs| < U16 && (forall x | x in xs :: fits(x)) && s == CountedBytes(enc, xs) + rest
  {
    hide Codec, TakeList, ListBytes, TakeNumber;
    NumberSound(s, 2);
    if TakeNumber(s, 2).Some? {
      var (n, s1) := TakeNumber(s, 2).value;
      ListSound(take, enc, fits, s1, n);
      if TakeList(take, s1, n).Some? {
        var (xs, rest) := TakeList(take, s1, n).value;
        assert Put(n, 2) + (ListBytes(enc, xs) + rest) == Put(n, 2) + ListBytes(enc, xs) + rest;
      }
    }
  }

  lemma NodeCodec()
    ensures Codec(TakeNode, NodeBytes, NodeFits)
  {
    hide TakeNode, NodeBytes, NodeFits;
    forall n, rest | NodeFits(n)
      ensures TakeNode(NodeBytes(n) + rest) == Some((n, rest))
    {
      NodeTaken(n, rest);
    }
    forall s | TakeNode(s).Some?
      ensures NodeFits(TakeNode(s).value.0) && s == NodeBytes(TakeNode(s).value.0) + TakeNode(s).value.1
    {
      NodeSound(s);
    }
  }

  lemma EndpointCodec()
    ensures Codec(TakeEndpoint, EndpointBytes, EndpointFits)
  {
    hide TakeEndpoint, EndpointBytes, EndpointFits;
    forall e, rest | EndpointFits(e)
      ensures TakeEndpoint(EndpointBytes(e) + rest) == Some((e, rest))
    {
      EndpointTaken(e, rest);
    }
    forall s | TakeEndpoint(s).Some?
      ensures EndpointFits(TakeEndpoint(s).value.0)
      ensures s == EndpointBytes(TakeEndpoint(s).value.0) + TakeEndpoint(s).value.1
    {
      EndpointSound(s);
    }
  }

  // ---- the whole frame ----

  lemma BodyTaken(snap: Snapshot, sn: nat, rest: Bytes)
    requires SnapshotFits(snap, sn)
    ensures TakeAnnounce(AnnounceBody(snap, sn) + rest) == Some(((snap, sn), rest))
  {
    hide TakeCounted, CountedBytes, TakeNumber, NodeFits, EndpointFits;
    var nodes, eps := CountedBytes(NodeBytes, snap.nodes), CountedBytes(EndpointBytes, snap.endpoints);
    assert AnnounceBody(snap, sn) + rest == snap.participant + (Put(sn, 8) + (nodes + (eps + rest)));
    BytesTaken(snap.participant, Put(sn, 8) + (nodes + (eps + rest)));
    NumberTaken(sn, 8, nodes + (eps + rest));
    NodeCodec();
    CountedTaken(TakeNode, NodeBytes, NodeFits, snap.nodes, eps + rest);
    EndpointCodec();
    CountedTaken(TakeEndpoint, EndpointBytes, EndpointFits, snap.endpoints, rest);
  }

  lemma BodySound(s: Bytes)
    ensures var d := TakeAnnounce(s);
            d.Some? ==>
              var ((snap, sn), rest) := d.value;
              SnapshotFits(snap, sn) && s == AnnounceBody(snap, sn) + rest
  {
    hide TakeCounted, CountedBytes, TakeNumber, NodeFits, EndpointFits, Codec;
    if |s| >= 16 {
      NumberSound(s[16..], 8);
      if TakeNumber(s[16..], 8).Some? {
        var (sn, s2) := TakeNumber(s[16..], 8).value;
        NodeCodec();
        CountedSound(TakeNode, NodeBytes, NodeFits, s2);
        if TakeCounted(TakeNode, s2).Some? {
          var (nodes, s3) := TakeCounted(TakeNode, s2).value;
          EndpointCodec();
          CountedSound(TakeEndpoint, EndpointBytes, EndpointFits, s3);
          if TakeCounted(TakeEndpoint, s3).Some? {
            var (eps, s4) := TakeCounted(TakeEndpoint, s3).value;
            var a, b, c, d := s[..16], Put(sn, 8), CountedBytes(NodeBytes, nodes), CountedBytes(EndpointBytes, eps);
            assert s == a + (b + (c + (d + s4)));
            assert s == a + (b + (c + d)) + s4;
          }
        }
      }
    }
  }

  lemma FittingRoundTrip(snap: Snapshot, sn: nat, rest: Bytes)
    requires SnapshotFits(snap, sn) && |AnnounceBody(snap, sn)| < U32
    ensures DecodeAnnounce(Enclose(ANNOUNCE, 0, AnnounceBody(snap, sn)) + rest) == Some((snap, sn))
  {
    hide TakeAnnounce, AnnounceBody, SnapshotFits;
    var body := AnnounceBody(snap, sn);
    BodyRoundTrip(ANNOUNCE, 0, 0, body, rest);
    BodyTaken(snap, sn, []);
    assert body + [] == body;
  }

  /** Whatever decodes is within the field widths, and encoding it again gives
      exactly the bytes of the body that were consumed. */
  lemma DecodedReencodes(buf: Bytes)
    ensures DecodeAnnounce(buf).Some? ==>
              BodyOf(buf, ANNOUNCE, 0).Some? &&
              var (snap, sn) := DecodeAnnounce(buf).value;
              var body := BodyOf(buf, ANNOUNCE, 0).value;
              SnapshotFits(snap, sn) && AnnounceBody(snap, sn) <= body
  {
    hide TakeAnnounce, AnnounceBody, SnapshotFits;
    var body := BodyOf(buf, ANNOUNCE, 0);
    if body.Some? { BodySound(body.value); }
  }

  lemma BodyLimit(buf: Bytes)
    ensures BodyOf(buf, ANNOUNCE, 0).Some? ==> |BodyOf(buf, ANNOUNCE, 0).value| < U32
  {
    if |buf| >= HEADER_SIZE { Bounds(buf[8..12]); }
  }

  /** What one participant announces any other decodes, whatever bytes follow
      the frame, if and only if no count, length or number was truncated. */
  lemma AnnounceRoundTripIff(snap: Snapshot, sn: nat, rest: Bytes)
    ensures var buf := Enclose(ANNOUNCE, 0, AnnounceBody(snap, sn)) + rest;
            DecodeAnnounce(buf) == Some((snap, sn)) <==> SnapshotFits(snap, sn) && |AnnounceBody(snap, sn)| < U32
  {
    hide DecodeAnnounce, BodyOf, AnnounceBody, SnapshotFits, Enclose;
    var buf := Enclose(ANNOUNCE, 0, AnnounceBody(snap, sn)) + rest;
    DecodedReencodes(buf);
    BodyLimit(buf);
    if SnapshotFits(snap, sn) && |AnnounceBody(snap, sn)| < U32 { FittingRoundTrip(snap, sn, rest); }
  }

  /** Decoding never looks past the declared body. */
  lemma AnnounceIsLocal(buf: Bytes)
    ensures match DecodeHeader(buf)
            case None => DecodeAnnounce(buf) == None
            case Some(h) => DecodeAnnounce(buf) == DecodeAnnounce(buf[..HEADER_SIZE + h.bodyLen])
  {
    hide TakeAnnounce;
    match DecodeHeader(buf)
    case None =>
    case Some(h) =>
      var own := buf[..HEADER_SIZE + h.bodyLen];
      assert own[8..12] == buf[8..12] && own[6..8] == buf[6..8];
      assert own[HEADER_SIZE..HEADER_SIZE + h.bodyLen] == buf[HEADER_SIZE..HEADER_SIZE + h.bodyLen];
  }

  // ---- the encoder, appending to a growing body ----

  lemma AppendOne<T>(enc: T -> Bytes, body: Bytes, xs: seq<T>, i: nat)
    requires i < |xs|
    ensures body + ListBytes(enc, xs[i..]) == body + enc(xs[i]) + ListBytes(enc, xs[i + 1..])
  {
    assert xs[i..][1..] == xs[i + 1..];
  }

  lemma Appended<T>(enc: T -> Bytes, start: Bytes, body: Bytes, xs: seq<T>)
    requires body + ListBytes(enc, xs[|xs|..]) == start + Put(|xs|, 2) + ListBytes(enc, xs)
    ensures body == start + CountedBytes(enc, xs)
  {
    assert ListBytes(enc, xs[|xs|..]) == [];
    hide ListBytes;
    assert body + [] == body;
    assert start + Put(|xs|, 2) + ListBytes(enc, xs) == start + (Put(|xs|, 2) + ListBytes(enc, xs));
  }

  method AppendString(body: Bytes, s: Bytes) returns (out: Bytes)
    ensures out == body + StringBytes(s)
  {
    out := body + Put(|s|, 2);
    out := out + s;
  }

  method AppendNodes(start: Bytes, nodes: seq<NodeInfo>) returns (body: Bytes)
    ensures body == start + CountedBytes(NodeBytes, nodes)
  {
    hide StringBytes;
    body := start + Put(|nodes|, 2);
    ghost var whole := body + ListBytes(NodeBytes, nodes);
    assert nodes[0..] == nodes;
    for i := 0 to |nodes|
      invariant body + ListBytes(NodeBytes, nodes[i..]) == whole
    {
      AppendOne(NodeBytes, body, nodes, i);
      ghost var before := body;
      body := AppendString(body, nodes[i].ns);
      body := AppendString(body, nodes[i].name);
      assert body == before + NodeBytes(nodes[i]);
    }
    Appended(NodeBytes, start, body, nodes);
  }

  method AppendEndpoints(start: Bytes, endpoints: seq<Endpoint>) returns (body: Bytes)
    ensures body == start + CountedBytes(EndpointBytes, endpoints)
  {
    hide StringBytes, QosBytes;
    body := start + Put(|endpoints|, 2);
    ghost var whole := body + ListBytes(EndpointBytes, endpoints);
    assert endpoints[0..] == endpoints;
    for i := 0 to |endpoints|
      invariant body + ListBytes(EndpointBytes, endpoints[i..]) == whole
    {
      AppendOne(EndpointBytes, body, endpoints, i);
      ghost var before := body;
      var e := endpoints[i];
      body := body + e.guid;
      body := body + [e.kind];
      body := AppendString(body, e.topic);
      body := AppendString(body, e.typeName);
      body := body + QosBytes(e.qos);
      body := body + Put(e.birthUs, 8);
      assert body == before + EndpointBytes(e);
    }
    Appended(EndpointBytes, start, body, endpoints);
  }

  method EncodeAnnounce(snap: Snapshot, sn: nat) returns (frame: Bytes)
    ensures frame == Enclose(ANNOUNCE, 0, AnnounceBody(snap, sn))
  {
    hide CountedBytes;
    var body: Bytes := snap.participant;
    body := body + Put(sn, 8);
    body := AppendNodes(body, snap.nodes);
    body := AppendEndpoints(body, snap.endpoints);
    assert body == AnnounceBody(snap, sn);
    frame := Enclose(ANNOUNCE, 0, body);
  }

  // ---- the decoder, moving a cursor ----

  /** `Reader2`. */
  class Cursor {
    const buf: Bytes
    var pos: nat

    ghost predicate Valid()
      reads this
    {
      pos <= |buf|
    }

    ghost function Rest(): Bytes
      reads this
      requires Valid()
    {
      buf[pos..]
    }

    constructor (buf: Bytes)
      ensures Valid() && this.buf == buf && Rest() == buf
    {
      this.buf := buf;
      pos := 0;
    }

    method Raw(n: nat) returns (ok: bool, b: Bytes)
      requires Valid()
      modifies this
      ensures Valid() && ok == TakeBytes(old(Rest()), n).Some?
      ensures if ok then TakeBytes(old(Rest()), n) == Some((b, Rest())) else pos == old(pos)
    {
      if pos + n > |buf| { return false, []; }
      b := buf[pos..pos + n];
      assert buf[pos..][..n] == b && buf[pos..][n..] == buf[pos + n..];
      pos := pos + n;
      ok := true;
    }

    /** `u16` and `u64`. */
    method Number(n: nat) returns (ok: bool, v: nat)
      requires Valid()
      modifies this
      ensures Valid() && ok == TakeNumber(old(Rest()), n).Some?
      ensures if ok then TakeNumber(old(Rest()), n) == Some((v, Rest())) else pos == old(pos)
    {
      if pos + n > |buf| { return false, 0; }
      ghost var rest := Rest();
      var start := pos;
      v := 0;
      for i := 0 to n
        invariant pos == start + i && start + n <= |buf| && v == Get(buf[start..start + i])
      {
        assert buf[start..start + i + 1] == buf[start..start + i] + [buf[start + i]];
        GetSnoc(buf[start..start + i], buf[start + i]);
        v := 256 * v + buf[pos];
        pos := pos + 1;
      }
      assert rest[..n] == buf[start..start + n] && rest[n..] == buf[start + n..];
      ok := true;
    }

    method Str() returns (ok: bool, s: Bytes)
      requires Valid()
      modifies this
      ensures Valid() && ok == TakeString(old(Rest())).Some?
      ensures ok ==> TakeString(old(Rest())) == Some((s, Rest()))
    {
      hide TakeNumber, TakeBytes;
      var n;
      s := [];
      ok, n := Number(2);
      if ok { ok, s := Raw(n); }
    }

    method Node() returns (ok: bool, n: NodeInfo)
      requires Valid()
      modifies this
      ensures Valid() && ok == TakeNode(old(Rest())).Some?
      ensures ok ==> TakeNode(old(Rest())) == Some((n, Rest()))
    {
      hide TakeString;
      var ns, name;
      n := NodeInfo([], []);
      ok, ns := Str();
      if !ok { return; }
      ok, name := Str();
      n := NodeInfo(ns, name);
    }

    method QosAndBirth() returns (ok: bool, qos: Qos, birthUs: nat)
      requires Valid()
      modifies this
      ensures Valid() && ok == TakeQosAndBirth(old(Rest())).Some?
      ensures ok ==> TakeQosAndBirth(old(Rest())) == Some(((qos, birthUs), Rest()))
    {
      hide TakeNumber;
      var b;
      qos, birthUs := Qos(0, 0, 0, 0, 0, 0, 0, 0), 0;
      ok, b := Raw(QOS_SIZE);
      if !ok { return; }
      qos := QosFrom(b);
      ok, birthUs := Number(8);
    }

    method OneEndpoint() returns (ok: bool, e: Option<Endpoint>)
      requires Valid()
      modifies this
      ensures Valid() && ok == TakeEndpoint(old(Rest())).Some?
      ensures ok ==> e.Some? && TakeEndpoint(old(Rest())) == Some((e.value, Rest()))
    {
      hide TakeNode, TakeQosAndBirth;
      var guid, kind, names, qos, birthUs;
      e := None;
      ok, guid := Raw(16);
      if !ok { return; }
      ok, kind := Raw(1);
      if !ok { return; }
      ok, names := Node();
      if !ok { return; }
      ok, qos, birthUs := QosAndBirth();
      if ok { e := Some(Endpoint(guid, kind[0], names.ns, names.name, qos, birthUs)); }
    }

    method Nodes() returns (ok: bool, nodes: seq<NodeInfo>)
      requires Valid()
      modifies this
      ensures Valid() && ok == TakeCounted(TakeNode, old(Rest())).Some?
      ensures ok ==> TakeCounted(TakeNode, old(Rest())) == Some((nodes, Rest()))
    {
      hide TakeNumber, TakeNode, TakeList;
      var count;
      nodes := [];
      ok, count := Number(2);
      if !ok { return; }
      ghost var all := TakeList(TakeNode, Rest(), count);
      PrependNone(all);
      for i := 0 to count
        invariant Valid() && all == Prepended(nodes, TakeList(TakeNode, Rest(), count - i))
      {
        var n;
        TakeOne(TakeNode, nodes, Rest(), count - i);
        ok, n := Node();
        if !ok { return; }
        nodes := nodes + [n];
      }
      TakeNone(TakeNode, nodes, Rest());
      ok := true;
    }

    method Endpoints() returns (ok: bool, endpoints: seq<Endpoint>)
      requires Valid()
      modifies this
      ensures Valid() && ok == TakeCounted(TakeEndpoint, old(Rest())).Some?
      ensures ok ==> TakeCounted(TakeEndpoint, old(Rest())) == Some((endpoints, Rest()))
    {
      hide TakeNumber, TakeEndpoint, TakeList;
      var count;
      endpoints := [];
      ok, count := Number(2);
      if !ok { return; }
      ghost var all := TakeList(TakeEndpoint, Rest(), count);
      PrependNone(all);
      for i := 0 to count
        invariant Valid() && all == Prepended(endpoints, TakeList(TakeEndpoint, Rest(), count - i))
      {
        var e;
        TakeOne(TakeEndpoint, endpoints, Rest(), count - i);
        ok, e := OneEndpoint();
        if !ok { return; }
        endpoints := endpoints + [e.value];
      }
      TakeNone(TakeEndpoint, endpoints, Rest());
      ok := true;
    }

    method Announce() returns (ok: bool, snap: Option<Snapshot>, sn: nat)
      requires Valid()
      modifies this
      ensures Valid() && ok == TakeAnnounce(old(Rest())).Some?
      ensures ok ==> snap.Some? && TakeAnnounce(old(Rest())) == Some(((snap.value, sn), Rest()))
    {
      hide TakeCounted, TakeNumber;
      var guid, nodes, endpoints;
      snap, sn := None, 0;
      ok, guid := Raw(16);
      if !ok { return; }
      ok, sn := Number(8);
      if !ok { return; }
      ok, nodes := Nodes();
      if !ok { return; }
      ok, endpoints := Endpoints();
      if ok { snap := Some(Snapshot(guid, nodes, endpoints)); }
    }
  }

  /** What a list parser still to be run gives, after `done`. */
  ghost function Prepended<T>(done: seq<T>, r: Option<(seq<T>, Bytes)>): Option<(seq<T>, Bytes)> {
    match r
    case None => None
    case Some((xs, rest)) => Some((done + xs, rest))
  }

  lemma PrependNone<T>(r: Option<(seq<T>, Bytes)>)
    ensures Prepended([], r) == r
  {
    if r.Some? { assert [] + r.value.0 == r.value.0; }
  }

  lemma TakeOne<T>(take: Bytes -> Option<(T, Bytes)>, done: seq<T>, s: Bytes, n: nat)
    requires n > 0
    ensures Prepended(done, TakeList(take, s, n)) ==
            match take(s)
            case None => None
            case Some((x, s1)) => Prepended(done + [x], TakeList(take, s1, n - 1))
  {
    if take(s).Some? {
      var (x, s1) := take(s).value;
      if TakeList(take, s1, n - 1).Some? {
        var (xs, rest) := TakeList(take, s1, n - 1).value;
        assert done + ([x] + xs) == done + [x] + xs;
      }
    }
  }

  lemma TakeNone<T>(take: Bytes -> Option<(T, Bytes)>, done: seq<T>, s: Bytes)
    ensures Prepended(done, TakeList(take, s, 0)) == Some((done, s))
  {
    assert done + [] == done;
  }

  /** `decode_announce`. */
  method ReadAnnounce(buf: Bytes) returns (r: Option<(Snapshot, nat)>)
    ensures r == DecodeAnnounce(buf)
  {
    hide TakeAnnounce;
    var body := BodyOf(buf, ANNOUNCE, 0);
    if body.None? { return None; }
    var c := new Cursor(body.value);
    var ok, snap, sn := c.Announce();
    if !ok { return None; }
    return Some((snap.value, sn));
  }
}
