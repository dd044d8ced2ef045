/** The match counts of a participant's endpoints. */
module Matching {
  import opened Base
  import opened Discovery
  import opened Announces
  import opened Sums

  /** An endpoint of this participant. */
  datatype Local = Local(topic: Bytes, typeName: Bytes, qos: Qos)

  /** The writer's view of a remote reader, strict on reliability. */
  predicate ReaderOf(w: Local, e: Endpoint) {
    e.kind == READER && e.topic == w.topic && e.typeName == w.typeName && QosCompatible(e.qos, w.qos)
  }

  predicate LocalReaderOf(w: Local, r: Local) {
    r.topic == w.topic && r.typeName == w.typeName && QosCompatible(r.qos, w.qos)
  }

  /** The reader's view of a remote writer, lenient on reliability. */
  predicate WriterOf(r: Local, e: Endpoint) {
    e.kind == WRITER && e.topic == r.topic && e.typeName == r.typeName && QosAcceptedByReader(r.qos, e.qos)
  }

  predicate LocalWriterOf(r: Local, w: Local) {
    w.topic == r.topic && w.typeName == r.typeName && QosAcceptedByReader(r.qos, w.qos)
  }

  /** What a participant announces of one of its endpoints. */
  predicate Describes(e: Endpoint, kind: Byte, l: Local) {
    e.kind == kind && e.topic == l.topic && e.typeName == l.typeName && e.qos == l.qos
  }

  /** The two sides of a match, local or announced, agree on topic, type and
      durability: a TRANSIENT_LOCAL reader takes nothing from a VOLATILE writer. They
      differ only on reliability: a RELIABLE reader counts a BEST_EFFORT writer that
      does not count it. */
  lemma MatchSides(w: Local, r: Local, ew: Endpoint, er: Endpoint)
    requires Describes(ew, 1, w) && Describes(er, 2, r)
    ensures ReaderOf(w, er) <==> LocalReaderOf(w, r)
    ensures WriterOf(r, ew) <==> LocalWriterOf(r, w)
    ensures WriterOf(r, ew) <==>
            && w.topic == r.topic && w.typeName == r.typeName
            && !(r.qos.durability == 1 && w.qos.durability == 0)
    ensures ReaderOf(w, er) <==> WriterOf(r, ew) && !(r.qos.reliability == 1 && w.qos.reliability == 0)
    ensures !ReaderOf(w, ew) && !WriterOf(r, er)
  {
  }

  // The four views as functions, to count with.
  function RemoteReaders(w: Local): Endpoint -> bool { e => ReaderOf(w, e) }
  function LocalReaders(w: Local): Local -> bool { r => LocalReaderOf(w, r) }
  function RemoteWriters(r: Local): Endpoint -> bool { e => WriterOf(r, e) }
  function LocalWriters(r: Local): Local -> bool { w => LocalWriterOf(r, w) }

  function Count(es: seq<Endpoint>, p: Endpoint -> bool): nat {
    if es == [] then 0 else Count(es[..|es| - 1], p) + if p(es[|es| - 1]) then 1 else 0
  }

  ghost function InSnapshot(p: Endpoint -> bool): Announce -> nat {
    (a: Announce) => Count(a.snap.endpoints, p)
  }

  ghost function IfMatches(p: Local -> bool): Local -> nat {
    (l: Local) => if p(l) then 1 else 0
  }

  /** How many remote endpoints of the table and how many local ones match. */
  ghost function Recount(t: Table, locals: map<Guid, Local>, remote: Endpoint -> bool, local: Local -> bool): nat {
    SumBy(t, InSnapshot(remote)) + SumBy(locals, IfMatches(local))
  }

  datatype Tables = Tables(writers: map<Guid, Local>, readers: map<Guid, Local>, remote: Table)

  ghost function ReadersFor(ts: Tables, w: Local): nat {
    Recount(ts.remote, ts.readers, RemoteReaders(w), LocalReaders(w))
  }

  ghost function WritersFor(ts: Tables, r: Local): nat {
    Recount(ts.remote, ts.writers, RemoteWriters(r), LocalWriters(r))
  }

  // ---- the operations ----

  /** The tables with the counts last stored in the endpoints. */
  datatype Matcher = Matcher(tables: Tables, readerCounts: map<Guid, nat>, writerCounts: map<Guid, nat>)

  /** `recompute_matches`. */
  ghost function Recomputed(ts: Tables): Matcher {
    Matcher(ts,
            map w | w in ts.writers :: ReadersFor(ts, ts.writers[w]),
            map r | r in ts.readers :: WritersFor(ts, ts.readers[r]))
  }

  datatype Event =
    | AddWriter(id: Guid, end: Local)
    | AddReader(id: Guid, end: Local)
    | DropWriter(id: Guid)
    | DropReader(id: Guid)
    | Heard(a: Announce)
    | PeerDown(peer: nat)

  /** `operator==` of endpoints: QoS and birth do not take part. */
  predicate SameEndpoint(e: Endpoint, f: Endpoint) {
    e.guid == f.guid && e.kind == f.kind && e.topic == f.topic && e.typeName == f.typeName
  }

  predicate SameEndpoints(es: seq<Endpoint>, fs: seq<Endpoint>) {
    |es| == |fs| && forall k | 0 <= k < |es| :: SameEndpoint(es[k], fs[k])
  }

  /** `handle_announce` sees a change. */
  predicate Changes(t: Table, a: Announce) {
    var g := a.snap.participant;
    !(g in t && t[g].snap.nodes == a.snap.nodes && SameEndpoints(t[g].snap.endpoints, a.snap.endpoints))
  }

  function Without(t: Table, peer: nat): Table {
    map g | g in t && t[g].peer != peer :: t[g]
  }

  /** The operations on the tables; all but a stale, repeated or unchanged
      announce and an idle peer-down recompute every count. */
  ghost function Apply(m: Matcher, e: Event): Matcher {
    var ts := m.tables;
    match e
    case AddWriter(id, end) => Recomputed(ts.(writers := ts.writers[id := end]))
    case AddReader(id, end) => Recomputed(ts.(readers := ts.readers[id := end]))
    case DropWriter(id) => Recomputed(ts.(writers := ts.writers - {id}))
    case DropReader(id) => Recomputed(ts.(readers := ts.readers - {id}))
    case Heard(a) =>
      if IsStale(ts.remote, a) then m
      else if Changes(ts.remote, a) then Recomputed(ts.(remote := Learn(ts.remote, a)))
      else m.(tables := ts.(remote := Learn(ts.remote, a)))
    case PeerDown(peer) =>
      if Without(ts.remote, peer) == ts.remote then m else Recomputed(ts.(remote := Without(ts.remote, peer)))
  }

  ghost function Run(es: seq<Event>): Matcher {
    if es == [] then Matcher(Tables(map[], map[], map[]), map[], map[]) else Apply(Run(es[..|es| - 1]), es[|es| - 1])
  }

  /** Every stored count is a fresh count. */
  ghost predicate CountsOk(m: Matcher) {
    m == Recomputed(m.tables)
  }

  /** Replacing one snapshot moves a recount by the difference between its
      lists. */
  lemma RecountMoves(t: Table, a: Announce, locals: map<Guid, Local>, p: Endpoint -> bool, q: Local -> bool)
    requires a.snap.participant in t
    ensures var g := a.snap.participant;
            Recount(t[g := a], locals, p, q) + Count(t[g].snap.endpoints, p) ==
            Recount(t, locals, p, q) + Count(a.snap.endpoints, p)
  {
    SumUpdate(t, InSnapshot(p), a.snap.participant, a);
  }

  /** An announce that is accepted without a change to report leaves the stored
      counts right if and only if, for every local endpoint, the new list holds
      as many matches as the old one. */
  lemma UnchangedIff(m: Matcher, a: Announce)
    requires CountsOk(m) && !IsStale(m.tables.remote, a) && !Changes(m.tables.remote, a)
    ensures CountsOk(Apply(m, Heard(a))) <==>
            SameCounts(m.tables, m.tables.remote[a.snap.participant].snap.endpoints, a.snap.endpoints)
  {
    hide Recount, Count, SameEndpoints, RemoteReaders, LocalReaders, RemoteWriters, LocalWriters;
    var ts := m.tables;
    var ts' := ts.(remote := Learn(ts.remote, a));
    var again := Recomputed(ts');
    forall w | w in ts.writers
      ensures ReadersFor(ts', ts.writers[w])
              + Count(ts.remote[a.snap.participant].snap.endpoints, RemoteReaders(ts.writers[w])) ==
              ReadersFor(ts, ts.writers[w]) + Count(a.snap.endpoints, RemoteReaders(ts.writers[w]))
    {
      RecountMoves(ts.remote, a, ts.readers, RemoteReaders(ts.writers[w]), LocalReaders(ts.writers[w]));
    }
    forall r | r in ts.readers
      ensures WritersFor(ts', ts.readers[r])
              + Count(ts.remote[a.snap.participant].snap.endpoints, RemoteWriters(ts.readers[r])) ==
              WritersFor(ts, ts.readers[r]) + Count(a.snap.endpoints, RemoteWriters(ts.readers[r]))
    {
      RecountMoves(ts.remote, a, ts.writers, RemoteWriters(ts.readers[r]), LocalWriters(ts.readers[r]));
    }
    assert m.readerCounts == again.readerCounts <==>
      (forall w | w in ts.writers :: m.readerCounts[w] == again.readerCounts[w]);
    assert m.writerCounts == again.writerCounts <==>
      (forall r | r in ts.readers :: m.writerCounts[r] == again.writerCounts[r]);
  }

  /** The two lists match every local endpoint equally often. */
  ghost predicate SameCounts(ts: Tables, es: seq<Endpoint>, fs: seq<Endpoint>) {
    && (forall w | w in ts.writers ::
          Count(es, RemoteReaders(ts.writers[w])) == Count(fs, RemoteReaders(ts.writers[w])))
    && (forall r | r in ts.readers ::
          Count(es, RemoteWriters(ts.readers[r])) == Count(fs, RemoteWriters(ts.readers[r])))
  }

  // ---- QoS as a function of the endpoint's GUID ----

  /** Everything announced of an endpoint agrees with the QoS it was made with. */
  ghost predicate Truthful(qosOf: map<Guid, Qos>, a: Announce) {
    forall e | e in a.snap.endpoints :: e.guid in qosOf && qosOf[e.guid] == e.qos
  }

  lemma {:induction false} SameQosSameCount(es: seq<Endpoint>, fs: seq<Endpoint>, p: Endpoint -> bool)
    requires |es| == |fs| && forall k | 0 <= k < |es| :: p(es[k]) == p(fs[k])
    ensures Count(es, p) == Count(fs, p)
    decreases |es|
  {
    if es != [] { SameQosSameCount(es[..|es| - 1], fs[..|fs| - 1], p); }
  }

  lemma TruthfulSameCounts(qosOf: map<Guid, Qos>, ts: Tables, a: Announce, b: Announce)
    requires Truthful(qosOf, a) && Truthful(qosOf, b) && SameEndpoints(a.snap.endpoints, b.snap.endpoints)
    ensures SameCounts(ts, a.snap.endpoints, b.snap.endpoints)
  {
    hide Count;
    var es, fs := a.snap.endpoints, b.snap.endpoints;
    forall k | 0 <= k < |es|
      ensures SameEndpoint(es[k], fs[k]) && es[k].qos == fs[k].qos
    {
      assert es[k] in es && fs[k] in fs;
    }
    forall w | w in ts.writers
      ensures Count(es, RemoteReaders(ts.writers[w])) == Count(fs, RemoteReaders(ts.writers[w]))
    {
      SameQosSameCount(es, fs, RemoteReaders(ts.writers[w]));
    }
    forall r | r in ts.readers
      ensures Count(es, RemoteWriters(ts.readers[r])) == Count(fs, RemoteWriters(ts.readers[r]))
    {
      SameQosSameCount(es, fs, RemoteWriters(ts.readers[r]));
    }
  }

  /** Match counts agree with a recount in every reachable state, the unreported
      announces included, because a participant never announces an endpoint with
      another QoS than it was made with. */
  lemma {:induction false} CountsAreFresh(qosOf: map<Guid, Qos>, es: seq<Event>)
    requires forall e | e in es && e.Heard? :: Truthful(qosOf, e.a)
    ensures CountsOk(Run(es))
    ensures forall g | g in Run(es).tables.remote :: Truthful(qosOf, Run(es).tables.remote[g])
  {
    hide Truthful, CountsOk, Changes;
    if es == [] {
      NothingCounted();
    } else {
      var pre, e := es[..|es| - 1], es[|es| - 1];
      CountsAreFresh(qosOf, pre);
      ApplyKeeps(qosOf, Run(pre), e);
    }
  }

  lemma NothingCounted()
    ensures CountsOk(Run([]))
  {
    assert Recomputed(Run([]).tables).readerCounts == map[];
    assert Recomputed(Run([]).tables).writerCounts == map[];
  }

  lemma ApplyKeeps(qosOf: map<Guid, Qos>, m: Matcher, e: Event)
    requires CountsOk(m) && forall g | g in m.tables.remote :: Truthful(qosOf, m.tables.remote[g])
    requires e.Heard? ==> Truthful(qosOf, e.a)
    ensures CountsOk(Apply(m, e))
    ensures forall g | g in Apply(m, e).tables.remote :: Truthful(qosOf, Apply(m, e).tables.remote[g])
  {
    hide Truthful, ReadersFor, WritersFor, SameCounts, SameEndpoints;
    if e.Heard? && !IsStale(m.tables.remote, e.a) && !Changes(m.tables.remote, e.a) {
      TruthfulSameCounts(qosOf, m.tables, m.tables.remote[e.a.snap.participant], e.a);
      UnchangedIff(m, e.a);
    }
  }

  /** The premise is needed: the same reader announced again, RELIABLE instead of
      BEST_EFFORT, is no change, and a BEST_EFFORT writer keeps counting it. */
  lemma ChangedQosGoesUncounted(m: Matcher, id: Guid, g: Guid, k: nat, a: Announce, peer: nat)
    requires CountsOk(m) && id in m.tables.writers && g in m.tables.remote
    requires var w, es := m.tables.writers[id], m.tables.remote[g].snap.endpoints;
             k < |es| && ReaderOf(w, es[k]) && w.qos.reliability == BEST_EFFORT
    requires var old_ := m.tables.remote[g];
             var e := old_.snap.endpoints[k];
             a == Announce(peer, old_.sn + 1, old_.snap.(endpoints :=
                    old_.snap.endpoints[k := e.(qos := e.qos.(reliability := RELIABLE))])) &&
             old_.snap.participant == g
    ensures !CountsOk(Apply(m, Heard(a)))
  {
    hide Count, CountsOk, Apply;
    var w, es := m.tables.writers[id], m.tables.remote[g].snap.endpoints;
    assert !Changes(m.tables.remote, a);
    UnchangedIff(m, a);
    OneLess(es, a.snap.endpoints, k, RemoteReaders(w));
  }

  lemma {:induction false} OneLess(es: seq<Endpoint>, fs: seq<Endpoint>, k: nat, p: Endpoint -> bool)
    requires k < |es| == |fs| && fs == es[k := fs[k]] && p(es[k]) && !p(fs[k])
    ensures Count(es, p) == Count(fs, p) + 1
    decreases |es|
  {
    var n := |es| - 1;
    if k == n {
      assert es[..n] == fs[..n];
    } else {
      assert fs[..n] == es[..n][k := fs[k]];
      OneLess(es[..n], fs[..n], k, p);
    }
  }

  // ---- endpoints that come and go ----

  /** Creating an endpoint adds it, destroying one takes it out, and nothing else does
      either. */
  lemma EndpointsFollow(m: Matcher, e: Event, id: Guid)
    ensures var ts, ts' := m.tables, Apply(m, e).tables;
            && (id in ts'.writers <==> (id in ts.writers && e != DropWriter(id)) || (e.AddWriter? && e.id == id))
            && (id in ts'.readers <==> (id in ts.readers && e != DropReader(id)) || (e.AddReader? && e.id == id))
            && (id in ts'.writers ==>
                  ts'.writers[id] == if e.AddWriter? && e.id == id then e.end else ts.writers[id])
            && (id in ts'.readers ==>
                  ts'.readers[id] == if e.AddReader? && e.id == id then e.end else ts.readers[id])
            && (!e.Heard? && !e.PeerDown? ==> ts'.remote == ts.remote)
            && (e.Heard? ==> ts'.remote == Learn(ts.remote, e.a))
  {
    hide ReadersFor, WritersFor, Changes;
  }

  /** An announce that is not newer changes nothing. A newer one recounts, whatever the
      counts were, unless it repeats the nodes and, in order, the guid, kind, topic and
      type of every endpoint; then the stored counts stay as they were. */
  lemma AnnounceRecounts(m: Matcher, a: Announce)
    ensures var t, g, m' := m.tables.remote, a.snap.participant, Apply(m, Heard(a));
            var newer := g in t ==> t[g].sn < a.sn;
            var es, fs := if g in t then t[g].snap.endpoints else [], a.snap.endpoints;
            var repeats :=
              && g in t && t[g].snap.nodes == a.snap.nodes && |es| == |fs|
              && forall k | 0 <= k < |es| ::
                   es[k].guid == fs[k].guid && es[k].kind == fs[k].kind &&
                   es[k].topic == fs[k].topic && es[k].typeName == fs[k].typeName;
            && (!newer ==> m' == m)
            && (newer && repeats ==> m'.readerCounts == m.readerCounts && m'.writerCounts == m.writerCounts)
            && (newer && !repeats ==> CountsOk(m'))
  {
    hide Recount;
  }

  // ---- peers that go ----

  /** After a peer-down the table holds exactly the participants heard through other
      peers, as they were, and the counts are fresh. */
  lemma PeerDownForgets(qosOf: map<Guid, Qos>, es: seq<Event>, peer: nat, g: Guid)
    requires forall e | e in es && e.Heard? :: Truthful(qosOf, e.a)
    ensures var t, t' := Run(es).tables.remote, Apply(Run(es), PeerDown(peer)).tables.remote;
            && (g in t' <==> g in t && t[g].peer != peer)
            && (g in t' ==> t'[g] == t[g])
            && CountsOk(Apply(Run(es), PeerDown(peer)))
  {
    hide Truthful, CountsOk, Changes, ReadersFor, WritersFor;
    CountsAreFresh(qosOf, es);
    ApplyKeeps(qosOf, Run(es), Event.PeerDown(peer));
  }

  // ---- readers that are new, to replay history to ----

  predicate Known(t: Table, participant: Guid, guid: Guid) {
    participant in t && exists o :: o in t[participant].snap.endpoints && o.guid == guid
  }

  /** The readers of an announce not in the stored snapshot, in order. */
  function NewReaders(t: Table, participant: Guid, es: seq<Endpoint>): seq<Endpoint> {
    if es == [] then []
    else
      var e := es[|es| - 1];
      NewReaders(t, participant, es[..|es| - 1])
      + if e.kind == READER && !Known(t, participant, e.guid) then [e] else []
  }

  lemma {:induction false} NewReadersIff(t: Table, participant: Guid, es: seq<Endpoint>, e: Endpoint)
    ensures e in NewReaders(t, participant, es) <==> e in es && e.kind == READER && !Known(t, participant, e.guid)
  {
    if es != [] {
      NewReadersIff(t, participant, es[..|es| - 1], e);
      assert es == es[..|es| - 1] + [es[|es| - 1]];
    }
  }

  // ---- the class ----

  class Participant {
    var writers: map<Guid, Local>
    var readers: map<Guid, Local>
    var remote: Table
    var readerCounts: map<Guid, nat>
    var writerCounts: map<Guid, nat>

    ghost function State(): Matcher
      reads this
    {
      Matcher(Tables(writers, readers, remote), readerCounts, writerCounts)
    }

    constructor ()
      ensures State() == Run([])
    {
      writers, readers, remote, readerCounts, writerCounts := map[], map[], map[], map[], map[];
    }

    method CountRemote(p: Endpoint -> bool) returns (n: nat)
      ensures n == SumBy(remote, InSnapshot(p))
    {
      n := 0;
      var todo := remote;
      while todo != map[]
        invariant n + SumBy(todo, InSnapshot(p)) == SumBy(remote, InSnapshot(p))
        decreases |todo|
      {
        var g :| g in todo;
        var es := todo[g].snap.endpoints;
        SumSplit(todo, InSnapshot(p), g);
        ghost var before := n;
        for k := 0 to |es|
          invariant n == before + Count(es[..k], p)
        {
          assert es[..k + 1][..k] == es[..k];
          if p(es[k]) { n := n + 1; }
        }
        assert es[..|es|] == es;
        todo := todo - {g};
      }
    }

    method CountLocal(ends: map<Guid, Local>, p: Local -> bool) returns (n: nat)
      ensures n == SumBy(ends, IfMatches(p))
    {
      n := 0;
      var todo := ends;
      while todo != map[]
        invariant n + SumBy(todo, IfMatches(p)) == SumBy(ends, IfMatches(p))
        decreases |todo|
      {
        var g :| g in todo;
        SumSplit(todo, IfMatches(p), g);
        if p(todo[g]) { n := n + 1; }
        todo := todo - {g};
      }
    }

    method MatchedReaders(w: Local) returns (n: nat)
      ensures n == ReadersFor(Tables(writers, readers, remote), w)
    {
      var a := CountRemote(RemoteReaders(w));
      var b := CountLocal(readers, LocalReaders(w));
      n := a + b;
    }

    method MatchedWriters(r: Local) returns (n: nat)
      ensures n == WritersFor(Tables(writers, readers, remote), r)
    {
      var a := CountRemote(RemoteWriters(r));
      var b := CountLocal(writers, LocalWriters(r));
      n := a + b;
    }

    method RecountReaders()
      modifies `readerCounts
      ensures readerCounts == Recomputed(Tables(writers, readers, remote)).readerCounts
    {
      hide ReadersFor, WritersFor;
      ghost var ts := Tables(writers, readers, remote);
      readerCounts := map[];
      var todo := writers.Keys;
      while todo != {}
        invariant todo <= writers.Keys && readerCounts.Keys == writers.Keys - todo
        invariant forall w | w in readerCounts :: readerCounts[w] == ReadersFor(ts, writers[w])
        decreases |todo|
      {
        var id :| id in todo;
        var n := MatchedReaders(writers[id]);
        readerCounts := readerCounts[id := n];
        todo := todo - {id};
      }
      assert readerCounts.Keys == writers.Keys;
    }

    method RecountWriters()
      modifies `writerCounts
      ensures writerCounts == Recomputed(Tables(writers, readers, remote)).writerCounts
    {
      hide ReadersFor, WritersFor;
      ghost var ts := Tables(writers, readers, remote);
      writerCounts := map[];
      var todo := readers.Keys;
      while todo != {}
        invariant todo <= readers.Keys && writerCounts.Keys == readers.Keys - todo
        invariant forall r | r in writerCounts :: writerCounts[r] == WritersFor(ts, readers[r])
        decreases |todo|
      {
        var id :| id in todo;
        var n := MatchedWriters(readers[id]);
        writerCounts := writerCounts[id := n];
        todo := todo - {id};
      }
      assert writerCounts.Keys == readers.Keys;
    }

    /** `recompute_matches`. */
    method RecomputeMatches()
      modifies `readerCounts, `writerCounts
      ensures State() == Recomputed(Tables(writers, readers, remote))
    {
      hide ReadersFor, WritersFor;
      RecountReaders();
      RecountWriters();
    }

    method CreateWriter(id: Guid, end: Local)
      modifies this
      ensures State() == Apply(old(State()), AddWriter(id, end))
    {
      writers := writers[id := end];
      RecomputeMatches();
    }

    method CreateReader(id: Guid, end: Local)
      modifies this
      ensures State() == Apply(old(State()), AddReader(id, end))
    {
      readers := readers[id := end];
      RecomputeMatches();
    }

    method DestroyWriter(id: Guid)
      modifies this
      ensures State() == Apply(old(State()), DropWriter(id))
    {
      writers := writers - {id};
      RecomputeMatches();
    }

    method DestroyReader(id: Guid)
      modifies this
      ensures State() == Apply(old(State()), DropReader(id))
    {
      readers := readers - {id};
      RecomputeMatches();
    }

    /** `handle_announce` after decoding. */
    method HandleAnnounce(a: Announce) returns (newReaders: seq<Endpoint>)
      modifies this
      ensures State() == Apply(old(State()), Heard(a))
      ensures newReaders ==
              if IsStale(old(remote), a) then [] else NewReaders(old(remote), a.snap.participant, a.snap.endpoints)
    {
      hide Changes, Recomputed;
      newReaders := [];
      if IsStale(remote, a) { return; }
      var changed := Changes(remote, a);
      var es := a.snap.endpoints;
      for k := 0 to |es|
        invariant newReaders == NewReaders(remote, a.snap.participant, es[..k])
        invariant State() == old(State())
      {
        assert es[..k + 1][..k] == es[..k];
        if es[k].kind == READER && !Known(remote, a.snap.participant, es[k].guid) {
          newReaders := newReaders + [es[k]];
        }
      }
      assert es[..|es|] == es;
      remote := remote[a.snap.participant := a];
      if changed { RecomputeMatches(); }
    }

    method HandlePeerDown(peer: nat)
      modifies this
      ensures State() == Apply(old(State()), Event.PeerDown(peer))
    {
      hide Recomputed;
      ghost var was := remote;
      var graphChanged := false;
      var todo := remote.Keys;
      while todo != {}
        invariant State() == old(State()).(tables := old(State()).tables.(remote := remote))
        invariant todo <= remote.Keys <= was.Keys && (forall g | g in remote :: remote[g] == was[g])
        invariant forall g | g in was && g !in todo :: g in remote <==> was[g].peer != peer
        invariant graphChanged <==> remote != was
        decreases |todo|
      {
        var g :| g in todo;
        todo := todo - {g};
        if remote[g].peer == peer {
          remote := remote - {g};
          assert g in was && g !in remote;
          graphChanged := true;
        }
      }
      assert remote == Without(was, peer);
      if graphChanged { RecomputeMatches(); }
    }
  }
}
