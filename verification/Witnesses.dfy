/** Runs that end in a stuck pair, and in a VOLATILE reader with a sample from
    before its birth. */
module Witnesses {
  import opened Base
  import opened Frames
  import opened Writers
  import opened Readers
  import opened Systems
  import opened Invariants
  import opened Preservation
  import opened Healing
  import opened Convergence
  import opened Runs

  /** From any reachable state whose answer holds a GAP, the protocol can deliver
      that answer in the order it is sent. */
  lemma OrderedRun(steps: seq<Step>, g: Guid, w: Guid, env: Env) returns (more: seq<Step>)
    requires var c := Exec(steps).core;
             && Ready(c, g, w, env) && c.readers[g].state.qos.reliability == RELIABLE
             && Track(c, g, w).rx.last < c.writers[w].state.sn && GapTop(c, g, w) > 0
    ensures IsOrderedRound(Exec(steps).core, Exec(steps + more).core, g, w, env)
  {
    hide CoreInv, Wanted, GapTop, TrackOf, Answer, HandleFrame, Exec, ReceiveAll, SendSample;
    var c := Exec(steps).core;
    var ask := AskAndAnswer(steps, g, w, env);
    var gap := Packet(c.writers[w].host, c.readers[g].host, Gap(w, g, Track(c, g, w).rx.last + 1, GapTop(c, g, w)));
    AnswerIff(c, g, w, env, gap);
    forall p | p in Answer(c, g, w, env) && p.frame.Gap?
      ensures p == gap
    {
      TheGap(c, g, w, env, p);
    }
    var pre := Listed(set p | p in Answer(c, g, w, env) && !p.frame.Gap?);
    var ps := pre + [gap];
    assert forall p :: p in ps <==> p in Answer(c, g, w, env);
    ReceiveAllIsRun(steps + ask, ps, env);
    more := ask + Receives(ps, env);
    assert steps + more == steps + ask + Receives(ps, env);
  }

  // ---- a late joiner ----

  const RELIABLE_QOS: Qos := Qos(RELIABLE, VOLATILE, KEEP_LAST, 0, 10, 0, 0, 0)
  const WRITER_GUID: Guid := [1, 0, 0, 0, 0, 0, 0, 0, 0, 0, 0, 0, 0, 0, 0, 0]
  const READER_GUID: Guid := [2, 0, 0, 0, 0, 0, 0, 0, 0, 0, 0, 0, 0, 0, 0, 0]

  /** One sample, then a VOLATILE reader, then another sample that goes out
      before the reader is discovered. */
  const LATE_JOIN: seq<Step> := [
    CreateWriter(WRITER_GUID, 0, "t", "T", RELIABLE_QOS),
    Write(WRITER_GUID, [], {}, map[]),
    Tick(1),
    CreateReader(READER_GUID, 1, "t", "T", RELIABLE_QOS, false),
    Write(WRITER_GUID, [], {}, map[])]

  const FIRST: Sample := SampleAtTime(1, 0)
  const SECOND: Sample := SampleAtTime(2, 1)

  function OneWriter(n: WriterState): map<Guid, WriterNode> { Sole(WRITER_GUID, "t", "T", n) }

  lemma LateJoinState()
    ensures var c := Exec(LATE_JOIN).core;
            && c.writers == OneWriter(WriterState(RELIABLE_QOS, 2, [FIRST, SECOND], [FIRST, SECOND]))
            && c.readers == map[READER_GUID := ReaderNode(1, "t", "T", 1, false, Fresh(RELIABLE_QOS))]
  {
    hide HandleWrite, Exec;
    var ss := LATE_JOIN;
    assert Exec(ss[..0]) == INIT by { InitExec(); }
    CoreSnoc(ss, 0);
    CoreSnoc(ss, 1);
    CoreSnoc(ss, 2);
    CoreSnoc(ss, 3);
    CoreSnoc(ss, 4);
    assert [] + [FIRST] == [FIRST] && [FIRST] + [SECOND] == [FIRST, SECOND];
    KeptWrite(Exec(ss[..1]).core, WRITER_GUID, "t", "T", WriterState(RELIABLE_QOS, 0, [], []), {}, map[]);
    KeptWrite(Exec(ss[..4]).core, WRITER_GUID, "t", "T", WriterState(RELIABLE_QOS, 1, [FIRST], [FIRST]), {}, map[]);
    assert ss[..5] == ss;
  }

  /** The stuck state is reachable without loss, duplication or reordering: a
      late-joining VOLATILE reader asks once, is answered in order, and from
      then on no further round moves its baseline. */
  lemma StuckIsReachable() returns (steps: seq<Step>)
    ensures var c := Exec(steps).core;
            && Ready(c, READER_GUID, WRITER_GUID, SOME_ENV) && Holds(c, WRITER_GUID)
            && Stuck(c, READER_GUID, WRITER_GUID)
            && Track(c, READER_GUID, WRITER_GUID).rx.last == 1 < c.writers[WRITER_GUID].state.sn
  {
    hide CoreInv, Exec, IsOrderedRound, Resends, GapEnd;
    LateJoinState();
    RunKeeps(LATE_JOIN);
    var c := Exec(LATE_JOIN).core;
    LateJoinGap(c);
    var more := OrderedRun(LATE_JOIN, READER_GUID, WRITER_GUID, SOME_ENV);
    steps := LATE_JOIN + more;
    var c' := Exec(steps).core;
    OrderedGapSticksIff(c, c', READER_GUID, WRITER_GUID, SOME_ENV);
    OrderedGapSticks(c, c', READER_GUID, WRITER_GUID, SOME_ENV);
  }

  lemma LateJoinGap(c: Core)
    requires CoreInv(c) && WRITER_GUID in c.writers && READER_GUID in c.readers
    requires c.writers[WRITER_GUID].state.history == [FIRST, SECOND]
    requires c.readers[READER_GUID] == ReaderNode(1, "t", "T", 1, false, Fresh(RELIABLE_QOS))
    ensures GapTop(c, READER_GUID, WRITER_GUID) == 1
  {
    hide CoreInv, GapTop;
    GapTopIff(c, READER_GUID, WRITER_GUID, 1);
    var h := c.writers[WRITER_GUID].state.history;
    FindContiguous(h, 2, 1);
    FindContiguous(h, 2, GapTop(c, READER_GUID, WRITER_GUID));
  }

  // ---- two readers on one participant ----

  const OTHER_GUID: Guid := [3, 0, 0, 0, 0, 0, 0, 0, 0, 0, 0, 0, 0, 0, 0, 0]

  /** A sample is sent to the participant of one reader; before it arrives a
      second VOLATILE reader is made there. */
  const SHARED_HOST: seq<Step> := [
    CreateWriter(WRITER_GUID, 0, "t", "T", RELIABLE_QOS),
    CreateReader(READER_GUID, 1, "t", "T", RELIABLE_QOS, false),
    Write(WRITER_GUID, [], {READER_GUID}, map[1 := 1400]),
    Tick(1),
    CreateReader(OTHER_GUID, 1, "t", "T", RELIABLE_QOS, false)]

  const FIRST_DATA: Packet := FrameOf(WRITER_GUID, FIRST)

  lemma SharedHostState()
    ensures var s := Exec(SHARED_HOST);
            && s.core.writers == OneWriter(WriterState(RELIABLE_QOS, 1, [FIRST], [FIRST]))
            && FIRST_DATA in s.net && s.core.nowUs == 1
            && s.core.readers == map[READER_GUID := ReaderNode(1, "t", "T", 0, false, Fresh(RELIABLE_QOS)),
                                     OTHER_GUID := ReaderNode(1, "t", "T", 1, false, Fresh(RELIABLE_QOS))]
  {
    hide HandleWrite, Exec, CoreInv, NetOk;
    var ss := SHARED_HOST;
    assert Exec(ss[..0]) == INIT by { InitExec(); }
    CoreSnoc(ss, 0);
    CoreSnoc(ss, 1);
    CoreSnoc(ss, 2);
    CoreSnoc(ss, 3);
    CoreSnoc(ss, 4);
    assert [] + [FIRST] == [FIRST];
    RunKeeps(ss[..2]);
    KeptWrite(Exec(ss[..2]).core, WRITER_GUID, "t", "T", WriterState(RELIABLE_QOS, 0, [], []),
              {READER_GUID}, map[1 := 1400]);
    KeptWriteSends(Exec(ss[..2]).core, WRITER_GUID, "t", "T", WriterState(RELIABLE_QOS, 0, [], []), READER_GUID);
    NetSnoc(ss, 2);
    NetSnoc(ss, 3);
    NetSnoc(ss, 4);
    assert ss[..5] == ss;
  }

  /** With two readers on a participant the entitlement is not per reader: the
      later VOLATILE reader accepts a sample published before its birth. */
  lemma SharedHostLeaks()
    ensures var c := Exec(SHARED_HOST + [Receive(FIRST_DATA, SOME_ENV)]).core;
            && OTHER_GUID in c.readers && Clamp(c.readers[OTHER_GUID])
            && Published(c, WRITER_GUID, 1) && 1 in Track(c, OTHER_GUID, WRITER_GUID).got
            && SampleAt(c, WRITER_GUID, 1).pubUs < c.readers[OTHER_GUID].birthUs
  {
    hide Exec;
    SharedHostState();
    FrameAccepted(SHARED_HOST, WRITER_GUID, FIRST, OTHER_GUID);
  }
}
