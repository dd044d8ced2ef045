/** The handlers of a participant that scan its tables, written as the scans
    they are and proved to be the steps of the protocol. */
module Handlers {
  import opened Base
  import opened Frames
  import opened Writers
  import opened Readers
  import opened Systems

  /** The state all handlers work on; each method is one locked region of one
      participant. */
  class Domain {
    var core: Core

    constructor ()
      ensures core == INIT.core
    {
      core := INIT.core;
    }

    /** `deliver_sample`. */
    method DeliverSample(src: Host, dst: Host, writer: Guid, sn: nat, pubMs: nat, payload: Bytes, discovered: bool)
      returns (out: set<Packet>)
      modifies this
      ensures (core, out) == HandleSample(old(core), src, dst, writer, sn, pubMs, payload, discovered)
    {
      hide HandleSample, Offer, Asks, NacksAmong, Partly, Nack;
      SampleByReader(core, src, dst, writer, sn, pubMs, payload, discovered);
      out := {};
      if !discovered || writer !in core.writers { return; }
      ghost var c := core;
      var w := core.writers[writer];
      var item := Item(writer, sn, pubMs, payload, w.state.qos.lifespanMs);
      NobodyYet(c, src, dst, w, item);
      var todo := core.readers.Keys;
      assert c.readers.Keys - todo == {};
      while todo != {}
        invariant todo <= c.readers.Keys && core == c.(readers := Partly(c, todo, dst, w, item))
        invariant out == NacksAmong(c, c.readers.Keys - todo, src, dst, w, item)
        decreases |todo|
      {
        var g :| g in todo;
        PartlyStep(c, todo, g, dst, w, item);
        var asks := OfferTo(g, w, dst, item);
        if asks { out := out + {Packet(dst, src, Nack(g, core.readers[g], writer))}; }
        NacksGrow(c, c.readers.Keys - todo, g, src, dst, w, item);
        assert c.readers.Keys - (todo - {g}) == c.readers.Keys - todo + {g};
        todo := todo - {g};
      }
      assert c.readers.Keys - todo == c.readers.Keys;
    }

    method OfferTo(g: Guid, w: WriterNode, dst: Host, item: Item) returns (asks: bool)
      requires g in core.readers
      modifies this
      ensures var r := old(core).readers[g];
              && core == old(core).(readers := old(core).readers[g := Offer(w, dst, r, item, NowMs(old(core)))])
              && asks == Asks(w, dst, r, item, NowMs(old(core)))
    {
      hide Deliver, Matches;
      asks := false;
      var r := core.readers[g];
      if r.host == dst && Matches(r, w) {
        var (state, _, hole) := Deliver(r.state, item, NowMs(core));
        core := core.(readers := core.readers[g := r.(state := state)]);
        asks := hole && r.state.qos.reliability == RELIABLE && w.state.qos.reliability == RELIABLE;
      } else {
        assert core.readers[g := r] == core.readers;
      }
    }

    /** `handle_heartbeat`. */
    method AnswerHeartbeat(src: Host, dst: Host, f: Frame, env: Env) returns (out: set<Packet>)
      requires f.Heartbeat?
      ensures out == HandleHeartbeat(core, src, dst, f, env).1
    {
      hide NackState, Matches;
      out := {};
      if !env.discovered || f.writer !in core.writers { return; }
      var todo := core.readers.Keys;
      while todo != {}
        invariant todo <= core.readers.Keys
        invariant out == set g | g in core.readers && g !in todo && IsBehind(core, dst, g, f)
                           :: Packet(dst, src, Nack(g, core.readers[g], f.writer))
        decreases |todo|
      {
        var g :| g in todo;
        todo := todo - {g};
        var r := core.readers[g];
        if r.state.qos.reliability != RELIABLE { continue; }
        if !Offered(core, dst, r, f.writer) { continue; }
        var (base, bitmap) := NackState(r.state, f.writer);
        if base <= f.last {
          out := out + {Packet(dst, src, AckNack(g, f.writer, base, bitmap))};
        }
      }
    }

    /** `send_targets_locked`, over the readers the writer knows of. */
    method SendTargets(w: WriterNode, known: set<Guid>) returns (out: set<Host>)
      ensures out == Targets(core, w, known)
    {
      hide Matches;
      out := {};
      var todo := known;
      while todo != {}
        invariant todo <= known
        invariant out == set g | g in known && g !in todo && g in core.readers && Matches(core.readers[g], w)
                           :: core.readers[g].host
        decreases |todo|
      {
        var g :| g in todo;
        todo := todo - {g};
        if g in core.readers && Matches(core.readers[g], w) {
          out := out + {core.readers[g].host};
        }
      }
    }

    /** `replay_history_to_peer`: every writer's history for every new reader. */
    method ReplayHistory(newReaders: set<Guid>, mtu: nat) returns (out: set<Packet>)
      ensures out == set r, g, p | r in newReaders && g in core.writers && p in HandleReplay(core, g, r, mtu).1 :: p
    {
      hide HandleReplay;
      out := {};
      var todo := newReaders;
      while todo != {}
        invariant todo <= newReaders
        invariant out == set r, g, p | r in newReaders && r !in todo && g in core.writers &&
                                       p in HandleReplay(core, g, r, mtu).1 :: p
        decreases |todo|
      {
        var r :| r in todo;
        var sent := ReplayTo(r, mtu);
        out := out + sent;
        todo := todo - {r};
      }
    }

    method ReplayTo(r: Guid, mtu: nat) returns (out: set<Packet>)
      ensures out == set g, p | g in core.writers && p in HandleReplay(core, g, r, mtu).1 :: p
    {
      hide HandleReplay;
      out := {};
      var todo := core.writers.Keys;
      while todo != {}
        invariant todo <= core.writers.Keys
        invariant out == set g, p | g in core.writers && g !in todo && p in HandleReplay(core, g, r, mtu).1 :: p
        decreases |todo|
      {
        var g :| g in todo;
        var sent := ReplayOne(g, r, mtu);
        out := out + sent;
        todo := todo - {g};
      }
    }

    method ReplayOne(g: Guid, r: Guid, mtu: nat) returns (out: set<Packet>)
      ensures out == HandleReplay(core, g, r, mtu).1
    {
      hide SendSample, Matches, LifespanExpired;
      out := {};
      if g !in core.writers || r !in core.readers || !Replayable(core, core.readers[r], core.writers[g]) { return; }
      var w := core.writers[g];
      var dst := core.readers[r].host;
      var h := w.state.history;
      for k := 0 to |h|
        invariant out == set e, p | e in h[..k] && !LifespanExpired(w.state.qos.lifespanMs, e.pubMs, NowMs(core)) &&
                                    p in SendSample(w.host, dst, Flags(w), g, e, mtu) :: p
      {
        assert h[..k + 1] == h[..k] + [h[k]];
        if !LifespanExpired(w.state.qos.lifespanMs, h[k].pubMs, NowMs(core)) {
          out := out + SendSample(w.host, dst, Flags(w), g, h[k], mtu);
        }
      }
      assert h[..|h|] == h;
    }
  }

  /** One reader after being offered the sample. */
  ghost function Offer(w: WriterNode, dst: Host, r: ReaderNode, item: Item, nowMs: nat): ReaderNode {
    if r.host == dst && Matches(r, w) then DeliverTo(r, item, nowMs) else r
  }

  /** The reader notices a hole in a reliable stream. */
  ghost predicate Asks(w: WriterNode, dst: Host, r: ReaderNode, item: Item, nowMs: nat) {
    && r.host == dst && Matches(r, w) && Deliver(r.state, item, nowMs).2
    && r.state.qos.reliability == RELIABLE && w.state.qos.reliability == RELIABLE
  }

  /** The readers when those in `todo` have not been offered the sample yet. */
  ghost function Partly(c: Core, todo: set<Guid>, dst: Host, w: WriterNode, item: Item): map<Guid, ReaderNode> {
    map g | g in c.readers :: if g in todo then c.readers[g] else Offer(w, dst, c.readers[g], item, NowMs(c))
  }

  /** What the readers in `among` ask for. */
  ghost function NacksAmong(c: Core, among: set<Guid>, src: Host, dst: Host, w: WriterNode, item: Item): set<Packet>
    requires among <= c.readers.Keys
  {
    set g | g in among && Asks(w, dst, c.readers[g], item, NowMs(c))
      :: Packet(dst, src, Nack(g, Offer(w, dst, c.readers[g], item, NowMs(c)), item.writer))
  }

  lemma NobodyYet(c: Core, src: Host, dst: Host, w: WriterNode, item: Item)
    ensures NacksAmong(c, {}, src, dst, w, item) == {}
    ensures Partly(c, c.readers.Keys, dst, w, item) == c.readers
  {
  }

  lemma PartlyStep(c: Core, todo: set<Guid>, g: Guid, dst: Host, w: WriterNode, item: Item)
    requires g in todo && todo <= c.readers.Keys
    ensures var rs := Partly(c, todo, dst, w, item);
            && g in rs && rs[g] == c.readers[g]
            && rs[g := Offer(w, dst, c.readers[g], item, NowMs(c))] == Partly(c, todo - {g}, dst, w, item)
  {
    hide Offer;
  }

  lemma NacksGrow(c: Core, among: set<Guid>, g: Guid, src: Host, dst: Host, w: WriterNode, item: Item)
    requires among <= c.readers.Keys && g in c.readers
    ensures NacksAmong(c, among + {g}, src, dst, w, item) ==
            NacksAmong(c, among, src, dst, w, item) +
            if Asks(w, dst, c.readers[g], item, NowMs(c))
            then {Packet(dst, src, Nack(g, Offer(w, dst, c.readers[g], item, NowMs(c)), item.writer))} else {}
  {
    hide Asks, Offer, Nack;
  }

  /** The protocol step, reader by reader. */
  lemma SampleByReader(c: Core, src: Host, dst: Host, writer: Guid, sn: nat, pubMs: nat, payload: Bytes,
                       discovered: bool)
    ensures HandleSample(c, src, dst, writer, sn, pubMs, payload, discovered) ==
            if !discovered || writer !in c.writers then (c, {})
            else
              var w := c.writers[writer];
              var item := Item(writer, sn, pubMs, payload, w.state.qos.lifespanMs);
              (c.(readers := Partly(c, {}, dst, w, item)), NacksAmong(c, c.readers.Keys, src, dst, w, item))
  {
    hide Deliver, Matches, NackState;
    if discovered && writer in c.writers {
      var w := c.writers[writer];
      var item := Item(writer, sn, pubMs, payload, w.state.qos.lifespanMs);
      var (c', out) := HandleSample(c, src, dst, writer, sn, pubMs, payload, discovered);
      assert c'.readers == Partly(c, {}, dst, w, item);
      assert out == NacksAmong(c, c.readers.Keys, src, dst, w, item);
    }
  }

  ghost predicate IsBehind(c: Core, dst: Host, g: Guid, f: Frame)
    requires g in c.readers && f.Heartbeat?
  {
    && Offered(c, dst, c.readers[g], f.writer) && c.readers[g].state.qos.reliability == RELIABLE
    && NackState(c.readers[g].state, f.writer).0 <= f.last
  }
}
