/** What a read queues for deployment, stated by the frame format, and the order in which queued
    packets are deployed. */
module RxQueueing {
  import opened Bytes
  import opened HostTransfer
  import opened Options
  import opened RxPath

  // ---------- the interrupt ----------

  /** Bit 0 and the high nibble of the interrupt status are the number of blocks; if it is 0 the
      register holds them in its low five bits, and the protocol in the upper three. */
  lemma BlocksAndProtocol(t: RxPath.Transfer)
    ensures t.StatusBlocks() % 2 == t.intStatus % 2 && t.StatusBlocks() / 2 == t.intStatus / 16
    ensures t.intStatus % 2 != 0 || t.intStatus / 16 != 0 ==> t.Blocks() == t.StatusBlocks() && t.Protocol() == WLAN_PKT
    ensures t.intStatus % 2 == t.intStatus / 16 == 0 && t.reg.Some?
            ==> t.reg.value == 0x20 * t.Protocol() + t.Blocks() && t.Blocks() < 0x20
  {
  }

  /** What a frame may be: an extended descriptor only for WLAN, and not for one that comes alone
      while the flash is programmed over QSPI, and at most 2304 bytes of payload in WiFi mode. */
  lemma FrameRules(t: RxPath.Transfer, sdio: bool)
    ensures var cfg, single := t.Cfg(sdio), t.SingleCfg(sdio);
            && cfg.sdio == single.sdio == sdio
            && cfg.wlan == (!t.flashing && t.Protocol() == WLAN_PKT)
            && cfg.MaxLength() == (if t.mode == Wifi && !t.flashing then 2304 else 4096)
            && single.wlan == (cfg.wlan && t.mode != QspiFlashing)
            && single.MaxLength() == cfg.MaxLength()
  {
  }

  /** The card is there, the driver has not stopped, and a transfer of some blocks is read. */
  predicate Reads(s: State, t: RxPath.Transfer) {
    s.aboard && !s.stopped && !t.RegisterFails() && t.Blocks() > 0 && t.readOk
  }

  /** Aggregation is on, and the protocol is one that aggregates. */
  predicate Aggregates(t: RxPath.Transfer) {
    t.taAggr >= 2 && t.Protocol() != BT_PKT && t.Protocol() != ZIGB_PKT
  }

  /** The protocol for which a packet is queued. */
  function KindOf(t: RxPath.Transfer): (k: nat) {
    if t.flashing then COEX_PKT else t.Protocol()
  }

  // ---------- aggregated transfers ----------

  /** A frame that passes is queued while there are buffers, and a frame that does not ends all. */
  lemma ReadAggregated(s: State, t: RxPath.Transfer, sdio: bool, p: Parsed)
    requires s.WellFormed() && t.WellFormed() && Reads(s, t) && Aggregates(t)
    requires p == Parse(t.mem, 0, 256 * t.Blocks(), t.Cfg(sdio))
    ensures p.ok && |p.delivered| <= t.buffers
            ==> Received(s, t, sdio) == s.(deferred := s.deferred + Packets(KindOf(t), p.delivered))
    ensures t.buffers < |p.delivered|
            ==> Received(s, t, sdio) == s.(deferred := s.deferred + Packets(KindOf(t), p.delivered[..t.buffers]))
  {
    hide Parse, Packets, UnaggregatedOk, UnaggregatedPacket, AllStopped;
  }

  /** The frames of an aggregated transfer are queued, each body once and in order. */
  lemma ReadQueuesLayout(s: State, t: RxPath.Transfer, sdio: bool, frames: seq<Frame>)
    requires s.WellFormed() && t.WellFormed() && Reads(s, t) && Aggregates(t)
    requires frames != [] && |frames| <= t.buffers && AllWellFormed(frames, t.Cfg(sdio))
    requires Layout(frames, t.Cfg(sdio)) == t.mem[..256 * t.Blocks()]
    ensures Received(s, t, sdio) == s.(deferred := s.deferred + Packets(KindOf(t), Bodies(frames)))
  {
    hide Received, Parse, Layout, Bodies, AllWellFormed, Packets, Reads, Aggregates, KindOf;
    assert Part(t.mem, 0, 256 * t.Blocks()) == t.mem[..256 * t.Blocks()];
    LayoutIsDelivered(t.mem, 0, frames, t.Cfg(sdio));
    ReadAggregated(s, t, sdio, Parse(t.mem, 0, 256 * t.Blocks(), t.Cfg(sdio)));
  }

  /** When the buffers run out, as many frames are queued as there were buffers, whatever follows
      the frame for which there was none. */
  lemma ReadQueuesLeading(s: State, t: RxPath.Transfer, sdio: bool, frames: seq<Frame>)
    requires s.WellFormed() && t.WellFormed() && Reads(s, t) && Aggregates(t)
    requires t.buffers < |frames| && AllWellFormed(frames, t.Cfg(sdio))
    requires Leads(t.mem, 0, 256 * t.Blocks(), frames, t.Cfg(sdio))
    ensures Received(s, t, sdio) == s.(deferred := s.deferred + Packets(KindOf(t), Bodies(frames)[..t.buffers]))
  {
    hide Received, Parse, Layout, Bodies, AllWellFormed, Packets, Leads, Reads, Aggregates, KindOf;
    var p := Parse(t.mem, 0, 256 * t.Blocks(), t.Cfg(sdio));
    LeadingAreDelivered(t.mem, 0, 256 * t.Blocks(), frames, t.Cfg(sdio));
    assert p.delivered[..t.buffers] == Bodies(frames)[..t.buffers];
    ReadAggregated(s, t, sdio, p);
  }

  lemma {:induction false} BodiesAre(frames: seq<Frame>)
    ensures |Bodies(frames)| == |frames| && forall i :: 0 <= i < |frames| ==> Bodies(frames)[i] == frames[i].body
  {
    if frames != [] {
      BodiesAre(frames[1..]);
      assert forall i :: 0 < i < |frames| ==> frames[i] == frames[1..][i - 1];
    }
  }

  /** When a frame fails before the buffers run out, the frames in front of it are queued, and the
      driver stops for good. */
  lemma ReadQueuesBeforePanic(s: State, t: RxPath.Transfer, sdio: bool, frames: seq<Frame>)
    requires s.WellFormed() && t.WellFormed() && Reads(s, t) && Aggregates(t) && !HoldsFrames(t, sdio)
    requires |frames| <= t.buffers && AllWellFormed(frames, t.Cfg(sdio))
    requires Leads(t.mem, 0, 256 * t.Blocks(), frames, t.Cfg(sdio))
    requires forall more :: |more| == |frames| + 1 && AllWellFormed(more, t.Cfg(sdio))
                            ==> !Leads(t.mem, 0, 256 * t.Blocks(), more, t.Cfg(sdio))
    ensures var r := Received(s, t, sdio);
            r.Panicked() && r.deferred == s.deferred + Packets(KindOf(t), Bodies(frames))
            && r.handled == s.handled && r.writes == s.writes && r.btDeregister == s.btDeregister
  {
    hide Received, Parse, Layout, Bodies, AllWellFormed, Packets, Leads, Reads, Aggregates, KindOf, HoldsFrames;
    var p := Parse(t.mem, 0, 256 * t.Blocks(), t.Cfg(sdio));
    FailsExactlyOnNoFrames(t, sdio);
    DeliversExactlyLeading(t.mem, 256 * t.Blocks(), t.Cfg(sdio), |frames| + 1);
    if frames != [] {
      LeadingAreDelivered(t.mem, 0, 256 * t.Blocks(), frames, t.Cfg(sdio));
    }
    assert p.delivered == Bodies(frames);
    ReadPanics(s, t, sdio, p);
  }

  lemma ReadPanics(s: State, t: RxPath.Transfer, sdio: bool, p: Parsed)
    requires s.WellFormed() && t.WellFormed() && Reads(s, t) && Aggregates(t)
    requires p == Parse(t.mem, 0, 256 * t.Blocks(), t.Cfg(sdio)) && !p.ok && |p.delivered| <= t.buffers
    ensures var r := Received(s, t, sdio);
            r.Panicked() && r.deferred == s.deferred + Packets(KindOf(t), p.delivered)
            && r.handled == s.handled && r.writes == s.writes && r.btDeregister == s.btDeregister
  {
    hide Parse, Packets, UnaggregatedOk, UnaggregatedPacket;
  }

  // ---------- transfers of one packet ----------

  /** The packet for a body: over USB a firmware upgrade request of WLAN goes to the coex layer. */
  function PacketFor(t: RxPath.Transfer, sdio: bool, body: seq<byte>): (p: Packet)
    requires |body| >= FRAME_DESC_SZ
  {
    if !sdio && KindOf(t) == WLAN_PKT && body[2] == RX_MISC_IND && body[15] == FW_UPGRADE_REQ
    then Packet(COEX_PKT, body) else Packet(KindOf(t), body)
  }

  /** A frame that comes alone is queued as one packet, its descriptor and payload, unless too many
      packets wait. */
  lemma ReadQueuesFrame(s: State, t: RxPath.Transfer, sdio: bool, declared: uint16, gap: seq<byte>, body: seq<byte>)
    requires s.WellFormed() && t.WellFormed() && Reads(s, t) && !Aggregates(t) && t.buffers > 0
    requires KindOf(t) != ZIGB_PKT && StartsWithFrame(t, sdio, declared, gap, body)
    requires sdio || 4 + |gap| + |body| <= 256 * t.Blocks()
    ensures Received(s, t, sdio)
            == if |s.deferred| <= 1000 then s.(deferred := s.deferred + [PacketFor(t, sdio, body)]) else s
  {
    FrameRead(t, sdio, declared, gap, body);
    FrameIsDelivered(t, sdio, declared, gap, body);
    hide UnaggregatedOk, UnaggregatedPacket, StartsWithFrame, AllStopped, Parse;
    assert |body| >= FRAME_DESC_SZ by {
      BodyLong(t, sdio, declared, gap, body);
    }
  }

  lemma BodyLong(t: RxPath.Transfer, sdio: bool, declared: uint16, gap: seq<byte>, body: seq<byte>)
    requires t.WellFormed() && StartsWithFrame(t, sdio, declared, gap, body)
    ensures |body| >= FRAME_DESC_SZ
  {
  }

  /** A transfer for ZigBee is queued whole. */
  lemma ReadQueuesZigbee(s: State, t: RxPath.Transfer, sdio: bool)
    requires s.WellFormed() && t.WellFormed() && Reads(s, t) && t.buffers > 0 && KindOf(t) == ZIGB_PKT
    ensures Received(s, t, sdio) == s.(deferred := s.deferred + [Packet(ZIGB_PKT, t.mem[..256 * t.Blocks()])])
  {
    hide Parse, UnaggregatedOk, UnaggregatedPacket, AllStopped;
  }

  // ---------- the read itself ----------

  /** A read of an aggregated transfer that holds these frames, with a buffer for each. */
  method ReadFrames(adapter: Adapter, t: RxPath.Transfer, ghost frames: seq<Frame>)
    requires adapter.Abs().WellFormed() && t.WellFormed() && Reads(adapter.Abs(), t) && Aggregates(t)
    requires frames != [] && |frames| <= t.buffers && AllWellFormed(frames, t.Cfg(adapter.sdio))
    requires Layout(frames, t.Cfg(adapter.sdio)) == t.mem[..256 * t.Blocks()]
    modifies adapter
    ensures |adapter.deferred| == old(|adapter.deferred|) + |frames| && old(adapter.deferred) <= adapter.deferred
    ensures forall i :: 0 <= i < |frames| ==>
              adapter.deferred[old(|adapter.deferred|) + i] == Packet(KindOf(t), frames[i].body)
    ensures adapter.Abs() == old(adapter.Abs()).(deferred := adapter.deferred)
  {
    ReadQueuesLayout(adapter.Abs(), t, adapter.sdio, frames);
    BodiesAre(frames);
    hide Received, Layout, AllWellFormed, Bodies;
    adapter.ReadPkt(t);
  }

  // ---------- runs ----------

  /** What one call adds to the queue, and what it takes from its front. */
  function Added(s: State, e: Event, sdio: bool): (p: seq<Packet>)
    requires s.WellFormed() && e.WellFormed()
  {
    var r := Step(s, e, sdio);
    if e.Read? && |s.deferred| <= |r.deferred| then r.deferred[|s.deferred|..] else []
  }

  function Taken(s: State, e: Event): (p: seq<Packet>) {
    if e.Deploy? && s.deferred != [] then [s.deferred[0]] else []
  }

  /** What the reads of a run add to the queue. */
  ghost function Arrived(s: State, events: seq<Event>, sdio: bool): (p: seq<Packet>)
    requires s.WellFormed() && AllEventsWellFormed(events)
  {
    if events == [] then []
    else
      var n := |events| - 1;
      Arrived(s, events[..n], sdio) + Added(After(s, events[..n], sdio), events[n], sdio)
  }

  /** What the deployments of a run take from its front. */
  ghost function Departed(s: State, events: seq<Event>, sdio: bool): (p: seq<Packet>)
    requires s.WellFormed() && AllEventsWellFormed(events)
  {
    if events == [] then []
    else
      var n := |events| - 1;
      Departed(s, events[..n], sdio) + Taken(After(s, events[..n], sdio), events[n])
  }

  lemma StepQueues(s: State, e: Event, sdio: bool)
    requires s.WellFormed() && e.WellFormed()
    ensures var r := Step(s, e, sdio);
            && s.deferred + Added(s, e, sdio) == Taken(s, e) + r.deferred
            && (r.handled == s.handled || (Taken(s, e) != [] && r.handled == s.handled + Taken(s, e)))
  {
    hide Parse, UnaggregatedOk, UnaggregatedPacket, Packets, Deployed;
    if e.Deploy? && s.deferred != [] {
      var taken := s.(deferred := s.deferred[1..]);
      HandledExactly(taken, s.deferred[0], e.active);
      DeployedLeaves(taken, s.deferred[0], e.active);
    }
  }

  ghost predicate Subsequence(some: seq<Packet>, all: seq<Packet>) {
    some == [] || (all != []
                   && ((some[|some| - 1] == all[|all| - 1] && Subsequence(some[..|some| - 1], all[..|all| - 1]))
                       || Subsequence(some, all[..|all| - 1])))
  }

  lemma Carried(start: seq<Packet>, arrived: seq<Packet>, departed: seq<Packet>, before: seq<Packet>,
                added: seq<Packet>, taken: seq<Packet>, now: seq<Packet>)
    requires start + arrived == departed + before && before + added == taken + now
    ensures start + (arrived + added) == departed + taken + now
  {
    assert start + (arrived + added) == start + arrived + added;
    assert departed + before + added == departed + (before + added);
    assert departed + (taken + now) == departed + taken + now;
  }

  /** Over every run: what was queued is what was deployed, in the same order, followed by what
      waits. */
  lemma {:induction false} QueueKeepsOrder(s: State, events: seq<Event>, sdio: bool)
    requires s.WellFormed() && AllEventsWellFormed(events)
    ensures s.deferred + Arrived(s, events, sdio) == Departed(s, events, sdio) + After(s, events, sdio).deferred
  {
    hide Step, Added, Taken;
    if events != [] {
      var n := |events| - 1;
      var before := After(s, events[..n], sdio);
      QueueKeepsOrder(s, events[..n], sdio);
      StepQueues(before, events[n], sdio);
      Carried(s.deferred, Arrived(s, events[..n], sdio), Departed(s, events[..n], sdio), before.deferred,
              Added(before, events[n], sdio), Taken(before, events[n]), After(s, events, sdio).deferred);
    }
  }

  /** Over every run: what was handled was deployed, in that order. */
  lemma {:induction false} HandledInOrder(s: State, events: seq<Event>, sdio: bool)
    requires s.WellFormed() && AllEventsWellFormed(events)
    ensures var r := After(s, events, sdio);
            s.handled <= r.handled && Subsequence(r.handled[|s.handled|..], Departed(s, events, sdio))
  {
    hide Step, Subsequence;
    if events == [] {
      NothingHandled(s.handled);
    } else {
      var n := |events| - 1;
      var before := After(s, events[..n], sdio);
      HandledInOrder(s, events[..n], sdio);
      StepQueues(before, events[n], sdio);
      HandledMore(s.handled, before.handled, After(s, events, sdio).handled, Departed(s, events[..n], sdio),
                  Taken(before, events[n]));
    }
  }

  lemma NothingHandled(handled: seq<Packet>)
    ensures Subsequence(handled[|handled|..], [])
  {
  }

  lemma HandledMore(start: seq<Packet>, before: seq<Packet>, now: seq<Packet>, all: seq<Packet>, taken: seq<Packet>)
    requires start <= before && Subsequence(before[|start|..], all) && |taken| <= 1
    requires now == before || (taken != [] && now == before + taken)
    ensures start <= now && Subsequence(now[|start|..], all + taken)
  {
    if taken == [] {
      assert all + taken == all;
    } else {
      var some, more := now[|start|..], all + taken;
      assert more[..|all|] == all;
      if now != before {
        assert some[..|some| - 1] == before[|start|..];
      }
    }
  }
}
