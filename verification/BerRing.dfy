/** The ring of received Bluetooth packets for bit error rate runs: the push branch of the
    receive path and the arming and fetching commands, against a queue. */
module BerRing {
  import opened Bytes

  const SLOTS: nat := 256
  const PACKET_MEM: nat := 1035
  /** A reply with the two header words may not be longer than this. */
  const MAX_REPLY: nat := 1035

  datatype Slot = Free | Used(data: seq<byte>)

  // ---------- the queue ----------

  /** What is left to receive, the packets that wait, and the next sequence byte. */
  datatype Fifo = Fifo(credits: nat, queue: seq<seq<byte>>, inx: byte)

  /** A delivery: its sequence byte, the packet, and the count of packets when it was fetched. */
  datatype Fetched = Nothing | Fetched(inx: byte, packet: seq<byte>, avail: uint16)

  function Next8(inx: byte): (r: byte) {
    if inx < 0xFF then inx + 1 else 0
  }

  function Push(f: Fifo, packet: seq<byte>): (g: Fifo) {
    if f.credits == 0 then f else f.(credits := f.credits - 1, queue := f.queue + [packet])
  }

  /** A packet that is too long is refused but stays in front, and uses up a sequence byte. */
  function Pop(f: Fifo): (g: Fifo) {
    if f.queue == [] then f
    else if |f.queue[0]| + 3 > MAX_REPLY then f.(inx := Next8(f.inx))
    else f.(queue := f.queue[1..], inx := Next8(f.inx))
  }

  function Popped(f: Fifo): (d: Fetched)
    requires |f.queue| < 0x1_0000
  {
    if f.queue == [] || |f.queue[0]| + 3 > MAX_REPLY then Nothing
    else Fetched(f.inx, f.queue[0], |f.queue|)
  }

  // ---------- the reply ----------

  /** The reply as it is meant: the length, the sequence byte, the length again, the packet. */
  function Meant(inx: byte, packet: seq<byte>): (s: seq<byte>)
    requires |packet| + 3 <= MAX_REPLY
  {
    Bytes16(|packet| + 3) + [inx] + Bytes16(|packet| + 3) + packet
  }

  /** The reply as it is sent.  The count of packets is stored behind the 1032 data bytes of the
      reply structure, after the packet was copied there from byte 3 on. */
  function Reply(inx: byte, packet: seq<byte>, avail: uint16): (s: seq<byte>)
    requires |packet| + 3 <= MAX_REPLY
  {
    var s := Meant(inx, packet);
    if |s| <= 1034 then s
    else if |s| == 1035 then s[1034 := Bytes16(avail)[0]]
    else s[1034 := Bytes16(avail)[0]][1035 := Bytes16(avail)[1]]
  }

  /** A reply carries its packet unchanged exactly if the packet has at most 1029 bytes, or the
      count happens to equal the one or two bytes it overwrites. */
  lemma ReplyIntactExactly(inx: byte, packet: seq<byte>, avail: uint16)
    requires |packet| + 3 <= MAX_REPLY
    ensures Reply(inx, packet, avail) == Meant(inx, packet)
            <==> (|packet| >= 1030 ==> packet[1029] == avail % 0x100)
                 && (|packet| >= 1031 ==> packet[1030] == avail / 0x100)
  {
    var s, n := Meant(inx, packet), |packet|;
    assert forall k :: 0 <= k < n ==> s[5 + k] == packet[k];
    if n >= 1030 {
      assert s[5 + 1029] == packet[1029];
    }
    if n >= 1031 {
      assert s[5 + 1030] == packet[1030];
    }
    assert Bytes16(avail)[0] == avail % 0x100 && Bytes16(avail)[1] == avail / 0x100;
    var r := Reply(inx, packet, avail);
    assert n >= 1030 ==> r[1034] == Bytes16(avail)[0];
    assert n >= 1031 ==> r[1035] == Bytes16(avail)[1];
  }

  /** The bytes of a reply as it is sent: its length twice, the sequence byte, and the packet,
      whose last bytes make room for the count of packets. */
  predicate Says(sent: seq<byte>, inx: byte, packet: seq<byte>, avail: uint16) {
    var n := |packet|;
    && |sent| == n + 5 && Word16(sent, 0) == n + 3 == Word16(sent, 3) && sent[2] == inx
    && (forall i :: 0 <= i < n && i != 1029 && i != 1030 ==> sent[5 + i] == packet[i])
    && (n >= 1030 ==> sent[1034] == avail % 0x100) && (n >= 1031 ==> sent[1035] == avail / 0x100)
  }

  lemma ReplySays(inx: byte, packet: seq<byte>, avail: uint16)
    requires |packet| + 3 <= MAX_REPLY
    ensures Says(Reply(inx, packet, avail), inx, packet, avail)
  {
    var n, s := |packet|, Meant(inx, packet);
    assert s[0] == Bytes16(n + 3)[0] && s[1] == Bytes16(n + 3)[1] && s[2] == inx;
    assert s[3] == Bytes16(n + 3)[0] && s[4] == Bytes16(n + 3)[1];
    assert forall i :: 0 <= i < n ==> s[5 + i] == packet[i];
    assert Bytes16(avail)[0] == avail % 0x100 && Bytes16(avail)[1] == avail / 0x100;
  }

  // ---------- runs ----------

  datatype Event = Receive(packet: seq<byte>) | Fetch

  predicate AllFit(events: seq<Event>) {
    forall i :: 0 <= i < |events| && events[i].Receive? ==> |events[i].packet| + 3 <= MAX_REPLY
  }

  /** The queue after some events from arming on. */
  ghost function After(count: byte, events: seq<Event>): (f: Fifo) {
    if events == [] then Fifo(count, [], 0)
    else
      var f := After(count, events[..|events| - 1]);
      match events[|events| - 1]
      case Receive(packet) => Push(f, packet)
      case Fetch => Pop(f)
  }

  /** The packets that the fetches of a run deliver. */
  ghost function Delivered(count: byte, events: seq<Event>): (d: seq<Fetched>) {
    if events == [] then []
    else
      var before := events[..|events| - 1];
      var f := After(count, before);
      if events[|events| - 1].Fetch? && |f.queue| < 0x1_0000 && Popped(f).Fetched?
      then Delivered(count, before) + [Popped(f)] else Delivered(count, before)
  }

  /** The first packets of the run, as many as were armed for. */
  ghost function Accepted(count: byte, events: seq<Event>): (p: seq<seq<byte>>)
    ensures |p| <= count
  {
    if events == [] then []
    else
      var p := Accepted(count, events[..|events| - 1]);
      if events[|events| - 1].Receive? && |p| < count then p + [events[|events| - 1].packet] else p
  }

  /** All the packets that come. */
  function Incoming(events: seq<Event>): (p: seq<seq<byte>>) {
    if events == [] then []
    else
      var last := events[|events| - 1];
      Incoming(events[..|events| - 1]) + if last.Receive? then [last.packet] else []
  }

  lemma {:induction false} AcceptedAreFirst(count: byte, events: seq<Event>)
    ensures Accepted(count, events) == Incoming(events)[..Min(count, |Incoming(events)|)]
  {
    if events != [] {
      AcceptedAreFirst(count, events[..|events| - 1]);
    }
  }

  /** The deliveries are the accepted packets once each and in order, with consecutive sequence
      bytes from 0, and what is not yet delivered is the queue. */
  lemma {:induction false} DeliveredInOrder(count: byte, events: seq<Event>)
    requires AllFit(events)
    ensures var f, d, p := After(count, events), Delivered(count, events), Accepted(count, events);
            && f.credits + |p| == count && |d| <= |p| && f.inx == |d| && f.queue == p[|d|..]
            && (forall i :: 0 <= i < |d| ==> d[i].Fetched? && d[i].inx == i && d[i].packet == p[i])
            && (forall i :: 0 <= i < |p| ==> |p[i]| + 3 <= MAX_REPLY)
  {
    if events != [] {
      var before := events[..|events| - 1];
      DeliveredInOrder(count, before);
    }
  }

  /** Once a packet that is too long is in front, no fetch delivers anything any more. */
  lemma {:induction false} TooLongBlocks(count: byte, events: seq<Event>, n: nat)
    requires n <= |events|
    requires var q := After(count, events[..n]).queue; q != [] && |q[0]| + 3 > MAX_REPLY
    ensures After(count, events[..n]).queue <= After(count, events).queue
    ensures Delivered(count, events) == Delivered(count, events[..n])
    decreases |events|
  {
    if n == |events| {
      assert events[..n] == events;
    } else {
      var before := events[..|events| - 1];
      assert before[..n] == events[..n];
      TooLongBlocks(count, before, n);
    }
  }

  // ---------- the ring ----------

  function Wrap(i: nat): (r: nat)
    requires i < 2 * SLOTS
    ensures r < SLOTS
  {
    if i < SLOTS then i else i - SLOTS
  }

  /** How far slot s is behind the pop index, around the ring. */
  function Distance(pop: nat, s: nat): (d: nat)
    requires pop < SLOTS && s < SLOTS
    ensures d < SLOTS && Wrap(pop + d) == s
  {
    if pop <= s then s - pop else s + SLOTS - pop
  }

  function Content(queue: seq<seq<byte>>, d: nat): (c: Slot) {
    if d < |queue| then Used(queue[d]) else Free
  }

  /** The used slots are exactly the cyclic range from the pop index, in queue order. */
  ghost predicate Occupies(slots: seq<Slot>, pop: nat, queue: seq<seq<byte>>)
    requires |slots| >= SLOTS && pop < SLOTS
  {
    forall s :: 0 <= s < SLOTS ==> slots[s] == Content(queue, Distance(pop, s))
  }

  lemma FrontOccupied(slots: seq<Slot>, pop: nat, queue: seq<seq<byte>>)
    requires |slots| >= SLOTS && pop < SLOTS && |queue| < SLOTS && Occupies(slots, pop, queue) && queue != []
    ensures slots[pop] == Used(queue[0])
    ensures Occupies(slots[pop := Free], Wrap(pop + 1), queue[1..])
  {
    assert slots[pop] == Content(queue, Distance(pop, pop));
    var slots', pop' := slots[pop := Free], Wrap(pop + 1);
    forall s | 0 <= s < SLOTS
      ensures slots'[s] == Content(queue[1..], Distance(pop', s))
    {
      assert s != pop ==> Distance(pop, s) == Distance(pop', s) + 1;
      assert s == pop ==> Distance(pop', s) == SLOTS - 1;
    }
  }

  /** The loop index of eight bits after n rounds. */
  function IndexAfter(n: nat): (k: byte)
    ensures k == n % 256
  {
    if n == 0 then 0 else Next8(IndexAfter(n - 1))
  }

  /** The loop that empties the slots ends exactly for a count of at most 255. */
  lemma ArmingEndsExactly(count: uint16)
    ensures (exists n: nat :: IndexAfter(n) >= count) <==> count <= 255
  {
    assert IndexAfter(255) == 255;
  }

  class Ring {
    const slots: array<Slot>
    var pushLoc: byte
    var popLoc: byte
    var numPktsAvail: uint16
    var berPkts: uint16
    var numPktInx: byte
    var dropped: nat
    const reply: array<byte>

    ghost predicate Valid(f: Fifo)
      reads this, slots
    {
      && slots.Length == 1033 && reply.Length == 1037
      && |f.queue| + f.credits < SLOTS
      && numPktsAvail == |f.queue| && berPkts == f.credits && numPktInx == f.inx
      && pushLoc == Wrap(popLoc + |f.queue|) && Occupies(slots[..], popLoc, f.queue)
    }

    constructor ()
      ensures Valid(Fifo(0, [], 0)) && fresh(slots) && fresh(reply)
    {
      slots := new Slot[1033](_ => Free);
      reply := new byte[1037];
      pushLoc, popLoc, numPktsAvail, berPkts, numPktInx, dropped := 0, 0, 0, 0, 0, 0;
    }

    /** BT_BER_PKT_CNT: arms the ring for count packets, which empties the slots that these may
        take.  The number of waiting packets is kept, so that the ring is good for a new run
        exactly if it was drained.  The loop index has eight bits. */
    method Arm(count: byte, ghost f: Fifo)
      requires Valid(f)
      modifies this, slots
      ensures Valid(Fifo(count, [], 0)) <==> f.queue == []
      ensures forall i :: 0 <= i < SLOTS ==> slots[i] == if i < count then Free else old(slots[i])
      ensures pushLoc == popLoc == numPktInx == 0 && berPkts == count
      ensures numPktsAvail == old(numPktsAvail) && dropped == old(dropped)
    {
      berPkts := count;
      var k: byte := 0;
      while k < berPkts
        invariant k <= berPkts == count && numPktsAvail == old(numPktsAvail) && dropped == old(dropped)
        invariant forall i :: 0 <= i < SLOTS ==> slots[i] == if i < k then Free else old(slots[i])
      {
        slots[k] := Free;
        k := k + 1;
      }
      pushLoc, popLoc, numPktInx := 0, 0, 0;
    }

    /** BT_BER: stores a received packet.  In a run that was armed on a drained ring none is
        dropped. */
    method Receive(packet: seq<byte>, ghost f: Fifo)
      requires Valid(f) && |packet| <= PACKET_MEM
      modifies this, slots
      ensures Valid(Push(f, packet)) && dropped == old(dropped)
    {
      if berPkts != 0 {
        if slots[pushLoc] != Free {
          dropped := dropped + 1;
          return;
        }
        slots[pushLoc] := Used(packet);
        pushLoc := Wrap(pushLoc + 1);
        numPktsAvail := numPktsAvail + 1;
        berPkts := berPkts - 1;
      }
    }

    /** BT_BER_RECEIVE: sends the packet in front as a reply.  The reply structure has 1032 data
        bytes behind its length, and then the count of packets. */
    method Fetch(ghost f: Fifo) returns (ok: bool, sent: seq<byte>)
      requires Valid(f)
      modifies this, reply, slots
      ensures Valid(Pop(f)) && ok == Popped(f).Fetched? && dropped == old(dropped)
      ensures ok ==> sent == Reply(Popped(f).inx, Popped(f).packet, Popped(f).avail)
      ensures ok == (f.queue != [] && |f.queue[0]| <= 1032)
      ensures ok ==> Says(sent, f.inx, f.queue[0], |f.queue|)
      ensures numPktInx == if f.queue == [] then old(numPktInx) else (old(numPktInx) + 1) % 0x100
    {
      hide Occupies, Reply, Meant;
      ok, sent := false, [];
      if numPktsAvail == 0 {
        return;
      }
      FrontOccupied(slots[..], popLoc, f.queue);
      var slot := slots[popLoc];
      if slot == Free {
        return;
      }
      var n := |slot.data|;
      var inx := numPktInx;
      numPktInx := Next8(numPktInx);
      if n + 3 > MAX_REPLY {
        return;
      }
      FillReply(inx, slot.data);
      ghost var was := slots[..];
      slots[popLoc] := Free;
      popLoc := Wrap(popLoc + 1);
      numPktsAvail := numPktsAvail - 1;
      assert slots[..] == was[old(popLoc) := Free];
      ok, sent := true, reply[..n + 5];
      ReplySays(inx, slot.data, old(numPktsAvail));
      hide Says;
    }

    /** Fills the reply structure, field by field in the order of the code. */
    method FillReply(inx: byte, data: seq<byte>)
      requires reply.Length == 1037 && |data| + 3 <= MAX_REPLY
      modifies reply
      ensures reply[..|data| + 5] == Reply(inx, data, numPktsAvail)
    {
      var n := |data|;
      var length, avail := Bytes16(n + 3), Bytes16(numPktsAvail);
      reply[0], reply[1] := length[0], length[1];
      reply[2], reply[3], reply[4] := inx, length[0], length[1];
      forall i | 0 <= i < n {
        reply[5 + i] := data[i];
      }
      assert reply[..n + 5] == Meant(inx, data);
      reply[1034], reply[1035] := avail[0], avail[1];
    }
  }

  /** What is fetched from a ring that is armed and then receives and is fetched from: the accepted
      packets in order, each reply with the next sequence byte. */
  method FetchAll(ring: Ring, count: byte, events: seq<Event>) returns (sent: seq<seq<byte>>)
    requires ring.Valid(Fifo(0, [], 0)) && AllFit(events)
    modifies ring, ring.slots, ring.reply
    ensures var p := Accepted(count, events);
            && |sent| <= |p|
            && forall i :: 0 <= i < |sent| ==>
                 && |sent[i]| == |p[i]| + 5 && Word16(sent[i], 0) == |p[i]| + 3 == Word16(sent[i], 3)
                 && sent[i][2] == i
                 && (|p[i]| <= 1029 ==> sent[i][5..] == p[i])
  {
    ring.Arm(count, Fifo(0, [], 0));
    sent := [];
    ghost var before: seq<Event> := [];
    for k := 0 to |events|
      invariant before == events[..k]
      invariant ring.Valid(After(count, before)) && Sends(sent, Delivered(count, before))
    {
      sent := TakeEvent(ring, count, before, events[k], sent);
      before := before + [events[k]];
    }
    assert before == events;
    SentInOrder(count, events, sent);
  }

  lemma SentInOrder(count: byte, events: seq<Event>, sent: seq<seq<byte>>)
    requires AllFit(events) && Sends(sent, Delivered(count, events))
    ensures var p := Accepted(count, events);
            && |sent| <= |p|
            && forall i :: 0 <= i < |sent| ==>
                 && |sent[i]| == |p[i]| + 5 && Word16(sent[i], 0) == |p[i]| + 3 == Word16(sent[i], 3)
                 && sent[i][2] == i
                 && (|p[i]| <= 1029 ==> sent[i][5..] == p[i])
  {
    DeliveredInOrder(count, events);
    forall i | 0 <= i < |sent| && |sent[i]| <= 1034
      ensures sent[i][5..] == Accepted(count, events)[i]
    {
    }
  }

  method TakeEvent(ring: Ring, ghost count: byte, ghost before: seq<Event>, event: Event, sent: seq<seq<byte>>)
    returns (now: seq<seq<byte>>)
    requires ring.Valid(After(count, before)) && Sends(sent, Delivered(count, before))
    requires event.Receive? ==> |event.packet| + 3 <= MAX_REPLY
    modifies ring, ring.slots, ring.reply
    ensures ring.Valid(After(count, before + [event])) && Sends(now, Delivered(count, before + [event]))
  {
    assert (before + [event])[..|before|] == before && (before + [event])[|before|] == event;
    ghost var f := After(count, before);
    now := sent;
    match event {
      case Receive(packet) =>
        ring.Receive(packet, f);
      case Fetch =>
        var ok, reply := ring.Fetch(f);
        if ok {
          now := sent + [reply];
        }
    }
  }

  /** Each reply says what was delivered. */
  ghost predicate Sends(sent: seq<seq<byte>>, delivered: seq<Fetched>) {
    |sent| == |delivered|
    && forall i :: 0 <= i < |sent| ==>
         && delivered[i].Fetched?
         && Says(sent[i], delivered[i].inx, delivered[i].packet, delivered[i].avail)
  }
}
