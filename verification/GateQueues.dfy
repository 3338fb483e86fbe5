/** No packet is lost, doubled or overtaken in the soft queues, in any run. */
module GateQueues {
  import opened CoexGate
  import opened GateRuns
  import opened Protocols

  /** The packets that were put into queue q, in order. */
  ghost function PutInto(log: seq<Obs>, q: Queue): (packets: seq<bool>) {
    if log == [] then []
    else
      var before := PutInto(log[..|log| - 1], q);
      match Last(log)
      case AckQueued(_, _) => if q == COEX_Q then before + [true] else before
      case Queued(r, isAck) => if q == r then before + [isAck] else before
      case _ => before
  }

  /** The packets that were taken from it, in order. */
  ghost function TakenFrom(log: seq<Obs>, q: Queue): (packets: seq<bool>) {
    if log == [] then []
    else
      var before := TakenFrom(log[..|log| - 1], q);
      if Last(log).Taken? && Last(log).q == q then before + [Last(log).isAck] else before
  }

  /** A queue after what was seen. */
  predicate Changes(seen: Seen, q: Queue, before: seq<bool>, after: seq<bool>) {
    if seen.Nothing? then after == before
    else
      match seen.obs
      case AckQueued(_, _) => after == if q == COEX_Q then before + [true] else before
      case Queued(r, isAck) => after == if q == r then before + [isAck] else before
      case Taken(r, isAck) => if q == r then before == [isAck] + after else after == before
      case _ => after == before
  }

  lemma RecordChanges(log: seq<Obs>, seen: Seen, q: Queue, before: seq<bool>, after: seq<bool>)
    requires PutInto(log, q) == TakenFrom(log, q) + before && Changes(seen, q, before, after)
    ensures PutInto(Record(log, seen), q) == TakenFrom(Record(log, seen), q) + after
  {
    if seen.Saw? {
      var all := log + [seen.obs];
      assert all[..|all| - 1] == log;
    }
  }

  lemma RxChanges(g: Shared, rx: RxPc, d: Data, c: Choice, q: Queue)
    requires d.Shape()
    ensures var n := RxStep(g, rx, d, c); Changes(n.seen, q, d.queues[q], n.data.queues[q])
  {
  }

  lemma UtsChanges(g: Shared, t: nat, uts: UtsPc, id: Id, ret: Ret, d: Data, q: Queue)
    requires d.Shape()
    ensures var n := UtsStep(g, t, uts, id, ret, d); Changes(n.seen, q, d.queues[q], n.data.queues[q])
  {
  }

  lemma AckChanges(g: Shared, at: AckPc, ret: Ret, d: Data, c: Choice, exitWaits: bool, q: Queue)
    requires d.Shape()
    ensures var n := AckStep(g, at, ret, d, c, exitWaits); Changes(n.seen, q, d.queues[q], n.data.queues[q])
  {
  }

  lemma SendChanges(g: Shared, t: nat, send: SendPc, d: Data, c: Choice, q: Queue)
    requires d.Shape()
    ensures var n := SendStep(g, t, send, d, c); Changes(n.seen, q, d.queues[q], n.data.queues[q])
  {
  }

  lemma TxRoundChanges(g: Shared, tx: TxPc, d: Data, c: Choice, q: Queue)
    requires d.Shape()
    ensures var n := TxRound(g, tx, d, c); Changes(n.seen, q, d.queues[q], n.data.queues[q])
  {
    hide Probe;
  }

  lemma TxPacketChanges(g: Shared, tx: TxPc, d: Data, c: Choice, q: Queue)
    requires d.Shape()
    ensures var n := TxPacket(g, tx, d, c); Changes(n.seen, q, d.queues[q], n.data.queues[q])
  {
  }

  lemma PcChanges(g: Shared, t: nat, pc: Pc, d: Data, c: Choice, exitWaits: bool, q: Queue)
    requires d.Shape()
    ensures var n := PcStep(g, t, pc, d, c, exitWaits); Changes(n.seen, q, d.queues[q], n.data.queues[q])
  {
    match pc {
      case Rx(rx) => RxChanges(g, rx, d, c, q);
      case Uts(uts, id, ret) => UtsChanges(g, t, uts, id, ret, d, q);
      case Ack(at, ret) => AckChanges(g, at, ret, d, c, exitWaits, q);
      case Send(send) => SendChanges(g, t, send, d, c, q);
      case Tx(tx) =>
        TxRoundChanges(g, tx, d, c, q);
        TxPacketChanges(g, tx, d, c, q);
    }
    hide Changes, RxStep, UtsStep, AckStep, SendStep, TxRound, TxPacket;
  }

  /** Over every run: the packets put into a queue are those taken from it, in the same order,
      followed by those that wait. */
  lemma {:induction false} QueuesKeepOrder(s: State, actions: seq<Action>, q: Queue)
    requires Init(s)
    ensures var r := After(s, actions); PutInto(r.log, q) == TakenFrom(r.log, q) + r.data.queues[q]
  {
    if actions != [] {
      var before, a := After(s, actions[..|actions| - 1]), actions[|actions| - 1];
      QueuesKeepOrder(s, actions[..|actions| - 1], q);
      if a.Run? && a.thread < |before.pcs| {
        var t, n := a.thread, ThreadStep(before, a.thread, a.choice);
        PcChanges(before.gate, t, before.pcs[t], before.data, a.choice, before.pcs[0] == Rx(ExitLock), q);
        RecordChanges(before.log, n.seen, q, before.data.queues[q], n.data.queues[q]);
      }
      hide PcStep, Changes, Record, PutInto, TakenFrom, ProtocolsMay;
    }
  }
}
