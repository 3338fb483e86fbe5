/** No wake-up of the transmit thread is lost, although it probes the queues one by one. */
module GateWakeups {
  import opened CoexGate
  import opened Protocols
  import opened GateInvariant

  /** A thread that has queued a packet and is about to set the event. */
  predicate Waking(pc: Pc) {
    match pc
    case Ack(at, _) => at.Wake?
    case Send(send) => send.SetEvent?
    case _ => false
  }

  /** Where the transmit thread will probe q before it waits again, unless a grant wait times
      out: between the reset of its event and that probe, or while it serves a packet. */
  predicate WillProbe(pc: Pc, q: Queue) {
    match pc
    case Tx(tx) =>
      (match tx
       case TxWait => false
       case TxProbe(k) => k <= Rank(q)
       case TxPs(_) => false
       case TxDropIntent(_) => false
       case TxDropAccess(_) => false
       case _ => true)
    case Uts(_, _, ret) => ret.ToRetry?
    case Ack(_, ret) => ret.ToRetry?
    case _ => false
  }

  /** The queue that the transmit thread serves holds a packet until it is dequeued. */
  predicate Serves(pc: Pc, q: Queue) {
    match pc
    case Tx(tx) => tx == TxClaim(q) || tx == TxWant(q) || tx == TxRetry(q) || tx == TxFlag(q) || tx == TxGrantWait(q)
                   || tx == TxDequeue(q)
    case Uts(_, _, ret) => ret == ToRetry(q)
    case Ack(_, ret) => ret == ToRetry(q)
    case _ => false
  }

  predicate Attended(q: Queue, d: Data, waking: bool, tx: Pc)
    requires d.Shape()
  {
    && (d.timedOut || d.queues[q] == [] || d.event || waking || WillProbe(tx, q))
    && (Serves(tx, q) ==> d.queues[q] != [])
  }

  lemma OthersAttend(g: Shared, t: nat, pc: Pc, d: Data, c: Choice, exitWaits: bool, q: Queue, others: bool, tx: Pc)
    requires d.Shape() && Belongs(t, pc) && t != 1 && Attended(q, d, others || Waking(pc), tx)
    ensures var n := PcStep(g, t, pc, d, c, exitWaits); Attended(q, n.data, others || Waking(n.pc), tx)
  {
    match pc {
      case Rx(rx) => RxAttends(g, rx, d, c, q, others, tx);
      case Uts(uts, id, ret) => UtsAttends(g, t, uts, id, ret, d, q, others, tx);
      case Ack(at, ret) => AckAttends(g, t, at, ret, d, c, exitWaits, q, others, tx);
      case Send(send) => SendAttends(g, t, send, d, c, q, others, tx);
      case _ =>
    }
    hide Attended, Waking, RxStep, UtsStep, AckStep, SendStep, TxStep;
  }

  lemma RxAttends(g: Shared, rx: RxPc, d: Data, c: Choice, q: Queue, others: bool, tx: Pc)
    requires d.Shape() && Attended(q, d, others, tx)
    ensures var n := RxStep(g, rx, d, c); Attended(q, n.data, others || Waking(n.pc), tx)
  {
    hide WillProbe, Serves;
  }

  lemma UtsAttends(g: Shared, t: nat, uts: UtsPc, id: Id, ret: Ret, d: Data, q: Queue, others: bool, tx: Pc)
    requires d.Shape() && Attended(q, d, others, tx)
    ensures var n := UtsStep(g, t, uts, id, ret, d); Attended(q, n.data, others || Waking(n.pc), tx)
  {
    hide WillProbe, Serves;
  }

  lemma AckAttends(g: Shared, t: nat, at: AckPc, ret: Ret, d: Data, c: Choice, exitWaits: bool, q: Queue,
                   others: bool, tx: Pc)
    requires d.Shape() && Attended(q, d, others || Waking(Ack(at, ret)), tx)
    ensures var n := AckStep(g, at, ret, d, c, exitWaits); Attended(q, n.data, others || Waking(n.pc), tx)
  {
    hide WillProbe, Serves;
  }

  lemma SendAttends(g: Shared, t: nat, send: SendPc, d: Data, c: Choice, q: Queue, others: bool, tx: Pc)
    requires d.Shape() && Attended(q, d, others || Waking(Send(send)), tx)
    ensures var n := SendStep(g, t, send, d, c); Attended(q, n.data, others || Waking(n.pc), tx)
  {
    hide WillProbe, Serves;
  }

  lemma RoundAttends(g: Shared, tx: TxPc, d: Data, c: Choice, q: Queue, others: bool)
    requires d.Shape() && IsRound(tx) && Attended(q, d, others, Tx(tx))
    ensures var n := TxRound(g, tx, d, c); Attended(q, n.data, others, n.pc)
  {
  }

  lemma PacketAttends(g: Shared, tx: TxPc, d: Data, c: Choice, q: Queue, others: bool)
    requires d.Shape() && !IsRound(tx) && Attended(q, d, others, Tx(tx))
    requires tx.TxDequeue? ==> Attended(tx.q, d, others, Tx(tx))
    ensures var n := TxPacket(g, tx, d, c); Attended(q, n.data, others, n.pc)
  {
  }

  lemma OwnUtsAttends(g: Shared, uts: UtsPc, id: Id, ret: Ret, d: Data, q: Queue, others: bool)
    requires d.Shape() && Belongs(1, Uts(uts, id, ret)) && Attended(q, d, others, Uts(uts, id, ret))
    ensures var n := UtsStep(g, 1, uts, id, ret, d); Attended(q, n.data, others, n.pc)
  {
  }

  lemma OwnAckAttends(g: Shared, at: AckPc, ret: Ret, d: Data, c: Choice, exitWaits: bool, q: Queue, others: bool)
    requires d.Shape() && Belongs(1, Ack(at, ret)) && Attended(q, d, others || Waking(Ack(at, ret)), Ack(at, ret))
    ensures var n := AckStep(g, at, ret, d, c, exitWaits); Attended(q, n.data, others || Waking(n.pc), n.pc)
  {
  }

  lemma OwnAttends(g: Shared, pc: Pc, d: Data, c: Choice, exitWaits: bool, q: Queue, others: bool)
    requires d.Shape() && Belongs(1, pc) && Attended(q, d, others || Waking(pc), pc)
    requires pc.Tx? && pc.tx.TxDequeue? ==> Attended(pc.tx.q, d, others || Waking(pc), pc)
    ensures var n := PcStep(g, 1, pc, d, c, exitWaits); Attended(q, n.data, others || Waking(n.pc), n.pc)
  {
    match pc {
      case Uts(uts, id, ret) => OwnUtsAttends(g, uts, id, ret, d, q, others);
      case Ack(at, ret) => OwnAckAttends(g, at, ret, d, c, exitWaits, q, others);
      case Tx(tx) =>
        if IsRound(tx) {
          RoundAttends(g, tx, d, c, q, others);
        } else {
          PacketAttends(g, tx, d, c, q, others);
        }
      case _ =>
    }
    AttendedSooner(q, PcStep(g, 1, pc, d, c, exitWaits), others);
    hide Attended, UtsStep, AckStep, TxRound, TxPacket;
  }

  lemma AttendedSooner(q: Queue, n: Next, others: bool)
    requires n.data.Shape()
    ensures Attended(q, n.data, others, n.pc) ==> Attended(q, n.data, others || Waking(n.pc), n.pc)
  {
  }

  ghost predicate WakeInv(s: State) {
    Inv(s) && forall q: Queue :: Attended(q, s.data, Any(s.pcs, Waking), s.pcs[1])
  }

  lemma StepAttends(s: State, t: nat, c: Choice, q: Queue)
    requires WakeInv(s) && t < |s.pcs|
    ensures var n := ThreadStep(s, t, c);
            Attended(q, n.data, Any(s.pcs[t := n.pc], Waking), if t == 1 then n.pc else s.pcs[1])
  {
    var pc, others, exitWaits := s.pcs[t], Other(s.pcs, t, Waking), s.pcs[0] == Rx(ExitLock);
    assert ThreadOk(s.gate, t, pc);
    assert s.pcs[t := pc] == s.pcs;
    AnyIsThisOrOther(s.pcs, t, pc, Waking);
    AnyIsThisOrOther(s.pcs, t, ThreadStep(s, t, c).pc, Waking);
    assert Attended(q, s.data, others || Waking(pc), s.pcs[1]);
    assert pc.Tx? && pc.tx.TxDequeue? ==> Attended(pc.tx.q, s.data, others || Waking(pc), s.pcs[1]);
    hide Inv, Any, Other, Waking, Attended, PcStep, Relies, HoldsTal, HoldsTl;
    if t == 1 {
      OwnAttends(s.gate, pc, s.data, c, exitWaits, q, others);
    } else {
      OthersAttend(s.gate, t, pc, s.data, c, exitWaits, q, others, s.pcs[1]);
    }
  }

  lemma StepKeepsWake(s: State, a: Action)
    requires WakeInv(s)
    ensures WakeInv(Step(s, a))
  {
    StepKeepsInv(s, a);
    var r := Step(s, a);
    forall q: Queue
      ensures Attended(q, r.data, Any(r.pcs, Waking), r.pcs[1])
    {
      if a.Run? && a.thread < |s.pcs| {
        StepAttends(s, a.thread, a.choice, q);
      } else {
        assert Attended(q, s.data, Any(s.pcs, Waking), s.pcs[1]);
      }
      hide Inv, Any, PcStep, Waking, ProtocolsMay, WillProbe, Serves;
    }
  }

  lemma {:induction false} RunsKeepWake(s: State, actions: seq<Action>)
    requires Init(s)
    ensures WakeInv(After(s, actions))
  {
    if actions == [] {
      InitInv(s);
    } else {
      hide WakeInv, Step;
      RunsKeepWake(s, actions[..|actions| - 1]);
      StepKeepsWake(After(s, actions[..|actions| - 1]), actions[|actions| - 1]);
    }
  }

  /** In a run in which no grant wait times out, a queue that is not empty means that the event
      is set, or a thread is about to set it, or the transmit thread will probe the queue before
      it waits again. */
  lemma NoLostWakeup(s: State, actions: seq<Action>, q: Queue)
    requires Init(s) && !After(s, actions).data.timedOut && After(s, actions).data.queues[q] != []
    ensures var r := After(s, actions); r.data.event || Any(r.pcs, Waking) || WillProbe(r.pcs[1], q)
  {
    RunsKeepWake(s, actions);
    hide After, Inv, Any, WillProbe, Serves;
    assert Attended(q, After(s, actions).data, Any(After(s, actions).pcs, Waking), After(s, actions).pcs[1]);
  }

  /** So when the transmit thread sleeps with its event clear, packets wait only if a thread is
      about to wake it. */
  lemma SleepsOnlyWhenIdle(s: State, actions: seq<Action>, q: Queue)
    requires Init(s) && !After(s, actions).data.timedOut
    requires After(s, actions).pcs[1] == Tx(TxWait) && !After(s, actions).data.event
    requires !Any(After(s, actions).pcs, Waking)
    ensures After(s, actions).data.queues[q] == []
  {
    if After(s, actions).data.queues[q] != [] {
      NoLostWakeup(s, actions, q);
    }
    hide After;
  }
}
