/** A closing of the gate and the round of the transmit thread that it is made in: the flag that
    outlives its packet does not outlive the round. */
module GateRounds {
  import opened CoexGate
  import opened GateInvariant
  import opened GateRuns
  import opened Protocols

  /** Whether an acknowledgement was sent since the transmit thread woke up. */
  predicate AckedBy(seen: Seen, acked: bool) {
    match seen
    case Saw(Woke) => false
    case Saw(Sent(isAck, _)) => isAck || acked
    case _ => acked
  }

  ghost predicate AckedInRound(log: seq<Obs>) {
    log != [] && AckedBy(Saw(Last(log)), AckedInRound(log[..|log| - 1]))
  }

  ghost predicate ClosingsInRound(log: seq<Obs>) {
    log == [] || (ClosingsInRound(log[..|log| - 1]) && (Last(log).Closed? ==> AckedInRound(log[..|log| - 1])))
  }

  lemma RecordRound(log: seq<Obs>, seen: Seen)
    requires ClosingsInRound(log) && (seen == Nothing || (seen.obs.Closed? ==> AckedInRound(log)))
    ensures ClosingsInRound(Record(log, seen)) && AckedInRound(Record(log, seen)) == AckedBy(seen, AckedInRound(log))
  {
    if seen.Saw? {
      var all := log + [seen.obs];
      assert all[..|all| - 1] == log;
    }
  }

  /** During a round the local flag says whether an acknowledgement was sent in it, and it is set
      where the gate is closed. */
  predicate FlagOk(tx: Pc, stale: bool, acked: bool) {
    && (tx != Tx(TxWait) && tx != Tx(TxReset) ==> stale == acked)
    && (tx.Tx? && (tx.tx.TxMark? || tx.tx.TxShut?) ==> stale)
  }

  predicate KeepsFlag(n: Next, tx: Pc, acked: bool) {
    (n.seen.Saw? && n.seen.obs.Closed? ==> acked) && FlagOk(tx, n.data.stale, AckedBy(n.seen, acked))
  }

  /** What the other threads do leaves the flag, and is not seen as sent, closed or woken. */
  predicate Apart(d: Data, n: Next) {
    n.data.stale == d.stale && (n.seen.Saw? ==> !n.seen.obs.Woke? && !n.seen.obs.Sent? && !n.seen.obs.Closed?)
  }

  lemma RxApart(g: Shared, rx: RxPc, d: Data, c: Choice)
    requires d.Shape()
    ensures Apart(d, RxStep(g, rx, d, c))
  {
  }

  lemma UtsApart(g: Shared, t: nat, uts: UtsPc, id: Id, ret: Ret, d: Data)
    requires d.Shape()
    ensures Apart(d, UtsStep(g, t, uts, id, ret, d))
  {
  }

  lemma AckApart(g: Shared, at: AckPc, ret: Ret, d: Data, c: Choice, exitWaits: bool)
    requires d.Shape()
    ensures Apart(d, AckStep(g, at, ret, d, c, exitWaits))
  {
  }

  lemma SendApart(g: Shared, t: nat, send: SendPc, d: Data, c: Choice)
    requires d.Shape()
    ensures Apart(d, SendStep(g, t, send, d, c))
  {
  }

  lemma OthersApart(g: Shared, t: nat, pc: Pc, d: Data, c: Choice, exitWaits: bool)
    requires d.Shape() && !pc.Tx?
    ensures Apart(d, PcStep(g, t, pc, d, c, exitWaits))
  {
    match pc {
      case Rx(rx) => RxApart(g, rx, d, c);
      case Uts(uts, id, ret) => UtsApart(g, t, uts, id, ret, d);
      case Ack(at, ret) => AckApart(g, at, ret, d, c, exitWaits);
      case Send(send) => SendApart(g, t, send, d, c);
    }
    hide Apart, RxStep, UtsStep, AckStep, SendStep;
  }

  lemma RoundKeepsFlag(g: Shared, tx: TxPc, d: Data, c: Choice, acked: bool)
    requires d.Shape() && IsRound(tx) && FlagOk(Tx(tx), d.stale, acked)
    ensures var n := TxRound(g, tx, d, c); KeepsFlag(n, n.pc, acked)
  {
    hide Probe;
  }

  lemma PacketKeepsFlag(g: Shared, tx: TxPc, d: Data, c: Choice, acked: bool)
    requires d.Shape() && !IsRound(tx) && FlagOk(Tx(tx), d.stale, acked)
    ensures var n := TxPacket(g, tx, d, c); KeepsFlag(n, n.pc, acked)
  {
  }

  lemma PcKeepsFlag(g: Shared, t: nat, pc: Pc, d: Data, c: Choice, exitWaits: bool, tx: Pc, acked: bool)
    requires d.Shape() && FlagOk(tx, d.stale, acked) && (if t == 1 then tx == pc else !pc.Tx?)
    requires Belongs(t, pc)
    ensures var n := PcStep(g, t, pc, d, c, exitWaits); KeepsFlag(n, if t == 1 then n.pc else tx, acked)
  {
    if pc.Tx? {
      if IsRound(pc.tx) {
        RoundKeepsFlag(g, pc.tx, d, c, acked);
      } else {
        PacketKeepsFlag(g, pc.tx, d, c, acked);
      }
      hide KeepsFlag, FlagOk, TxRound, TxPacket;
    } else {
      OthersApart(g, t, pc, d, c, exitWaits);
      if t == 1 {
        ReturnsQuiet(g, pc, d, c, exitWaits);
      }
      hide PcStep;
    }
  }

  /** Where the transmit thread goes on behind an update or an acknowledgement is not a closing. */
  lemma ReturnsQuiet(g: Shared, pc: Pc, d: Data, c: Choice, exitWaits: bool)
    requires d.Shape() && Belongs(1, pc) && !pc.Tx?
    ensures var r := PcStep(g, 1, pc, d, c, exitWaits).pc; r.Tx? ==> !r.tx.TxMark? && !r.tx.TxShut?
  {
  }

  ghost predicate RoundInv(s: State) {
    Inv(s) && ClosingsInRound(s.log) && FlagOk(s.pcs[1], s.data.stale, AckedInRound(s.log))
  }

  lemma StepInRound(s: State, a: Action)
    requires RoundInv(s)
    ensures RoundInv(Step(s, a))
  {
    StepKeepsInv(s, a);
    if a.Run? && a.thread < |s.pcs| {
      assert ThreadOk(s.gate, a.thread, s.pcs[a.thread]);
      PcKeepsFlag(s.gate, a.thread, s.pcs[a.thread], s.data, a.choice, s.pcs[0] == Rx(ExitLock), s.pcs[1],
                  AckedInRound(s.log));
      RecordRound(s.log, ThreadStep(s, a.thread, a.choice).seen);
    }
    hide Inv, PcStep, ClosingsInRound, AckedInRound, AckedBy, FlagOk, Record, ProtocolsMay, Relies, HoldsTal, HoldsTl;
  }

  lemma {:induction false} RunsInRound(s: State, actions: seq<Action>)
    requires Init(s)
    ensures RoundInv(After(s, actions))
  {
    if actions == [] {
      InitInv(s);
    } else {
      hide RoundInv, Step;
      RunsInRound(s, actions[..|actions| - 1]);
      StepInRound(After(s, actions[..|actions| - 1]), actions[|actions| - 1]);
    }
  }

  /** An acknowledgement is sent by the j-th observation, and the transmit thread does not wake up
      again before i. */
  ghost predicate AckInRound(log: seq<Obs>, j: nat, i: nat)
    requires i <= |log|
  {
    j < i && log[j].Sent? && log[j].isAck && forall k :: j < k < i ==> !log[k].Woke?
  }

  lemma {:induction false} AckedMeans(log: seq<Obs>, i: nat) returns (j: nat)
    requires i <= |log| && AckedInRound(log[..i])
    ensures AckInRound(log, j, i)
  {
    assert log[..i][..i - 1] == log[..i - 1] && Last(log[..i]) == log[i - 1];
    if log[i - 1].Sent? && log[i - 1].isAck {
      j := i - 1;
    } else {
      j := AckedMeans(log, i - 1);
    }
  }

  lemma {:induction false} EachInRound(log: seq<Obs>, i: nat)
    requires ClosingsInRound(log) && i < |log| && log[i].Closed?
    ensures AckedInRound(log[..i])
  {
    if i < |log| - 1 {
      EachInRound(log[..|log| - 1], i);
      assert log[..|log| - 1][..i] == log[..i];
    }
  }

  /** Over every run: an acknowledgement was sent in the same round before the gate is closed. */
  lemma ClosedInAckRound(s: State, actions: seq<Action>, i: nat) returns (j: nat)
    requires Init(s) && i < |After(s, actions).log| && After(s, actions).log[i].Closed?
    ensures AckInRound(After(s, actions).log, j, i)
  {
    RunsInRound(s, actions);
    hide After, Inv;
    EachInRound(After(s, actions).log, i);
    j := AckedMeans(After(s, actions).log, i);
  }
}
