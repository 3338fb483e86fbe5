/** The frames around a closing of the gate: it follows the packet that it is made for with no
    other frame between, although frames are written without the access lock. */
module GateFrames {
  import opened CoexGate
  import opened GateInvariant
  import opened GateRuns
  import opened Protocols

  /** A frame is written, or the gate closed. */
  predicate OnBus(o: Obs) {
    o.Wrote? || o.Sent? || o.Closed?
  }

  predicate SentBy(seen: Seen, sent: bool) {
    if seen.Saw? && OnBus(seen.obs) then seen.obs.Sent? else sent
  }

  /** The last of these was a packet of the transmit thread. */
  ghost predicate SentAfter(log: seq<Obs>) {
    log != [] && SentBy(Saw(Last(log)), SentAfter(log[..|log| - 1]))
  }

  ghost predicate ClosingsFollow(log: seq<Obs>) {
    log == [] || (ClosingsFollow(log[..|log| - 1]) && (Last(log).Closed? ==> SentAfter(log[..|log| - 1])))
  }

  lemma RecordFollows(log: seq<Obs>, seen: Seen)
    requires ClosingsFollow(log) && (seen == Nothing || (seen.obs.Closed? ==> SentAfter(log)))
    ensures ClosingsFollow(Record(log, seen)) && SentAfter(Record(log, seen)) == SentBy(seen, SentAfter(log))
  {
    if seen.Saw? {
      var all := log + [seen.obs];
      assert all[..|all| - 1] == log;
    }
  }

  /** The transmit thread is between its packet and the closing. */
  predicate Closing(pc: Pc) {
    pc.Tx? && (pc.tx.TxTalLock? || pc.tx.TxAsleep? || pc.tx.TxMark? || pc.tx.TxShut?)
  }

  /** What is seen of a step on the bus is done with the transmit lock, the gate is closed only
      behind a packet, and a thread that is to close it has just sent one. */
  predicate Follows(pc: Pc, n: Next, sent: bool) {
    && (n.seen.Saw? && OnBus(n.seen.obs) ==> HoldsTl(pc))
    && (n.seen.Saw? && n.seen.obs.Closed? ==> Closing(pc))
    && (Closing(n.pc) && (Closing(pc) ==> sent) ==> SentBy(n.seen, sent))
  }

  lemma RxFollows(g: Shared, rx: RxPc, d: Data, c: Choice, sent: bool)
    requires d.Shape()
    ensures Follows(Rx(rx), RxStep(g, rx, d, c), sent)
  {
  }

  lemma UtsFollows(g: Shared, t: nat, uts: UtsPc, id: Id, ret: Ret, d: Data, sent: bool)
    requires d.Shape()
    ensures Follows(Uts(uts, id, ret), UtsStep(g, t, uts, id, ret, d), sent)
  {
  }

  lemma AckFollows(g: Shared, at: AckPc, ret: Ret, d: Data, c: Choice, exitWaits: bool, sent: bool)
    requires d.Shape()
    ensures Follows(Ack(at, ret), AckStep(g, at, ret, d, c, exitWaits), sent)
  {
  }

  lemma SendFollows(g: Shared, t: nat, send: SendPc, d: Data, c: Choice, sent: bool)
    requires d.Shape()
    ensures Follows(Send(send), SendStep(g, t, send, d, c), sent)
  {
  }

  lemma TxRoundFollows(g: Shared, tx: TxPc, d: Data, c: Choice, sent: bool)
    requires d.Shape()
    ensures IsRound(tx) ==> Follows(Tx(tx), TxRound(g, tx, d, c), sent)
  {
    hide Probe;
  }

  lemma TxPacketFollows(g: Shared, tx: TxPc, d: Data, c: Choice, sent: bool)
    requires d.Shape()
    ensures !IsRound(tx) ==> Follows(Tx(tx), TxPacket(g, tx, d, c), sent)
  {
  }

  lemma PcFollows(g: Shared, t: nat, pc: Pc, d: Data, c: Choice, exitWaits: bool, sent: bool)
    requires d.Shape()
    ensures Follows(pc, PcStep(g, t, pc, d, c, exitWaits), sent)
  {
    match pc {
      case Rx(rx) => RxFollows(g, rx, d, c, sent);
      case Uts(uts, id, ret) => UtsFollows(g, t, uts, id, ret, d, sent);
      case Ack(at, ret) => AckFollows(g, at, ret, d, c, exitWaits, sent);
      case Send(send) => SendFollows(g, t, send, d, c, sent);
      case Tx(tx) =>
        TxRoundFollows(g, tx, d, c, sent);
        TxPacketFollows(g, tx, d, c, sent);
    }
    hide Follows, RxStep, UtsStep, AckStep, SendStep, TxRound, TxPacket;
  }

  ghost predicate FrameInv(s: State) {
    Inv(s) && ClosingsFollow(s.log) && forall t :: 0 <= t < |s.pcs| && Closing(s.pcs[t]) ==> SentAfter(s.log)
  }

  /** What another thread does is not seen on the bus while thread u is to close the gate. */
  lemma OthersSilent(s: State, t: nat, u: nat, c: Choice)
    requires FrameInv(s) && t < |s.pcs| && u < |s.pcs| && u != t && Closing(s.pcs[u])
    ensures SentBy(ThreadStep(s, t, c).seen, SentAfter(s.log))
  {
    assert ThreadOk(s.gate, t, s.pcs[t]) && ThreadOk(s.gate, u, s.pcs[u]);
    PcFollows(s.gate, t, s.pcs[t], s.data, c, s.pcs[0] == Rx(ExitLock), SentAfter(s.log));
    hide Relies, HoldsTal, PcStep;
  }

  lemma StepFollows(s: State, a: Action)
    requires FrameInv(s)
    ensures FrameInv(Step(s, a))
  {
    StepKeepsInv(s, a);
    if a.Run? && a.thread < |s.pcs| {
      var t, n, r := a.thread, ThreadStep(s, a.thread, a.choice), Step(s, a);
      PcFollows(s.gate, t, s.pcs[t], s.data, a.choice, s.pcs[0] == Rx(ExitLock), SentAfter(s.log));
      RecordFollows(s.log, n.seen);
      forall u | 0 <= u < |r.pcs| && Closing(r.pcs[u])
        ensures SentAfter(r.log)
      {
        if u != t {
          OthersSilent(s, t, u, a.choice);
        }
      }
    }
    hide Inv, PcStep, ClosingsFollow, SentAfter, SentBy, Record, Closing, ProtocolsMay;
  }

  lemma {:induction false} RunsFollow(s: State, actions: seq<Action>)
    requires Init(s)
    ensures FrameInv(After(s, actions))
  {
    if actions == [] {
      InitInv(s);
    } else {
      hide FrameInv, Step;
      RunsFollow(s, actions[..|actions| - 1]);
      StepFollows(After(s, actions[..|actions| - 1]), actions[|actions| - 1]);
    }
  }

  /** The j-th observation is the packet that was sent last before i, with no frame and no closing
      behind it. */
  ghost predicate LastSent(log: seq<Obs>, j: nat, i: nat)
    requires i <= |log|
  {
    j < i && log[j].Sent? && forall k :: j < k < i ==> !OnBus(log[k])
  }

  lemma {:induction false} SentMeans(log: seq<Obs>, i: nat) returns (j: nat)
    requires i <= |log| && SentAfter(log[..i])
    ensures LastSent(log, j, i)
  {
    assert log[..i][..i - 1] == log[..i - 1] && Last(log[..i]) == log[i - 1];
    if OnBus(log[i - 1]) {
      j := i - 1;
    } else {
      j := SentMeans(log, i - 1);
    }
  }

  lemma {:induction false} EachFollows(log: seq<Obs>, i: nat)
    requires ClosingsFollow(log) && i < |log| && log[i].Closed?
    ensures SentAfter(log[..i])
  {
    if i < |log| - 1 {
      EachFollows(log[..|log| - 1], i);
      assert log[..|log| - 1][..i] == log[..i];
    }
  }

  /** Over every run: a closing of the gate follows a packet of the transmit thread with no other
      frame between, checked or not, and from that packet on no checked WLAN or VIP frame is
      written before the gate is opened again. */
  lemma NoWriteFromPacketOn(s: State, actions: seq<Action>, i: nat) returns (j: nat)
    requires Init(s) && i < |After(s, actions).log| && After(s, actions).log[i].Closed?
    ensures var log := After(s, actions).log;
            && LastSent(log, j, i)
            && forall k :: j < k < |log| && Checked(log[k]) ==> exists o :: i < o < k && log[o].Opened?
  {
    RunsFollow(s, actions);
    var log := After(s, actions).log;
    hide After, Inv;
    EachFollows(log, i);
    j := SentMeans(log, i);
    forall k | j < k < |log| && Checked(log[k])
      ensures exists o :: i < o < k && log[o].Opened?
    {
      assert k > i;
      NoWriteWhileClosed(s, actions, i, k);
    }
  }
}
