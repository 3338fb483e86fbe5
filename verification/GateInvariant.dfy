/** What every interleaving of the gate's steps keeps. */
module GateInvariant {
  import opened CoexGate
  import opened Protocols

  // ---------- the locks ----------

  predicate RxHoldsTal(rx: RxPc) {
    !(rx.RxIdle? || rx.EntryLock? || rx.ExitLock? || rx.ExitGrant? || rx.CardGrant?)
  }

  predicate UtsHoldsTal(uts: UtsPc) {
    uts.UtsGate? || uts.UtsPending? || uts.UtsGrant? || uts.UtsAsleep? || uts.UtsScan?
  }

  predicate TxHoldsTal(tx: TxPc) {
    tx.TxAsleep? || tx.TxMark? || tx.TxShut? || tx.TxTalRelease?
  }

  predicate HoldsTal(pc: Pc) {
    match pc
    case Rx(rx) => RxHoldsTal(rx)
    case Uts(uts, _, _) => UtsHoldsTal(uts)
    case Ack(_, _) => true
    case Send(_) => false
    case Tx(tx) => TxHoldsTal(tx)
  }

  predicate SendHoldsTl(send: SendPc) {
    send.SendAccess? || send.SendGate? || send.SendWrite? || send.SendUnlock?
  }

  predicate TxHoldsTl(tx: TxPc) {
    tx.TxCheck? || tx.TxWrite? || tx.TxTalLock? || TxHoldsTal(tx) || tx.TxUnlock?
  }

  predicate HoldsTl(pc: Pc) {
    match pc
    case Send(send) => SendHoldsTl(send)
    case Tx(tx) => TxHoldsTl(tx)
    case _ => false
  }

  // ---------- which thread can be where ----------

  predicate ReturnsTo(t: nat, ret: Ret) {
    match ret
    case ToRx => t == 0
    case ToIdle => t >= 2
    case _ => t == 1
  }

  predicate Belongs(t: nat, pc: Pc) {
    match pc
    case Rx(_) => t == 0
    case Uts(_, _, ret) => t != 0 && ReturnsTo(t, ret)
    case Ack(_, ret) => ReturnsTo(t, ret)
    case Send(_) => t >= 2
    case Tx(_) => t == 1
  }

  // ---------- what a thread relies on where it is ----------

  predicate RxRelies(g: Shared, rx: RxPc) {
    match rx
    case EntryScan(_) => g.se
    case EntryOpen => g.se
    case EntryClear => g.se && g.ca
    case EntryGrant(_) => g.se && g.ca && !g.ack
    case ExitOpen => !g.se
    case ExitClear => !g.se && g.ca
    case ExitRelease => !g.se && g.ca && !g.ack
    case ExitGrant(_) => !g.se && g.ca && !g.ack
    case _ => true
  }

  predicate UtsRelies(g: Shared, uts: UtsPc) {
    match uts
    case UtsPending => g.ca
    case UtsGrant => g.ca && !g.ack
    case UtsScan(_) => g.se && !g.ack
    case _ => true
  }

  predicate AckRelies(g: Shared, at: AckPc) {
    match at
    case Put(_) => g.se && g.ack
    case Wake => g.se && g.ack
    case Release => true
    case _ => g.se
  }

  predicate TxRelies(g: Shared, tx: TxPc) {
    match tx
    case TxMark => g.se
    case TxShut(_) => g.se && g.ack
    case _ => true
  }

  predicate Relies(g: Shared, pc: Pc) {
    match pc
    case Rx(rx) => RxRelies(g, rx)
    case Uts(uts, _, _) => UtsRelies(g, uts)
    case Ack(at, _) => AckRelies(g, at)
    case Send(send) => send.SendWrite? && send.checked ==> g.ca
    case Tx(tx) => TxRelies(g, tx)
  }

  predicate ThreadOk(g: Shared, t: nat, pc: Pc) {
    && Belongs(t, pc) && Relies(g, pc)
    && (HoldsTal(pc) <==> g.tal == t) && (HoldsTl(pc) <==> g.tl == t)
  }

  /** Once access was open, a closed gate means that an acknowledgement is out and the firmware
      asleep, and an acknowledgement means sleep; but not while a sleep exit is half done. */
  predicate GateOk(g: Shared, rx: Pc) {
    && (g.ack ==> g.se || rx == Rx(ExitOpen) || rx == Rx(ExitClear))
    && (g.everOpen && !g.ca ==> g.ack && (g.se || rx == Rx(ExitOpen)))
    && (g.ca ==> g.everOpen)
  }

  ghost predicate Inv(s: State) {
    s.Shape() && GateOk(s.gate, s.pcs[0]) && forall t :: 0 <= t < |s.pcs| ==> ThreadOk(s.gate, t, s.pcs[t])
  }

  // ---------- what a step of thread t leaves to the others ----------

  predicate LockKept(before: int, after: int, t: nat) {
    after == before || (before == FREE && after == t) || (before == t && after == FREE)
  }

  predicate Guarantees(g: Shared, h: Shared, t: nat) {
    && LockKept(g.tal, h.tal, t) && LockKept(g.tl, h.tl, t)
    && (h.se != g.se || h.ack != g.ack ==> g.tal == t)
    && (g.ca && !h.ca ==> g.tal == t && g.tl == t && g.se && h.se)
    && (h.ack && !g.ack ==> g.se)
    && (h.se && !g.se ==> t == 0)
  }

  /** The others are undisturbed, and thread t finds what it relies on at its new place. */
  predicate Good(g: Shared, t: nat, rx: Pc, n: Next) {
    && Guarantees(g, n.gate, t) && ThreadOk(n.gate, t, n.pc)
    && GateOk(n.gate, if t == 0 then n.pc else rx)
  }

  lemma OthersUndisturbed(g: Shared, h: Shared, t: nat, u: nat, pc: Pc)
    requires Guarantees(g, h, t) && u != t && ThreadOk(g, u, pc)
    ensures ThreadOk(h, u, pc)
  {
  }

  lemma RxStepGood(g: Shared, rx: RxPc, d: Data, c: Choice)
    requires d.Shape() && ThreadOk(g, 0, Rx(rx)) && GateOk(g, Rx(rx))
    ensures Good(g, 0, Rx(rx), RxStep(g, rx, d, c))
  {
    if RxHoldsTal(rx) {
      RxLockedGood(g, rx, d, c);
    } else {
      RxFreeGood(g, rx, d, c);
    }
    hide Good, ThreadOk, GateOk, RxStep;
  }

  lemma RxFreeGood(g: Shared, rx: RxPc, d: Data, c: Choice)
    requires d.Shape() && ThreadOk(g, 0, Rx(rx)) && GateOk(g, Rx(rx)) && !RxHoldsTal(rx)
    ensures Good(g, 0, Rx(rx), RxStep(g, rx, d, c))
  {
    hide Data.WakeUp, Tech.Wants, Tech.Waits;
  }

  lemma RxLockedGood(g: Shared, rx: RxPc, d: Data, c: Choice)
    requires d.Shape() && ThreadOk(g, 0, Rx(rx)) && GateOk(g, Rx(rx)) && RxHoldsTal(rx)
    ensures Good(g, 0, Rx(rx), RxStep(g, rx, d, c))
  {
    hide Data.WakeUp, Tech.Wants, Tech.Waits;
  }

  lemma UtsStepGood(g: Shared, t: nat, uts: UtsPc, id: Id, ret: Ret, d: Data, rx: Pc)
    requires d.Shape() && ThreadOk(g, t, Uts(uts, id, ret)) && GateOk(g, rx)
    ensures Good(g, t, rx, UtsStep(g, t, uts, id, ret, d))
  {
    if UtsHoldsTal(uts) {
      UtsLockedGood(g, t, uts, id, ret, d, rx);
    } else {
      UtsFreeGood(g, t, uts, id, ret, d, rx);
    }
    hide Good, ThreadOk, GateOk, UtsStep;
  }

  lemma UtsFreeGood(g: Shared, t: nat, uts: UtsPc, id: Id, ret: Ret, d: Data, rx: Pc)
    requires d.Shape() && ThreadOk(g, t, Uts(uts, id, ret)) && GateOk(g, rx) && !UtsHoldsTal(uts)
    ensures Good(g, t, rx, UtsStep(g, t, uts, id, ret, d))
  {
    hide Data.SetTech, Tech.Wants;
  }

  lemma UtsLockedGood(g: Shared, t: nat, uts: UtsPc, id: Id, ret: Ret, d: Data, rx: Pc)
    requires d.Shape() && ThreadOk(g, t, Uts(uts, id, ret)) && GateOk(g, rx) && UtsHoldsTal(uts)
    ensures Good(g, t, rx, UtsStep(g, t, uts, id, ret, d))
  {
    hide Data.SetTech, Tech.Wants;
  }

  lemma AckStepGood(g: Shared, t: nat, at: AckPc, ret: Ret, d: Data, c: Choice, exitWaits: bool, rx: Pc)
    requires d.Shape() && ThreadOk(g, t, Ack(at, ret)) && GateOk(g, rx) && (t == 0 ==> rx == Ack(at, ret))
    ensures Good(g, t, rx, AckStep(g, at, ret, d, c, exitWaits))
  {
  }

  lemma SendStepGood(g: Shared, t: nat, send: SendPc, d: Data, c: Choice, rx: Pc)
    requires d.Shape() && ThreadOk(g, t, Send(send)) && GateOk(g, rx)
    ensures Good(g, t, rx, SendStep(g, t, send, d, c))
  {
  }

  lemma TxStepGood(g: Shared, tx: TxPc, d: Data, c: Choice, rx: Pc)
    requires d.Shape() && ThreadOk(g, 1, Tx(tx)) && GateOk(g, rx)
    ensures Good(g, 1, rx, TxStep(g, tx, d, c))
  {
    if IsRound(tx) {
      TxRoundGood(g, tx, d, c, rx);
    } else {
      TxPacketGood(g, tx, d, c, rx);
    }
    hide Good, ThreadOk, GateOk, TxRound, TxPacket;
  }

  lemma TxRoundGood(g: Shared, tx: TxPc, d: Data, c: Choice, rx: Pc)
    requires d.Shape() && ThreadOk(g, 1, Tx(tx)) && GateOk(g, rx) && IsRound(tx)
    ensures Good(g, 1, rx, TxRound(g, tx, d, c))
  {
    hide Probe, Data.SetTech, ProtocolOf;
    assert TxRound(g, tx, d, c).gate == g;
  }

  lemma TxPacketGood(g: Shared, tx: TxPc, d: Data, c: Choice, rx: Pc)
    requires d.Shape() && ThreadOk(g, 1, Tx(tx)) && GateOk(g, rx) && !IsRound(tx)
    ensures Good(g, 1, rx, TxPacket(g, tx, d, c))
  {
    if TxHoldsTal(tx) {
      TxGateGood(g, tx, d, c, rx);
    } else {
      TxFrameGood(g, tx, d, c, rx);
    }
    hide Good, ThreadOk, GateOk, TxPacket;
  }

  lemma TxFrameGood(g: Shared, tx: TxPc, d: Data, c: Choice, rx: Pc)
    requires d.Shape() && ThreadOk(g, 1, Tx(tx)) && GateOk(g, rx) && !IsRound(tx) && !TxHoldsTal(tx)
    ensures Good(g, 1, rx, TxPacket(g, tx, d, c))
  {
    hide Data.Dequeue;
  }

  lemma TxGateGood(g: Shared, tx: TxPc, d: Data, c: Choice, rx: Pc)
    requires d.Shape() && ThreadOk(g, 1, Tx(tx)) && GateOk(g, rx) && TxHoldsTal(tx)
    ensures Good(g, 1, rx, TxPacket(g, tx, d, c))
  {
  }

  lemma PcStepGood(g: Shared, t: nat, pc: Pc, d: Data, c: Choice, exitWaits: bool, rx: Pc)
    requires d.Shape() && ThreadOk(g, t, pc) && GateOk(g, rx) && (t == 0 ==> rx == pc)
    ensures Good(g, t, rx, PcStep(g, t, pc, d, c, exitWaits))
  {
    hide Relies, HoldsTal, HoldsTl, GateOk, Guarantees, RxStep, UtsStep, AckStep, SendStep, TxStep;
    match pc {
      case Rx(at) => RxStepGood(g, at, d, c);
      case Uts(uts, id, ret) => UtsStepGood(g, t, uts, id, ret, d, rx);
      case Ack(at, ret) => AckStepGood(g, t, at, ret, d, c, exitWaits, rx);
      case Send(send) => SendStepGood(g, t, send, d, c, rx);
      case Tx(tx) => TxStepGood(g, tx, d, c, rx);
    }
  }

  lemma StepKeepsInv(s: State, a: Action)
    requires Inv(s)
    ensures Inv(Step(s, a))
  {
    hide ThreadOk, GateOk, Guarantees, PcStep, ProtocolsMay;
    var r := Step(s, a);
    if a.Run? && a.thread < |s.pcs| {
      var t, n := a.thread, ThreadStep(s, a.thread, a.choice);
      PcStepGood(s.gate, t, s.pcs[t], s.data, a.choice, s.pcs[0] == Rx(ExitLock), s.pcs[0]);
      forall u | 0 <= u < |r.pcs|
        ensures ThreadOk(r.gate, u, r.pcs[u])
      {
        if u != t {
          OthersUndisturbed(s.gate, r.gate, t, u, s.pcs[u]);
        }
      }
    }
  }

  lemma InitInv(s: State)
    requires Init(s)
    ensures Inv(s)
  {
  }

  /** The invariant holds in every state of every run. */
  lemma {:induction false} RunsKeepInv(s: State, actions: seq<Action>)
    requires Init(s)
    ensures Inv(After(s, actions))
  {
    hide Inv, Step;
    if actions == [] {
      InitInv(s);
    } else {
      RunsKeepInv(s, actions[..|actions| - 1]);
      StepKeepsInv(After(s, actions[..|actions| - 1]), actions[|actions| - 1]);
    }
  }

  // ---------- some thread ----------

  ghost predicate Any(pcs: seq<Pc>, p: Pc -> bool) {
    exists u :: 0 <= u < |pcs| && p(pcs[u])
  }

  ghost predicate Other(pcs: seq<Pc>, t: nat, p: Pc -> bool) {
    exists u :: 0 <= u < |pcs| && u != t && p(pcs[u])
  }

  lemma AnyIsThisOrOther(pcs: seq<Pc>, t: nat, pc: Pc, p: Pc -> bool)
    requires t < |pcs|
    ensures Any(pcs[t := pc], p) == (Other(pcs, t, p) || p(pc))
  {
    var after := pcs[t := pc];
    if Other(pcs, t, p) {
      var u :| 0 <= u < |pcs| && u != t && p(pcs[u]);
      assert p(after[u]);
    }
    if p(pc) {
      assert p(after[t]);
    }
    if Any(after, p) {
      var u :| 0 <= u < |after| && p(after[u]);
      assert u != t ==> p(pcs[u]);
    }
  }

  /** What is done only with the access lock is done by at most one thread. */
  lemma OnlyHolder(s: State, t: nat, p: Pc -> bool)
    requires Inv(s) && t < |s.pcs| && HoldsTal(s.pcs[t])
    requires forall pc :: p(pc) ==> HoldsTal(pc)
    ensures !Other(s.pcs, t, p)
  {
    assert ThreadOk(s.gate, t, s.pcs[t]);
    forall u | 0 <= u < |s.pcs| && u != t
      ensures !p(s.pcs[u])
    {
      assert ThreadOk(s.gate, u, s.pcs[u]);
      hide Relies, HoldsTl, HoldsTal;
    }
  }

  // ---------- the gate ----------

  /** Whenever the access lock is free: an acknowledgement means that the firmware asked for
      sleep, and once access was open it is closed only with an acknowledgement out. */
  lemma GateWhenUnlocked(s: State, actions: seq<Action>)
    requires Init(s)
    ensures var g := After(s, actions).gate;
            g.tal == FREE ==> (g.ack ==> g.se) && (g.everOpen && !g.ca ==> g.ack && g.se)
  {
    RunsKeepInv(s, actions);
    hide After;
    var r := After(s, actions);
    assert ThreadOk(r.gate, 0, r.pcs[0]);
  }

  /** At the instant of a checked WLAN or VIP write the gate is open, although it was read
      without the access lock. */
  lemma GateOpenAtWrite(s: State, actions: seq<Action>, t: nat, id: Id)
    requires Init(s) && t < |After(s, actions).pcs| && After(s, actions).pcs[t] == Send(SendWrite(id, true))
    ensures After(s, actions).gate.ca
  {
    RunsKeepInv(s, actions);
    hide After;
    var r := After(s, actions);
    assert ThreadOk(r.gate, t, r.pcs[t]);
  }

  /** At the instant of a grant that a sleep exit makes behind the lock, of one of a contested
      sleep entry, and of one of update_tx_status, the gate is open and no acknowledgement out. */
  lemma GateOpenAtGrant(s: State, actions: seq<Action>, t: nat)
    requires Init(s) && t < |After(s, actions).pcs|
    requires var pc := After(s, actions).pcs[t];
             match pc
             case Rx(rx) => rx.EntryGrant? || rx.ExitGrant?
             case Uts(uts, _, _) => uts.UtsGrant?
             case _ => false
    ensures After(s, actions).gate.ca && !After(s, actions).gate.ack
  {
    RunsKeepInv(s, actions);
    hide After;
    var r := After(s, actions);
    assert ThreadOk(r.gate, t, r.pcs[t]);
  }

  /** Neither lock is ever held by two threads. */
  lemma LocksExclude(s: State, actions: seq<Action>, t: nat, u: nat)
    requires Init(s) && t < u < |After(s, actions).pcs|
    ensures var pcs := After(s, actions).pcs;
            !(HoldsTal(pcs[t]) && HoldsTal(pcs[u])) && !(HoldsTl(pcs[t]) && HoldsTl(pcs[u]))
  {
    RunsKeepInv(s, actions);
    hide After, HoldsTal, HoldsTl;
    var r := After(s, actions);
    assert ThreadOk(r.gate, t, r.pcs[t]) && ThreadOk(r.gate, u, r.pcs[u]);
  }
}
