/** When the gate closes with the shared acknowledgement flag set, and when with the flag clear.
    The flag of the transmit thread outlives its packet, and an acknowledgement may be sent after
    the exit that took it back: both can close the gate with the shared flag clear. */
module GateClosings {
  import opened CoexGate
  import opened GateInvariant
  import opened GateRuns
  import opened Protocols

  // ---------- the acknowledgement flag as it can be observed ----------

  /** An opening that takes the acknowledgement back. */
  predicate Reopens(o: Obs) {
    o.Opened? && !o.opener.ByCardReady?
  }

  /** What sets the flag or takes it back. */
  predicate Decides(o: Obs) {
    o.AckQueued? || o.Closed? || Reopens(o)
  }

  ghost predicate AckedAfter(log: seq<Obs>) {
    log != [] && if Decides(Last(log)) then !Reopens(Last(log)) else AckedAfter(log[..|log| - 1])
  }

  predicate AckedBy(seen: Seen, acked: bool) {
    if seen.Saw? && Decides(seen.obs) then !Reopens(seen.obs) else acked
  }

  predicate ClosingOk(o: Obs, acked: bool) {
    o.Closed? ==> o.acked == acked
  }

  ghost predicate ClosingsOk(log: seq<Obs>) {
    log == [] || (ClosingsOk(log[..|log| - 1]) && ClosingOk(Last(log), AckedAfter(log[..|log| - 1])))
  }

  lemma RecordCloses(log: seq<Obs>, seen: Seen, acked: bool)
    requires AckedAfter(log) == acked
    ensures AckedAfter(Record(log, seen)) == AckedBy(seen, acked)
    ensures ClosingsOk(log) && (seen.Saw? ==> ClosingOk(seen.obs, acked)) ==> ClosingsOk(Record(log, seen))
  {
    if seen.Saw? {
      var all := log + [seen.obs];
      assert all[..|all| - 1] == log;
    }
  }

  // ---------- the flag and what was observed ----------

  /** Between the change of the flag and what can be observed of it, or the other way round. */
  predicate Between(pc: Pc) {
    match pc
    case Rx(rx) => rx.EntryClear? || rx.ExitClear?
    case Ack(at, _) => at.Put?
    case Tx(tx) => tx.TxShut?
    case _ => false
  }

  /** What is known there. */
  predicate Knows(pc: Pc, acked: bool) {
    match pc
    case Rx(rx) => rx.EntryClear? || rx.ExitClear? ==> !acked
    case Tx(tx) => tx.TxShut? ==> tx.acked == acked
    case _ => true
  }

  predicate Agrees(g: Shared, pc: Pc, others: bool, acked: bool) {
    Knows(pc, acked) && (others || Between(pc) || g.ack == acked)
  }

  /** A step keeps the agreement, and does not disturb a thread that is between. */
  predicate KeepsAgreement(n: Next, others: bool, acked: bool) {
    && (n.seen.Saw? ==> ClosingOk(n.seen.obs, acked)) && Agrees(n.gate, n.pc, others, AckedBy(n.seen, acked))
    && (others ==> AckedBy(n.seen, acked) == acked)
  }

  lemma RxAgrees(g: Shared, rx: RxPc, d: Data, c: Choice, others: bool, acked: bool)
    requires d.Shape() && (RxHoldsTal(rx) ==> !others) && Agrees(g, Rx(rx), others, acked)
    ensures KeepsAgreement(RxStep(g, rx, d, c), others, acked)
  {
    hide Data.WakeUp;
  }

  lemma UtsAgrees(g: Shared, t: nat, uts: UtsPc, id: Id, ret: Ret, d: Data, others: bool, acked: bool)
    requires d.Shape() && Agrees(g, Uts(uts, id, ret), others, acked)
    ensures KeepsAgreement(UtsStep(g, t, uts, id, ret, d), others, acked)
  {
  }

  lemma AckAgrees(g: Shared, t: nat, at: AckPc, ret: Ret, d: Data, c: Choice, exitWaits: bool, acked: bool)
    requires d.Shape() && ThreadOk(g, t, Ack(at, ret)) && Agrees(g, Ack(at, ret), false, acked)
    ensures KeepsAgreement(AckStep(g, at, ret, d, c, exitWaits), false, acked)
  {
  }

  lemma SendAgrees(g: Shared, t: nat, send: SendPc, d: Data, c: Choice, others: bool, acked: bool)
    requires d.Shape() && Agrees(g, Send(send), others, acked)
    ensures KeepsAgreement(SendStep(g, t, send, d, c), others, acked)
  {
  }

  lemma TxAgrees(g: Shared, tx: TxPc, d: Data, c: Choice, others: bool, acked: bool)
    requires d.Shape() && ThreadOk(g, 1, Tx(tx)) && (TxHoldsTal(tx) ==> !others) && Agrees(g, Tx(tx), others, acked)
    ensures KeepsAgreement(TxStep(g, tx, d, c), others, acked)
  {
    hide Probe;
    if IsRound(tx) {
      assert KeepsAgreement(TxRound(g, tx, d, c), others, acked);
    } else {
      TxPacketAgrees(g, tx, d, c, others, acked);
    }
  }

  lemma TxPacketAgrees(g: Shared, tx: TxPc, d: Data, c: Choice, others: bool, acked: bool)
    requires d.Shape() && !IsRound(tx) && TxRelies(g, tx) && (TxHoldsTal(tx) ==> !others)
    requires Agrees(g, Tx(tx), others, acked)
    ensures KeepsAgreement(TxPacket(g, tx, d, c), others, acked)
  {
  }

  lemma PcAgrees(g: Shared, t: nat, pc: Pc, d: Data, c: Choice, exitWaits: bool, others: bool, acked: bool)
    requires d.Shape() && ThreadOk(g, t, pc) && (HoldsTal(pc) ==> !others) && Agrees(g, pc, others, acked)
    ensures KeepsAgreement(PcStep(g, t, pc, d, c, exitWaits), others, acked)
  {
    match pc {
      case Rx(rx) => RxAgrees(g, rx, d, c, others, acked);
      case Uts(uts, id, ret) => UtsAgrees(g, t, uts, id, ret, d, others, acked);
      case Ack(at, ret) => AckAgrees(g, t, at, ret, d, c, exitWaits, acked);
      case Send(send) => SendAgrees(g, t, send, d, c, others, acked);
      case Tx(tx) => TxAgrees(g, tx, d, c, others, acked);
    }
    hide KeepsAgreement, Agrees, Relies, HoldsTl, RxStep, UtsStep, AckStep, SendStep, TxStep;
  }

  ghost predicate ClosingInv(s: State) {
    Inv(s) && ClosingsOk(s.log) && (Any(s.pcs, Between) || s.gate.ack == AckedAfter(s.log))
    && forall t :: 0 <= t < |s.pcs| ==> Knows(s.pcs[t], AckedAfter(s.log))
  }

  lemma StepCloses(s: State, t: nat, c: Choice)
    requires ClosingInv(s) && t < |s.pcs|
    ensures KeepsAgreement(ThreadStep(s, t, c), Other(s.pcs, t, Between), AckedAfter(s.log))
  {
    var pc := s.pcs[t];
    assert ThreadOk(s.gate, t, pc);
    assert s.pcs[t := pc] == s.pcs;
    AnyIsThisOrOther(s.pcs, t, pc, Between);
    if HoldsTal(pc) {
      OnlyHolder(s, t, Between);
    }
    hide Inv, ThreadOk, PcStep, Any, Other, Between, KeepsAgreement;
    PcAgrees(s.gate, t, pc, s.data, c, s.pcs[0] == Rx(ExitLock), Other(s.pcs, t, Between), AckedAfter(s.log));
  }

  lemma StepKeepsClosings(s: State, a: Action)
    requires ClosingInv(s)
    ensures ClosingInv(Step(s, a))
  {
    StepKeepsInv(s, a);
    if a.Run? && a.thread < |s.pcs| {
      var t, n, r := a.thread, ThreadStep(s, a.thread, a.choice), Step(s, a);
      StepCloses(s, t, a.choice);
      RecordCloses(s.log, n.seen, AckedAfter(s.log));
      AnyIsThisOrOther(s.pcs, t, n.pc, Between);
      forall u | 0 <= u < |r.pcs|
        ensures Knows(r.pcs[u], AckedAfter(r.log))
      {
        if u != t && Between(s.pcs[u]) {
          assert Other(s.pcs, t, Between);
        }
      }
    }
    hide Inv, PcStep, ClosingsOk, AckedAfter, AckedBy, Any, Other, ProtocolsMay, ClosingOk;
  }

  lemma {:induction false} RunsKeepClosings(s: State, actions: seq<Action>)
    requires Init(s)
    ensures ClosingInv(After(s, actions))
  {
    if actions == [] {
      InitInv(s);
    } else {
      hide ClosingInv, Step;
      RunsKeepClosings(s, actions[..|actions| - 1]);
      StepKeepsClosings(After(s, actions[..|actions| - 1]), actions[|actions| - 1]);
    }
  }

  // ---------- closings with the flag clear ----------

  ghost predicate Undecided(log: seq<Obs>, from: nat, to: nat)
    requires to <= |log|
  {
    forall k :: from <= k < to ==> !Decides(log[k])
  }

  /** The last that decided before i was an opening by a sleep exit or a contested entry, or
      nothing decided. */
  ghost predicate FlagClear(log: seq<Obs>, i: nat)
    requires i <= |log|
  {
    Undecided(log, 0, i) || exists k :: 0 <= k < i && Reopens(log[k]) && Undecided(log, k + 1, i)
  }

  lemma {:induction false} AckedExactly(log: seq<Obs>, i: nat)
    requires i <= |log|
    ensures AckedAfter(log[..i]) <==> !FlagClear(log, i)
  {
    if i > 0 {
      assert log[..i][..i - 1] == log[..i - 1] && Last(log[..i]) == log[i - 1];
      AckedExactly(log, i - 1);
      if Reopens(log[i - 1]) {
        assert Undecided(log, i, i);
      } else if !Decides(log[i - 1]) {
        assert forall k :: 0 <= k < i ==> (Undecided(log, k, i) <==> Undecided(log, k, i - 1));
      }
    }
  }

  lemma {:induction false} EachClosing(log: seq<Obs>, i: nat)
    requires ClosingsOk(log) && i < |log| && log[i].Closed?
    ensures log[i].acked == AckedAfter(log[..i])
  {
    if i < |log| - 1 {
      EachClosing(log[..|log| - 1], i);
      assert log[..|log| - 1][..i] == log[..i];
    }
  }

  /** Over every run: the gate closes with the acknowledgement flag clear exactly if the last of
      the acknowledgements queued, the closings, and the openings by an exit or a contested entry
      before it is such an opening, or there is none of them. */
  lemma ClosedWithFlagClearExactly(s: State, actions: seq<Action>, i: nat)
    requires Init(s) && i < |After(s, actions).log| && After(s, actions).log[i].Closed?
    ensures !After(s, actions).log[i].acked <==> FlagClear(After(s, actions).log, i)
  {
    RunsKeepClosings(s, actions);
    hide After, Inv;
    EachClosing(After(s, actions).log, i);
    AckedExactly(After(s, actions).log, i);
  }
}
