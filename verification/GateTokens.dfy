/** The tokens of the acknowledgements when each sleep notify is handled without another thread
    moving while it waits for the access lock. */
module GateTokens {
  import opened CoexGate
  import opened Protocols
  import opened GateInvariant
  import opened GateRuns

  predicate NotifyWaits(rx: Pc) {
    rx == Rx(EntryLock) || rx == Rx(ExitLock)
  }

  ghost predicate NotifiesAtOnce(s: State, actions: seq<Action>)
    requires s.Shape()
  {
    actions == []
    || (var before, a := actions[..|actions| - 1], actions[|actions| - 1];
        NotifiesAtOnce(s, before) && (a.Run? && a.thread != 0 ==> !NotifyWaits(After(s, before).pcs[0])))
  }

  /** The note of an acknowledgement that is being built is of the latest entry, unless one has
      just been received. */
  predicate Fresh(pc: Pc, rx: Pc, latest: nat) {
    pc.Ack? && (pc.at.Mark? || pc.at.Put?)
    ==> NoteOk(pc.at.note) && !pc.at.note.exitWaits && (pc.at.note.latest == latest || rx == Rx(EntryLock))
  }

  predicate Latest(o: Obs) {
    o.AckQueued? ==> o.note.token == o.latest < 0x1000
  }

  ghost predicate AllLatest(log: seq<Obs>) {
    forall i :: 0 <= i < |log| ==> Latest(log[i])
  }

  ghost predicate FreshInv(s: State) {
    && ObservedInv(s) && AllLatest(s.log)
    && forall t :: 0 <= t < |s.pcs| ==> Fresh(s.pcs[t], s.pcs[0], s.data.latest)
  }

  /** A step outside of an acknowledgement neither builds nor queues one, and only the receipt
      of an entry changes the latest token. */
  predicate Quiet(d: Data, pc: Pc, n: Next) {
    && (n.seen.Saw? ==> !n.seen.obs.AckQueued?) && (n.pc.Ack? ==> n.pc.at.Alloc? || n.pc.at.Release?)
    && (n.data.latest == d.latest || (pc == Rx(RxIdle) && n.pc == Rx(EntryLock)))
  }

  lemma RxQuiet(g: Shared, rx: RxPc, d: Data, c: Choice)
    requires d.Shape()
    ensures Quiet(d, Rx(rx), RxStep(g, rx, d, c))
  {
  }

  lemma UtsQuiet(g: Shared, t: nat, uts: UtsPc, id: Id, ret: Ret, d: Data)
    requires d.Shape()
    ensures Quiet(d, Uts(uts, id, ret), UtsStep(g, t, uts, id, ret, d))
  {
  }

  lemma SendQuiet(g: Shared, t: nat, send: SendPc, d: Data, c: Choice)
    requires d.Shape()
    ensures Quiet(d, Send(send), SendStep(g, t, send, d, c))
  {
  }

  lemma TxRoundQuiet(g: Shared, tx: TxPc, d: Data, c: Choice)
    requires d.Shape()
    ensures Quiet(d, Tx(tx), TxRound(g, tx, d, c))
  {
    hide Probe;
  }

  lemma TxPacketQuiet(g: Shared, tx: TxPc, d: Data, c: Choice)
    requires d.Shape()
    ensures Quiet(d, Tx(tx), TxPacket(g, tx, d, c))
  {
  }

  lemma QuietStep(g: Shared, t: nat, pc: Pc, d: Data, c: Choice, exitWaits: bool)
    requires d.Shape() && !pc.Ack?
    ensures Quiet(d, pc, PcStep(g, t, pc, d, c, exitWaits))
  {
    match pc {
      case Rx(rx) => RxQuiet(g, rx, d, c);
      case Uts(uts, id, ret) => UtsQuiet(g, t, uts, id, ret, d);
      case Send(send) => SendQuiet(g, t, send, d, c);
      case Tx(tx) =>
        TxRoundQuiet(g, tx, d, c);
        TxPacketQuiet(g, tx, d, c);
    }
    hide Quiet, RxStep, UtsStep, SendStep, TxRound, TxPacket;
  }

  /** A step of thread t with a fresh note shows the latest token, and keeps its note fresh. */
  predicate StaysFresh(t: nat, rx: Pc, n: Next) {
    (n.seen.Saw? ==> Latest(n.seen.obs)) && Fresh(n.pc, if t == 0 then n.pc else rx, n.data.latest)
  }

  lemma AckStaysFresh(g: Shared, t: nat, at: AckPc, ret: Ret, d: Data, c: Choice, rx: Pc)
    requires d.Shape() && ThreadOk(g, t, Ack(at, ret)) && ThreadOk(g, 0, rx) && (t == 0 ==> rx == Ack(at, ret))
    requires TokenOk(g, rx, d) && Fresh(Ack(at, ret), rx, d.latest) && !NotifyWaits(rx)
    ensures StaysFresh(t, rx, AckStep(g, at, ret, d, c, false))
  {
  }

  lemma PcStaysFresh(g: Shared, t: nat, pc: Pc, d: Data, c: Choice, rx: Pc)
    requires d.Shape() && ThreadOk(g, t, pc) && ThreadOk(g, 0, rx) && (t == 0 ==> rx == pc)
    requires TokenOk(g, rx, d) && Fresh(pc, rx, d.latest) && (t != 0 ==> !NotifyWaits(rx))
    ensures StaysFresh(t, rx, PcStep(g, t, pc, d, c, rx == Rx(ExitLock)))
  {
    if pc.Ack? {
      AckStaysFresh(g, t, pc.at, pc.ret, d, c, rx);
      hide ThreadOk, TokenOk, StaysFresh, AckStep;
    } else {
      QuietStep(g, t, pc, d, c, rx == Rx(ExitLock));
      hide PcStep, ThreadOk, TokenOk;
    }
  }

  lemma OthersStayFresh(s: State, t: nat, c: Choice, u: nat)
    requires FreshInv(s) && t < |s.pcs| && u < |s.pcs| && u != t && (t != 0 ==> !NotifyWaits(s.pcs[0]))
    ensures var n := ThreadStep(s, t, c); Fresh(s.pcs[u], if t == 0 then n.pc else s.pcs[0], n.data.latest)
  {
    var g, pc, rx, d := s.gate, s.pcs[t], s.pcs[0], s.data;
    assert ThreadOk(g, t, pc) && ThreadOk(g, u, s.pcs[u]) && Fresh(s.pcs[u], rx, d.latest);
    if s.pcs[u].Ack? {
      LatestChanges(g, t, pc, d, c, rx == Rx(ExitLock));
    }
    hide PcStep, ObservedInv, Relies, HoldsTl;
  }

  /** Only the receipt of an entry changes the latest token, and a taken lock blocks the entry. */
  lemma LatestChanges(g: Shared, t: nat, pc: Pc, d: Data, c: Choice, exitWaits: bool)
    requires d.Shape() && Belongs(t, pc)
    ensures var n := PcStep(g, t, pc, d, c, exitWaits);
            && (n.data.latest == d.latest || (t == 0 && n.pc == Rx(EntryLock)))
            && (g.tal != FREE && pc == Rx(EntryLock) ==> n.pc == pc)
  {
    if pc.Ack? {
      assert AckStep(g, pc.at, pc.ret, d, c, exitWaits).data.latest == d.latest;
    } else {
      QuietStep(g, t, pc, d, c, exitWaits);
      if pc == Rx(EntryLock) {
        assert RxStep(g, EntryLock, d, c).pc == if g.tal == FREE then Rx(EntrySet) else pc;
      }
    }
    hide RxStep, UtsStep, AckStep, SendStep, TxStep;
  }

  lemma StepKeepsFresh(s: State, a: Action)
    requires FreshInv(s) && (a.Run? && a.thread != 0 ==> !NotifyWaits(s.pcs[0]))
    ensures FreshInv(Step(s, a))
  {
    StepObserved(s, a);
    if a.Run? && a.thread < |s.pcs| {
      var t, r := a.thread, Step(s, a);
      assert ThreadOk(s.gate, t, s.pcs[t]) && ThreadOk(s.gate, 0, s.pcs[0]) && Fresh(s.pcs[t], s.pcs[0], s.data.latest);
      PcStaysFresh(s.gate, t, s.pcs[t], s.data, a.choice, s.pcs[0]);
      forall u | 0 <= u < |r.pcs|
        ensures Fresh(r.pcs[u], r.pcs[0], r.data.latest)
      {
        if u != t {
          OthersStayFresh(s, t, a.choice, u);
        }
      }
    }
    hide ObservedInv, ThreadOk, PcStep, Fresh, Latest, TokenOk, ProtocolsMay, NotifyWaits;
  }

  lemma {:induction false} RunsKeepFresh(s: State, actions: seq<Action>)
    requires Init(s) && NotifiesAtOnce(s, actions)
    ensures FreshInv(After(s, actions))
  {
    RunsObserved(s, []);
    if actions != [] {
      hide FreshInv, Step;
      RunsKeepFresh(s, actions[..|actions| - 1]);
      StepKeepsFresh(After(s, actions[..|actions| - 1]), actions[|actions| - 1]);
    }
  }

  /** If no other thread moves while a notify waits for the lock, every acknowledgement carries
      the token of the latest entry, which is below 0x1000 and never the sentinel. */
  lemma AcksCarryLatestToken(s: State, actions: seq<Action>, i: nat)
    requires Init(s) && NotifiesAtOnce(s, actions)
    requires i < |After(s, actions).log| && After(s, actions).log[i].AckQueued?
    ensures var o := After(s, actions).log[i]; o.note.token == o.latest < 0x1000 && o.note.token != SENTINEL
  {
    RunsKeepFresh(s, actions);
    hide After, ObservedInv;
    assert Latest(After(s, actions).log[i]);
  }
}
