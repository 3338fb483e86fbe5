/** Who may send: a checked frame is written for a protocol that had access in the same hold of
    the transmit lock, a queue is served for one that had access or stopped waiting for it, and
    access comes from grants alone. */
module GateAccess {
  import opened CoexGate
  import opened GateInvariant
  import opened GateRuns
  import opened Protocols

  // ---------- the direct writes ----------

  /** The state after the first m actions. */
  ghost function At(s: State, actions: seq<Action>, m: nat): (r: State)
    requires s.Shape() && m <= |actions|
    ensures r.Shape()
  {
    After(s, actions[..m])
  }

  lemma AtEarlier(s: State, actions: seq<Action>, n: nat, m: nat)
    requires s.Shape() && m <= n <= |actions|
    ensures At(s, actions[..n], m) == At(s, actions, m)
  {
    assert actions[..n][..m] == actions[..m];
  }

  lemma AtEnd(s: State, actions: seq<Action>)
    requires s.Shape()
    ensures At(s, actions, |actions|) == After(s, actions)
  {
    assert actions[..|actions|] == actions;
  }

  /** From the j-th state of the run to the n-th one the thread has held the transmit lock. */
  ghost predicate Held(s: State, actions: seq<Action>, t: nat, j: nat, n: nat)
    requires s.Shape() && n <= |actions|
  {
    j <= n && forall m :: j <= m <= n ==> At(s, actions, m).gate.tl == t
  }

  lemma HeldOn(s: State, actions: seq<Action>, t: nat, j: nat)
    requires s.Shape() && actions != [] && j < |actions|
    requires Held(s, actions[..|actions| - 1], t, j, |actions| - 1) && At(s, actions, |actions|).gate.tl == t
    ensures Held(s, actions, t, j, |actions|)
  {
    hide At;
    var n := |actions| - 1;
    forall m | j <= m <= n
      ensures At(s, actions, m).gate.tl == t
    {
      AtEarlier(s, actions, n, m);
    }
  }

  /** A thread that has seen the access of the protocol, and may write for it. */
  predicate Admitted(pc: Pc, id: Id) {
    pc == Send(SendGate(id)) || pc == Send(SendWrite(id, true))
  }

  /** Only a thread that sees the access of the protocol gets there, with the lock. */
  lemma SendAdmits(g: Shared, t: nat, send: SendPc, d: Data, c: Choice, id: Id)
    requires d.Shape() && (SendHoldsTl(send) ==> g.tl == t)
    requires Admitted(SendStep(g, t, send, d, c).pc, id) && !Admitted(Send(send), id)
    ensures d.techs[id].access && g.tl == t && SendStep(g, t, send, d, c).gate.tl == t
  {
  }

  lemma OthersAdmitNobody(g: Shared, t: nat, pc: Pc, d: Data, c: Choice, exitWaits: bool)
    requires d.Shape() && !pc.Send?
    ensures var r := PcStep(g, t, pc, d, c, exitWaits).pc; r.Send? ==> r == Send(Idle)
  {
    match pc {
      case Rx(rx) => RxAdmitsNobody(g, rx, d, c);
      case Uts(uts, id, ret) =>
      case Ack(at, ret) =>
      case Tx(tx) => TxAdmitsNobody(g, tx, d, c);
    }
    hide RxStep, TxStep;
  }

  lemma RxAdmitsNobody(g: Shared, rx: RxPc, d: Data, c: Choice)
    requires d.Shape()
    ensures var r := RxStep(g, rx, d, c).pc; r.Send? ==> r == Send(Idle)
  {
    hide Data.WakeUp;
  }

  lemma TxAdmitsNobody(g: Shared, tx: TxPc, d: Data, c: Choice)
    requires d.Shape()
    ensures var r := TxStep(g, tx, d, c).pc; r.Send? ==> r == Send(Idle)
  {
    hide Probe;
  }

  lemma StepAdmits(s: State, t: nat, c: Choice, id: Id)
    requires Inv(s) && t < |s.pcs| && Admitted(ThreadStep(s, t, c).pc, id) && !Admitted(s.pcs[t], id)
    ensures s.data.techs[id].access && s.gate.tl == t && ThreadStep(s, t, c).gate.tl == t
  {
    assert ThreadOk(s.gate, t, s.pcs[t]);
    if s.pcs[t].Send? {
      SendAdmits(s.gate, t, s.pcs[t].send, s.data, c, id);
      hide SendStep, Inv, Relies;
    } else {
      OthersAdmitNobody(s.gate, t, s.pcs[t], s.data, c, s.pcs[0] == Rx(ExitLock));
      hide PcStep, Inv, ThreadOk;
    }
  }

  lemma HoldsLock(s: State, t: nat, id: Id)
    requires Inv(s) && t < |s.pcs| && Admitted(s.pcs[t], id)
    ensures s.gate.tl == t
  {
    assert ThreadOk(s.gate, t, s.pcs[t]);
  }

  lemma {:induction false} AdmittedHadAccess(s: State, actions: seq<Action>, t: nat, id: Id) returns (j: nat)
    requires Init(s) && t < |After(s, actions).pcs| && Admitted(After(s, actions).pcs[t], id)
    ensures Held(s, actions, t, j, |actions|) && At(s, actions, j).data.techs[id].access
  {
    hide ThreadStep, Inv, Admitted, At;
    RunsKeepInv(s, actions);
    HoldsLock(After(s, actions), t, id);
    AtEnd(s, actions);
    NotAtFirst(s, t, id);
    var n := |actions| - 1;
    var before, a := After(s, actions[..n]), actions[n];
    RunsKeepInv(s, actions[..n]);
    if Admitted(before.pcs[t], id) {
      j := AdmittedHadAccess(s, actions[..n], t, id);
      HeldOn(s, actions, t, j);
      AtEarlier(s, actions, n, j);
    } else {
      StepAdmits(before, t, a.choice, id);
      j := n;
      AtEnd(s, actions[..n]);
      AtEarlier(s, actions, n, n);
    }
  }

  lemma NotAtFirst(s: State, t: nat, id: Id)
    requires Init(s)
    ensures t < |s.pcs| ==> !Admitted(s.pcs[t], id)
  {
  }

  lemma WriteSeen(s: State, t: nat, c: Choice, id: Id)
    requires s.Shape() && t < |s.pcs| && ThreadStep(s, t, c).seen == Saw(Wrote(id, true))
    ensures s.pcs[t] == Send(SendWrite(id, true))
  {
    match s.pcs[t] {
      case Rx(rx) => RxWritesNothing(s.gate, rx, s.data, c);
      case Uts(_, _, _) =>
      case Ack(_, _) =>
      case Send(_) =>
      case Tx(tx) => TxWritesNothing(s.gate, tx, s.data, c);
    }
    hide RxStep, TxStep;
  }

  lemma RxWritesNothing(g: Shared, rx: RxPc, d: Data, c: Choice)
    requires d.Shape()
    ensures var seen := RxStep(g, rx, d, c).seen; seen.Saw? ==> !seen.obs.Wrote?
  {
    hide Data.WakeUp;
  }

  lemma TxWritesNothing(g: Shared, tx: TxPc, d: Data, c: Choice)
    requires d.Shape()
    ensures var seen := TxStep(g, tx, d, c).seen; seen.Saw? ==> !seen.obs.Wrote?
  {
    hide Probe;
  }

  /** What the k-th action of a run adds to the log is what its thread does. */
  lemma SeenByThread(s: State, actions: seq<Action>, k: nat, o: Obs)
    requires s.Shape() && k < |actions| && At(s, actions, k + 1).log == At(s, actions, k).log + [o]
    ensures actions[k].Run? && actions[k].thread < |At(s, actions, k).pcs|
    ensures ThreadStep(At(s, actions, k), actions[k].thread, actions[k].choice).seen == Saw(o)
  {
    hide ThreadStep, ProtocolsMay;
    assert actions[..k + 1][..k] == actions[..k];
    var log, now := At(s, actions, k).log, At(s, actions, k + 1).log;
    assert |now| == |log| + 1 && now[|log|] == o;
  }

  /** Over every run: when a frame of a protocol is written after the checks, its thread has held
      the transmit lock since a time when the protocol had access, and the gate is open. */
  lemma CheckedWriteHadAccess(s: State, actions: seq<Action>, k: nat, id: Id) returns (t: nat, j: nat)
    requires Init(s) && k < |actions|
    requires At(s, actions, k + 1).log == At(s, actions, k).log + [Wrote(id, true)]
    ensures actions[k].Run? && actions[k].thread == t
    ensures Held(s, actions, t, j, k) && At(s, actions, j).data.techs[id].access && At(s, actions, k).gate.ca
  {
    hide ThreadStep, At;
    SeenByThread(s, actions, k, Wrote(id, true));
    t := actions[k].thread;
    WriteSeen(At(s, actions, k), t, actions[k].choice, id);
    AtEnd(s, actions[..k]);
    AtEarlier(s, actions, k, k);
    j := AdmittedHadAccess(s, actions[..k], t, id);
    forall m | j <= m <= k
      ensures At(s, actions, m) == At(s, actions[..k], m)
    {
      AtEarlier(s, actions, k, m);
    }
    GateOpenAtWrite(s, actions[..k], t, id);
  }

  // ---------- the queues ----------

  /** The transmit thread finds access for the protocol of the queue, or finds, after it has asked
      and waited for it, that it need not wait any more. */
  predicate MayServe(s: State, q: Queue)
    requires s.Shape()
  {
    var tech := s.data.techs[ProtocolOf(q)];
    tech.access || (s.pcs[1] == Tx(TxGrantWait(q)) && !tech.deregisterFlag)
  }

  /** The transmit thread took the j-th action, and none after it before the n-th. */
  ghost predicate LastOfTx(actions: seq<Action>, j: nat, n: nat)
    requires n <= |actions|
  {
    && j < n && actions[j].Run? && actions[j].thread == 1
    && forall m :: j < m < n ==> !(actions[m].Run? && actions[m].thread == 1)
  }

  lemma ServesOnlyThen(g: Shared, t: nat, pc: Pc, d: Data, c: Choice, exitWaits: bool, q: Queue)
    requires d.Shape() && (q == BT_Q || q == ZIGB_Q)
    requires PcStep(g, t, pc, d, c, exitWaits).pc == Tx(TxDequeue(q))
    ensures pc.Tx?
    ensures var tech := d.techs[ProtocolOf(q)];
            tech.access || (pc == Tx(TxGrantWait(q)) && !tech.deregisterFlag)
  {
    match pc {
      case Rx(rx) => hide Data.WakeUp;
      case Uts(_, _, _) =>
      case Ack(_, _) =>
      case Send(_) =>
      case Tx(tx) => RoundServesOnlyThen(g, tx, d, c, q);
        hide TxRound;
    }
  }

  lemma RoundServesOnlyThen(g: Shared, tx: TxPc, d: Data, c: Choice, q: Queue)
    requires d.Shape() && (q == BT_Q || q == ZIGB_Q) && IsRound(tx)
    requires TxRound(g, tx, d, c).pc == Tx(TxDequeue(q))
    ensures var tech := d.techs[ProtocolOf(q)];
            tech.access || (tx == TxGrantWait(q) && !tech.deregisterFlag)
  {
  }

  lemma StepServes(s: State, t: nat, c: Choice, q: Queue)
    requires Inv(s) && t < |s.pcs| && (q == BT_Q || q == ZIGB_Q) && ThreadStep(s, t, c).pc == Tx(TxDequeue(q))
    ensures t == 1 && MayServe(s, q)
  {
    assert ThreadOk(s.gate, t, s.pcs[t]);
    ServesOnlyThen(s.gate, t, s.pcs[t], s.data, c, s.pcs[0] == Rx(ExitLock), q);
    hide PcStep, Inv, Relies, HoldsTal, HoldsTl;
  }

  lemma {:induction false} ServingFoundAccess(s: State, actions: seq<Action>, q: Queue) returns (j: nat)
    requires Init(s) && (q == BT_Q || q == ZIGB_Q) && After(s, actions).pcs[1] == Tx(TxDequeue(q))
    ensures LastOfTx(actions, j, |actions|) && MayServe(At(s, actions, j), q)
  {
    hide ThreadStep, Inv, At, MayServe;
    var n := |actions| - 1;
    var before, a := After(s, actions[..n]), actions[n];
    RunsKeepInv(s, actions[..n]);
    if a.Run? && a.thread == 1 {
      StepServes(before, 1, a.choice, q);
      j := n;
      AtEnd(s, actions[..n]);
      AtEarlier(s, actions, n, n);
    } else {
      j := ServingFoundAccess(s, actions[..n], q);
      AtEarlier(s, actions, n, j);
      forall m | j < m < |actions|
        ensures !(actions[m].Run? && actions[m].thread == 1)
      {
        assert m < n ==> actions[..n][m] == actions[m];
      }
    }
  }

  lemma TakeSeen(s: State, t: nat, c: Choice, q: Queue, isAck: bool)
    requires Inv(s) && t < |s.pcs| && ThreadStep(s, t, c).seen == Saw(Taken(q, isAck))
    ensures t == 1 && s.pcs[1] == Tx(TxDequeue(q))
  {
    assert ThreadOk(s.gate, t, s.pcs[t]);
    match s.pcs[t] {
      case Rx(rx) => RxTakesNothing(s.gate, rx, s.data, c);
      case Uts(_, _, _) =>
      case Ack(_, _) =>
      case Send(_) =>
      case Tx(tx) => TxTakes(s.gate, tx, s.data, c);
    }
    hide RxStep, TxStep, Inv, Relies, HoldsTal, HoldsTl;
  }

  lemma RxTakesNothing(g: Shared, rx: RxPc, d: Data, c: Choice)
    requires d.Shape()
    ensures var seen := RxStep(g, rx, d, c).seen; seen.Saw? ==> !seen.obs.Taken?
  {
    hide Data.WakeUp;
  }

  lemma TxTakes(g: Shared, tx: TxPc, d: Data, c: Choice)
    requires d.Shape()
    ensures var seen := TxStep(g, tx, d, c).seen; seen.Saw? && seen.obs.Taken? ==> tx == TxDequeue(seen.obs.q)
  {
    hide Probe;
  }

  /** Over every run: before the transmit thread takes a Bluetooth or ZigBee packet, the last thing
      it did was to find that the protocol had access, or that it had stopped waiting. */
  lemma ServedHadAccess(s: State, actions: seq<Action>, k: nat, q: Queue, isAck: bool) returns (j: nat)
    requires Init(s) && k < |actions| && (q == BT_Q || q == ZIGB_Q)
    requires At(s, actions, k + 1).log == At(s, actions, k).log + [Taken(q, isAck)]
    ensures LastOfTx(actions, j, k) && MayServe(At(s, actions, j), q)
  {
    hide ThreadStep, At, Inv, MayServe;
    SeenByThread(s, actions, k, Taken(q, isAck));
    AtEnd(s, actions[..k]);
    AtEarlier(s, actions, k, k);
    RunsKeepInv(s, actions[..k]);
    TakeSeen(At(s, actions, k), actions[k].thread, actions[k].choice, q, isAck);
    j := ServingFoundAccess(s, actions[..k], q);
    AtEarlier(s, actions, k, j);
  }

  // ---------- grants ----------

  /** Access comes with a grant that is seen, and a grant that is seen gives it. */
  predicate GrantsShown(d: Data, n: Next, id: Id)
    requires d.Shape() && n.data.Shape()
  {
    && (n.data.techs[id].access && !d.techs[id].access ==> GrantSeen(n.seen, id))
    && (GrantSeen(n.seen, id) ==> n.data.techs[id].access)
  }

  predicate GrantSeen(seen: Seen, id: Id) {
    seen.Saw? && seen.obs.Grant? && seen.obs.id == id
  }

  lemma RxGrants(g: Shared, rx: RxPc, d: Data, c: Choice, id: Id)
    requires d.Shape()
    ensures GrantsShown(d, RxStep(g, rx, d, c), id)
  {
  }

  lemma UtsGrants(g: Shared, t: nat, uts: UtsPc, id': Id, ret: Ret, d: Data, id: Id)
    requires d.Shape()
    ensures GrantsShown(d, UtsStep(g, t, uts, id', ret, d), id)
  {
  }

  lemma AckGrants(g: Shared, at: AckPc, ret: Ret, d: Data, c: Choice, exitWaits: bool, id: Id)
    requires d.Shape()
    ensures GrantsShown(d, AckStep(g, at, ret, d, c, exitWaits), id)
  {
  }

  lemma SendGrants(g: Shared, t: nat, send: SendPc, d: Data, c: Choice, id: Id)
    requires d.Shape()
    ensures GrantsShown(d, SendStep(g, t, send, d, c), id)
  {
  }

  lemma TxPacketGrants(g: Shared, tx: TxPc, d: Data, c: Choice, id: Id)
    requires d.Shape()
    ensures GrantsShown(d, TxPacket(g, tx, d, c), id)
  {
  }

  lemma TxRoundGrants(g: Shared, tx: TxPc, d: Data, c: Choice, id: Id)
    requires d.Shape()
    ensures GrantsShown(d, TxRound(g, tx, d, c), id)
  {
    hide Probe;
  }

  lemma PcGrants(g: Shared, t: nat, pc: Pc, d: Data, c: Choice, exitWaits: bool, id: Id)
    requires d.Shape()
    ensures GrantsShown(d, PcStep(g, t, pc, d, c, exitWaits), id)
  {
    match pc {
      case Rx(rx) => RxGrants(g, rx, d, c, id);
      case Uts(uts, id', ret) => UtsGrants(g, t, uts, id', ret, d, id);
      case Ack(at, ret) => AckGrants(g, at, ret, d, c, exitWaits, id);
      case Send(send) => SendGrants(g, t, send, d, c, id);
      case Tx(tx) =>
        TxRoundGrants(g, tx, d, c, id);
        TxPacketGrants(g, tx, d, c, id);
    }
    hide GrantsShown, RxStep, UtsStep, AckStep, SendStep, TxRound, TxPacket;
  }

  /** Over every run: a protocol that has access and did not at the start was granted it. */
  lemma {:induction false} AccessWasGranted(s: State, actions: seq<Action>, id: Id) returns (i: nat)
    requires Init(s) && !s.data.techs[id].access && After(s, actions).data.techs[id].access
    ensures i < |After(s, actions).log| && GrantSeen(Saw(After(s, actions).log[i]), id)
  {
    hide PcStep;
    var n := |actions| - 1;
    var before, a := After(s, actions[..n]), actions[n];
    if before.data.techs[id].access {
      i := AccessWasGranted(s, actions[..n], id);
    } else {
      PcGrants(before.gate, a.thread, before.pcs[a.thread], before.data, a.choice, before.pcs[0] == Rx(ExitLock), id);
      i := |before.log|;
    }
  }

  /** Over every run: after a grant the protocol has access. */
  lemma GrantGivesAccess(s: State, actions: seq<Action>, k: nat, o: Obs)
    requires Init(s) && k < |actions| && o.Grant? && At(s, actions, k + 1).log == At(s, actions, k).log + [o]
    ensures At(s, actions, k + 1).data.techs[o.id].access
  {
    hide PcStep, ProtocolsMay;
    SeenByThread(s, actions, k, o);
    assert actions[..k + 1][..k] == actions[..k];
    var before, a := At(s, actions, k), actions[k];
    PcGrants(before.gate, a.thread, before.pcs[a.thread], before.data, a.choice, before.pcs[0] == Rx(ExitLock), o.id);
  }
}
