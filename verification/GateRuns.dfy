/** Safety over whole runs of the gate: what can be observed of them, the tokens that
    acknowledgements carry, and their number. */
module GateRuns {
  import opened CoexGate
  import opened Protocols
  import opened GateInvariant

  // ---------- observations ----------

  /** Whether access is open after what was observed. */
  ghost predicate OpenAfter(log: seq<Obs>) {
    log != [] && !Last(log).Closed? && (Last(log).Opened? || OpenAfter(log[..|log| - 1]))
  }

  function Last(log: seq<Obs>): (o: Obs)
    requires log != []
  {
    log[|log| - 1]
  }

  /** An acknowledgement carries the token of the latest entry when it was built, except that
      it carries the sentinel exactly if a sleep exit was waiting for the lock then. */
  predicate NoteOk(note: Note) {
    note.latest < 0x1000 && note.token == if note.exitWaits then SENTINEL else note.latest
  }

  /** What may be observed when access is open or not. */
  predicate Allowed(o: Obs, open: bool) {
    match o
    case Wrote(_, checked) => checked ==> open
    case Grant(_, cardReady, ca, ack) => ca == open && (cardReady || (ca && !ack))
    case AckQueued(note, _) => NoteOk(note)
    case _ => true
  }

  /** A WLAN or VIP frame that was written after the checks. */
  predicate Checked(o: Obs) {
    o.Wrote? && o.checked
  }

  ghost predicate LogOk(log: seq<Obs>) {
    log == [] || (LogOk(log[..|log| - 1]) && Allowed(Last(log), OpenAfter(log[..|log| - 1])))
  }

  predicate SeenAllowed(seen: Seen, open: bool) {
    seen.Saw? ==> Allowed(seen.obs, open)
  }

  /** Whether access is open after a step. */
  predicate OpenBy(seen: Seen, open: bool) {
    if seen.Nothing? then open else seen.obs.Opened? || (!seen.obs.Closed? && open)
  }

  lemma RecordOk(log: seq<Obs>, seen: Seen, open: bool)
    requires LogOk(log) && OpenAfter(log) == open && SeenAllowed(seen, open)
    ensures LogOk(Record(log, seen)) && OpenAfter(Record(log, seen)) == OpenBy(seen, open)
  {
    if seen.Saw? {
      var all := log + [seen.obs];
      assert all[..|all| - 1] == log;
    }
  }

  predicate HoldsNote(pc: Pc) {
    pc.Ack? && (pc.at.Mark? || pc.at.Put?) ==> NoteOk(pc.at.note)
  }

  /** The token outside of an exit that waits or just got the lock. */
  predicate TokenOk(g: Shared, rx: Pc, d: Data) {
    && d.latest < 0x1000
    && (if rx == Rx(ExitLock) || rx == Rx(ExitSet) then d.token == SENTINEL
        else g.se || rx == Rx(EntryLock) || rx == Rx(EntrySet) ==> d.token == d.latest)
  }

  predicate Noted(g: Shared, rx: Pc, pc: Pc, d: Data) {
    TokenOk(g, rx, d) && HoldsNote(pc)
  }

  /** What a step is seen to do it may do, and the gate is open afterwards as it was seen. */
  predicate Observed(g: Shared, rx: Pc, n: Next) {
    SeenAllowed(n.seen, g.ca) && n.gate.ca == OpenBy(n.seen, g.ca) && Noted(n.gate, rx, n.pc, n.data)
  }

  lemma RxObserved(g: Shared, rx: RxPc, d: Data, c: Choice)
    requires d.Shape() && ThreadOk(g, 0, Rx(rx)) && Noted(g, Rx(rx), Rx(rx), d)
    ensures var n := RxStep(g, rx, d, c); Observed(g, n.pc, n)
  {
    hide HoldsTl;
  }

  lemma UtsObserved(g: Shared, t: nat, uts: UtsPc, id: Id, ret: Ret, d: Data, rx: Pc)
    requires d.Shape() && ThreadOk(g, t, Uts(uts, id, ret)) && Noted(g, rx, Uts(uts, id, ret), d)
    ensures Observed(g, rx, UtsStep(g, t, uts, id, ret, d))
  {
  }

  lemma AckObserved(g: Shared, t: nat, at: AckPc, ret: Ret, d: Data, c: Choice, rx: Pc)
    requires d.Shape() && ThreadOk(g, t, Ack(at, ret)) && ThreadOk(g, 0, rx) && (t == 0 ==> rx == Ack(at, ret))
    requires Noted(g, rx, Ack(at, ret), d)
    ensures var n := AckStep(g, at, ret, d, c, rx == Rx(ExitLock)); Observed(g, if t == 0 then n.pc else rx, n)
  {
  }

  lemma SendObserved(g: Shared, t: nat, send: SendPc, d: Data, c: Choice, rx: Pc)
    requires d.Shape() && ThreadOk(g, t, Send(send)) && Noted(g, rx, Send(send), d)
    ensures Observed(g, rx, SendStep(g, t, send, d, c))
  {
  }

  lemma TxObserved(g: Shared, tx: TxPc, d: Data, c: Choice, rx: Pc)
    requires d.Shape() && ThreadOk(g, 1, Tx(tx)) && Noted(g, rx, Tx(tx), d)
    ensures Observed(g, rx, TxStep(g, tx, d, c))
  {
    if IsRound(tx) {
      TxRoundObserved(g, tx, d, c, rx);
    } else {
      TxPacketObserved(g, tx, d, c, rx);
    }
    hide Observed, TxRound, TxPacket, ThreadOk;
  }

  lemma TxRoundObserved(g: Shared, tx: TxPc, d: Data, c: Choice, rx: Pc)
    requires d.Shape() && IsRound(tx) && Noted(g, rx, Tx(tx), d)
    ensures Observed(g, rx, TxRound(g, tx, d, c))
  {
    hide Probe;
  }

  lemma TxPacketObserved(g: Shared, tx: TxPc, d: Data, c: Choice, rx: Pc)
    requires d.Shape() && !IsRound(tx) && TxRelies(g, tx) && Noted(g, rx, Tx(tx), d)
    ensures Observed(g, rx, TxPacket(g, tx, d, c))
  {
  }

  lemma PcObserved(g: Shared, t: nat, pc: Pc, d: Data, c: Choice, rx: Pc)
    requires d.Shape() && ThreadOk(g, t, pc) && ThreadOk(g, 0, rx) && (t == 0 ==> rx == pc) && Noted(g, rx, pc, d)
    ensures var n := PcStep(g, t, pc, d, c, rx == Rx(ExitLock)); Observed(g, if t == 0 then n.pc else rx, n)
  {
    match pc {
      case Rx(at) => RxObserved(g, at, d, c);
      case Uts(uts, id, ret) => UtsObserved(g, t, uts, id, ret, d, rx);
      case Ack(at, ret) => AckObserved(g, t, at, ret, d, c, rx);
      case Send(send) => SendObserved(g, t, send, d, c, rx);
      case Tx(tx) => TxObserved(g, tx, d, c, rx);
    }
    hide Observed, Noted, Relies, HoldsTal, HoldsTl, RxStep, UtsStep, AckStep, SendStep, TxStep;
  }

  ghost predicate LogMatches(g: Shared, log: seq<Obs>) {
    LogOk(log) && OpenAfter(log) == g.ca
  }

  ghost predicate ObservedInv(s: State) {
    Inv(s) && LogMatches(s.gate, s.log) && TokenOk(s.gate, s.pcs[0], s.data)
    && forall t :: 0 <= t < |s.pcs| ==> HoldsNote(s.pcs[t])
  }

  lemma StepObserved(s: State, a: Action)
    requires ObservedInv(s)
    ensures ObservedInv(Step(s, a))
  {
    StepKeepsInv(s, a);
    if a.Run? && a.thread < |s.pcs| {
      RunObserved(s, a);
    }
    hide Inv, LogMatches, HoldsNote, ProtocolsMay, ThreadStep;
  }

  lemma RunObserved(s: State, a: Action)
    requires ObservedInv(s) && a.Run? && a.thread < |s.pcs| && Inv(Step(s, a))
    ensures ObservedInv(Step(s, a))
  {
    assert ThreadOk(s.gate, 0, s.pcs[0]) && ThreadOk(s.gate, a.thread, s.pcs[a.thread]);
    PcObserved(s.gate, a.thread, s.pcs[a.thread], s.data, a.choice, s.pcs[0]);
    NextObserved(s, a.thread, ThreadStep(s, a.thread, a.choice));
    hide Inv, ThreadOk, PcStep, Observed, LogMatches, HoldsNote, TokenOk;
  }

  lemma NextObserved(s: State, t: nat, n: Next)
    requires ObservedInv(s) && t < |s.pcs| && Observed(s.gate, if t == 0 then n.pc else s.pcs[0], n)
    requires Inv(State(n.gate, s.pcs[t := n.pc], n.data, Record(s.log, n.seen)))
    ensures ObservedInv(State(n.gate, s.pcs[t := n.pc], n.data, Record(s.log, n.seen)))
  {
    RecordOk(s.log, n.seen, s.gate.ca);
    hide Inv, LogOk, OpenAfter, OpenBy, SeenAllowed, Record, HoldsNote, TokenOk;
  }

  lemma {:induction false} RunsObserved(s: State, actions: seq<Action>)
    requires Init(s)
    ensures ObservedInv(After(s, actions))
  {
    if actions == [] {
      InitInv(s);
    } else {
      hide ObservedInv, Step;
      RunsObserved(s, actions[..|actions| - 1]);
      StepObserved(After(s, actions[..|actions| - 1]), actions[|actions| - 1]);
    }
  }

  lemma {:induction false} EachAllowed(log: seq<Obs>, i: nat)
    requires LogOk(log) && i < |log|
    ensures Allowed(log[i], OpenAfter(log[..i]))
  {
    if i < |log| - 1 {
      EachAllowed(log[..|log| - 1], i);
      assert log[..|log| - 1][..i] == log[..i];
    }
  }

  lemma {:induction false} OpenNeedsOpening(log: seq<Obs>, i: nat, j: nat)
    requires i < j <= |log| && log[i].Closed? && OpenAfter(log[..j])
    ensures exists k :: i < k < j && log[k].Opened?
    decreases j
  {
    assert Last(log[..j]) == log[j - 1] && log[..j][..j - 1] == log[..j - 1];
    if !log[j - 1].Opened? {
      OpenNeedsOpening(log, i, j - 1);
    }
  }

  /** No checked WLAN or VIP frame is written between a closing of the gate and the next
      opening, in any run. */
  lemma NoWriteWhileClosed(s: State, actions: seq<Action>, i: nat, j: nat)
    requires Init(s) && i < j < |After(s, actions).log|
    requires After(s, actions).log[i].Closed? && Checked(After(s, actions).log[j])
    ensures exists k :: i < k < j && After(s, actions).log[k].Opened?
  {
    RunsObserved(s, actions);
    var log := After(s, actions).log;
    EachAllowed(log, j);
    OpenNeedsOpening(log, i, j);
  }

  /** Every grant outside of card ready handling is made with the gate open and no
      acknowledgement out, in any run. */
  lemma GrantsWhileOpen(s: State, actions: seq<Action>, i: nat)
    requires Init(s) && i < |After(s, actions).log|
    requires After(s, actions).log[i].Grant? && !After(s, actions).log[i].cardReady
    ensures After(s, actions).log[i].ca && !After(s, actions).log[i].ack
  {
    RunsObserved(s, actions);
    EachAllowed(After(s, actions).log, i);
  }

  /** Every acknowledgement carries the token of the latest entry when it was built, and the
      sentinel if and only if a sleep exit was waiting for the lock. */
  lemma AcksCarryToken(s: State, actions: seq<Action>, i: nat)
    requires Init(s) && i < |After(s, actions).log| && After(s, actions).log[i].AckQueued?
    ensures var note := After(s, actions).log[i].note;
            note.latest < 0x1000 && (note.token == SENTINEL <==> note.exitWaits)
            && (!note.exitWaits <==> note.token == note.latest)
  {
    RunsObserved(s, actions);
    EachAllowed(After(s, actions).log, i);
  }

  // ---------- acknowledgements and entries ----------

  /** A thread that has decided to acknowledge, or handles an entry and may still do so. */
  predicate Owes(pc: Pc) {
    match pc
    case Rx(rx) => rx.EntryScan? || rx.EntryOpen? || rx.EntryClear?
    case Ack(at, _) => at.Alloc? || at.Token? || at.Mark? || at.Put?
    case _ => false
  }

  /** The acknowledgements that the received entries still allow. */
  function Credit(g: Shared, rx: Pc, owes: bool): (n: nat) {
    (if rx == Rx(EntryLock) || rx == Rx(EntrySet) then 1 else 0) + (if owes || (g.se && !g.ack) then 1 else 0)
  }

  predicate CreditOk(g: Shared, rx: Pc, owes: bool, d: Data) {
    d.acks + Credit(g, rx, owes) <= d.entries
  }

  lemma RxCredit(g: Shared, rx: RxPc, d: Data, c: Choice, others: bool)
    requires d.Shape() && ThreadOk(g, 0, Rx(rx)) && (RxHoldsTal(rx) ==> !others)
    requires CreditOk(g, Rx(rx), others || Owes(Rx(rx)), d)
    ensures var n := RxStep(g, rx, d, c); CreditOk(n.gate, n.pc, others || Owes(n.pc), n.data)
  {
  }

  lemma UtsCredit(g: Shared, t: nat, uts: UtsPc, id: Id, ret: Ret, d: Data, rx: Pc, others: bool)
    requires d.Shape() && ThreadOk(g, t, Uts(uts, id, ret)) && CreditOk(g, rx, others, d)
    ensures var n := UtsStep(g, t, uts, id, ret, d); CreditOk(n.gate, rx, others || Owes(n.pc), n.data)
  {
  }

  lemma AckCredit(g: Shared, t: nat, at: AckPc, ret: Ret, d: Data, c: Choice, exitWaits: bool, rx: Pc)
    requires d.Shape() && ThreadOk(g, t, Ack(at, ret)) && CreditOk(g, rx, Owes(Ack(at, ret)), d)
    requires t == 0 ==> rx == Ack(at, ret)
    ensures var n := AckStep(g, at, ret, d, c, exitWaits);
            CreditOk(n.gate, if t == 0 then n.pc else rx, Owes(n.pc), n.data)
  {
  }

  lemma SendCredit(g: Shared, t: nat, send: SendPc, d: Data, c: Choice, rx: Pc, others: bool)
    requires d.Shape() && ThreadOk(g, t, Send(send)) && CreditOk(g, rx, others, d)
    ensures var n := SendStep(g, t, send, d, c); CreditOk(n.gate, rx, others || Owes(n.pc), n.data)
  {
  }

  lemma TxCredit(g: Shared, tx: TxPc, d: Data, c: Choice, rx: Pc, others: bool)
    requires d.Shape() && ThreadOk(g, 1, Tx(tx)) && CreditOk(g, rx, others, d)
    ensures var n := TxStep(g, tx, d, c); CreditOk(n.gate, rx, others || Owes(n.pc), n.data)
  {
    hide Probe;
  }

  lemma PcCredit(g: Shared, t: nat, pc: Pc, d: Data, c: Choice, exitWaits: bool, rx: Pc, others: bool)
    requires d.Shape() && ThreadOk(g, t, pc) && (t == 0 ==> rx == pc) && (HoldsTal(pc) ==> !others)
    requires CreditOk(g, rx, others || Owes(pc), d)
    ensures var n := PcStep(g, t, pc, d, c, exitWaits);
            CreditOk(n.gate, if t == 0 then n.pc else rx, others || Owes(n.pc), n.data)
  {
    match pc {
      case Rx(at) => RxCredit(g, at, d, c, others);
      case Uts(uts, id, ret) => UtsCredit(g, t, uts, id, ret, d, rx, others);
      case Ack(at, ret) => AckCredit(g, t, at, ret, d, c, exitWaits, rx);
      case Send(send) => SendCredit(g, t, send, d, c, rx, others);
      case Tx(tx) => TxCredit(g, tx, d, c, rx, others);
    }
    hide Relies, HoldsTl, CreditOk, RxStep, UtsStep, AckStep, SendStep, TxStep;
  }

  ghost predicate CreditInv(s: State) {
    Inv(s) && CreditOk(s.gate, s.pcs[0], Any(s.pcs, Owes), s.data)
  }

  lemma StepCredit(s: State, a: Action)
    requires CreditInv(s)
    ensures CreditInv(Step(s, a))
  {
    StepKeepsInv(s, a);
    if a.Run? && a.thread < |s.pcs| {
      var t, pc := a.thread, s.pcs[a.thread];
      assert ThreadOk(s.gate, t, pc);
      if HoldsTal(pc) {
        OnlyHolder(s, t, Owes);
      }
      assert s.pcs[t := pc] == s.pcs;
      AnyIsThisOrOther(s.pcs, t, pc, Owes);
      AnyIsThisOrOther(s.pcs, t, ThreadStep(s, t, a.choice).pc, Owes);
      hide Inv, ThreadOk, HoldsTal, PcStep, CreditOk, Any, Other, Owes;
      PcCredit(s.gate, t, pc, s.data, a.choice, s.pcs[0] == Rx(ExitLock), s.pcs[0], Other(s.pcs, t, Owes));
    }
  }

  lemma {:induction false} RunsCredit(s: State, actions: seq<Action>)
    requires Init(s)
    ensures CreditInv(After(s, actions))
  {
    if actions == [] {
      InitInv(s);
    } else {
      hide CreditInv, Step;
      RunsCredit(s, actions[..|actions| - 1]);
      StepCredit(After(s, actions[..|actions| - 1]), actions[|actions| - 1]);
    }
  }

  /** Over any run no more acknowledgements are queued than sleep entries were received. */
  lemma AcksWithinEntries(s: State, actions: seq<Action>)
    requires Init(s)
    ensures After(s, actions).data.acks <= After(s, actions).data.entries
  {
    RunsCredit(s, actions);
    hide After, Inv;
  }
}
