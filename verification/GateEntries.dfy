/** When the gate closes for a sleep entry that no acknowledgement followed.  An entry is
    acknowledged, or contested by a protocol that wants to transmit, or finds no buffer; the gate
    can close after each of the three. */
module GateEntries {
  import opened CoexGate
  import opened GateClosings
  import opened GateInvariant
  import opened GateRuns
  import opened Protocols

  // ---------- the answers to the latest entry as they can be observed ----------

  /** What the latest answer was: Awake means that there was no entry since the last exit, and
      Asked that the latest one is not answered yet. */
  datatype Answer = Awake | Asked | Acked | Contested | Unbuffered

  function AnswerBy(seen: Seen, answer: Answer): (r: Answer) {
    match seen
    case Saw(Entered) => Asked
    case Saw(Refused) => Unbuffered
    case Saw(AckQueued(_, _)) => Acked
    case Saw(Opened(BySleepEntry)) => Contested
    case Saw(Opened(BySleepExit)) => Awake
    case _ => answer
  }

  ghost function AnswerAfter(log: seq<Obs>): (r: Answer) {
    if log == [] then Awake else AnswerBy(Saw(Last(log)), AnswerAfter(log[..|log| - 1]))
  }

  /** Only an entry that is not answered yet is contested or refused, only a sleeping firmware
      gets an acknowledgement, and the gate closes only after an answer. */
  predicate Fitting(o: Obs, answer: Answer) {
    match o
    case Refused => answer.Asked?
    case Opened(opener) => opener.BySleepEntry? ==> answer.Asked?
    case AckQueued(_, _) => !answer.Awake?
    case Closed(_) => !answer.Awake? && !answer.Asked?
    case _ => true
  }

  ghost predicate AllFitting(log: seq<Obs>) {
    log == [] || (AllFitting(log[..|log| - 1]) && Fitting(Last(log), AnswerAfter(log[..|log| - 1])))
  }

  lemma RecordAnswers(log: seq<Obs>, seen: Seen)
    requires AllFitting(log) && (seen.Saw? ==> Fitting(seen.obs, AnswerAfter(log)))
    ensures AllFitting(Record(log, seen)) && AnswerAfter(Record(log, seen)) == AnswerBy(seen, AnswerAfter(log))
  {
    if seen.Saw? {
      var all := log + [seen.obs];
      assert all[..|all| - 1] == log;
    }
  }

  // ---------- every run ----------

  /** The receive thread is between the entry and its answer. */
  predicate Answering(pc: Pc) {
    match pc
    case Rx(rx) => rx.EntryScan? || rx.EntryOpen?
    case Ack(at, ret) => ret.ToRx? && (at.Alloc? || at.Token? || at.Mark? || at.Put?)
    case _ => false
  }

  predicate Fits(g: Shared, rx: Pc, answer: Answer) {
    (answer.Asked? <==> Answering(rx)) && (g.se ==> !answer.Awake?)
  }

  predicate KeepsFitting(n: Next, rx: Pc, answer: Answer) {
    (n.seen.Saw? ==> Fitting(n.seen.obs, answer)) && Fits(n.gate, rx, AnswerBy(n.seen, answer))
  }

  lemma RxFits(g: Shared, rx: RxPc, d: Data, c: Choice, answer: Answer)
    requires d.Shape() && ThreadOk(g, 0, Rx(rx)) && Fits(g, Rx(rx), answer)
    ensures var n := RxStep(g, rx, d, c); KeepsFitting(n, n.pc, answer)
  {
    hide Data.WakeUp, Tech.Wants, Tech.Waits;
  }

  lemma UtsFits(g: Shared, t: nat, uts: UtsPc, id: Id, ret: Ret, d: Data, rx: Pc, answer: Answer)
    requires d.Shape() && Fits(g, rx, answer)
    ensures KeepsFitting(UtsStep(g, t, uts, id, ret, d), rx, answer)
  {
  }

  lemma AckFits(g: Shared, t: nat, at: AckPc, ret: Ret, d: Data, c: Choice, exitWaits: bool, rx: Pc, answer: Answer)
    requires d.Shape() && ThreadOk(g, t, Ack(at, ret)) && ThreadOk(g, 0, rx) && (t == 0 ==> rx == Ack(at, ret))
    requires Fits(g, rx, answer)
    ensures var n := AckStep(g, at, ret, d, c, exitWaits); KeepsFitting(n, if t == 0 then n.pc else rx, answer)
  {
  }

  lemma SendFits(g: Shared, t: nat, send: SendPc, d: Data, c: Choice, rx: Pc, answer: Answer)
    requires d.Shape() && Fits(g, rx, answer)
    ensures KeepsFitting(SendStep(g, t, send, d, c), rx, answer)
  {
  }

  lemma TxRoundFits(g: Shared, tx: TxPc, d: Data, c: Choice, rx: Pc, answer: Answer)
    requires d.Shape() && Fits(g, rx, answer)
    ensures KeepsFitting(TxRound(g, tx, d, c), rx, answer)
  {
    hide Probe;
  }

  lemma TxPacketFits(g: Shared, tx: TxPc, d: Data, c: Choice, rx: Pc, answer: Answer)
    requires d.Shape() && ThreadOk(g, 1, Tx(tx)) && ThreadOk(g, 0, rx) && Fits(g, rx, answer)
    ensures KeepsFitting(TxPacket(g, tx, d, c), rx, answer)
  {
  }

  lemma PcFits(g: Shared, t: nat, pc: Pc, d: Data, c: Choice, exitWaits: bool, rx: Pc, answer: Answer)
    requires d.Shape() && ThreadOk(g, t, pc) && ThreadOk(g, 0, rx) && (t == 0 ==> rx == pc) && Fits(g, rx, answer)
    ensures var n := PcStep(g, t, pc, d, c, exitWaits); KeepsFitting(n, if t == 0 then n.pc else rx, answer)
  {
    match pc {
      case Rx(at) => RxFits(g, at, d, c, answer);
      case Uts(uts, id, ret) => UtsFits(g, t, uts, id, ret, d, rx, answer);
      case Ack(at, ret) => AckFits(g, t, at, ret, d, c, exitWaits, rx, answer);
      case Send(send) => SendFits(g, t, send, d, c, rx, answer);
      case Tx(tx) =>
        TxRoundFits(g, tx, d, c, rx, answer);
        TxPacketFits(g, tx, d, c, rx, answer);
    }
    hide KeepsFitting, Fits, Relies, HoldsTal, HoldsTl, RxStep, UtsStep, AckStep, SendStep, TxRound, TxPacket;
  }

  ghost predicate AnswerInv(s: State) {
    Inv(s) && AllFitting(s.log) && Fits(s.gate, s.pcs[0], AnswerAfter(s.log))
  }

  lemma StepAnswers(s: State, a: Action)
    requires AnswerInv(s)
    ensures AnswerInv(Step(s, a))
  {
    StepKeepsInv(s, a);
    if a.Run? && a.thread < |s.pcs| {
      assert ThreadOk(s.gate, 0, s.pcs[0]) && ThreadOk(s.gate, a.thread, s.pcs[a.thread]);
      PcFits(s.gate, a.thread, s.pcs[a.thread], s.data, a.choice, s.pcs[0] == Rx(ExitLock), s.pcs[0],
             AnswerAfter(s.log));
      RecordAnswers(s.log, ThreadStep(s, a.thread, a.choice).seen);
    }
    hide Inv, ThreadOk, PcStep, AllFitting, AnswerAfter, AnswerBy, Fitting, Fits, Record, ProtocolsMay;
  }

  lemma {:induction false} RunsAnswer(s: State, actions: seq<Action>)
    requires Init(s)
    ensures AnswerInv(After(s, actions))
  {
    if actions == [] {
      InitInv(s);
    } else {
      hide AnswerInv, Step;
      RunsAnswer(s, actions[..|actions| - 1]);
      StepAnswers(After(s, actions[..|actions| - 1]), actions[|actions| - 1]);
    }
  }

  // ---------- what the answer means of the observations ----------

  predicate Moves(o: Obs) {
    o.Entered? || o.Refused? || o.AckQueued? || Reopens(o)
  }

  ghost predicate Still(log: seq<Obs>, from: nat, to: nat)
    requires to <= |log|
  {
    forall k :: from <= k < to ==> !Moves(log[k])
  }

  /** The k-th observation is the last before i that changes the answer. */
  ghost predicate LastMove(log: seq<Obs>, k: nat, i: nat)
    requires i <= |log|
  {
    k < i && Moves(log[k]) && Still(log, k + 1, i)
  }

  /** The k-th observation is the one and only answer to the entry that it follows, so far. */
  ghost predicate OnlyAnswer(log: seq<Obs>, e: nat, k: nat, i: nat)
    requires i <= |log|
  {
    LastMove(log, k, i) && LastMove(log, e, k) && log[e].Entered?
  }

  ghost predicate Means(log: seq<Obs>, i: nat, answer: Answer)
    requires i <= |log|
  {
    match answer
    case Awake => true
    case Asked => exists e: nat :: LastMove(log, e, i) && log[e].Entered?
    case Acked => HasEntry(log, i) && exists k: nat :: LastMove(log, k, i) && log[k].AckQueued?
    case Contested => exists e: nat, k: nat :: OnlyAnswer(log, e, k, i) && log[k] == Opened(BySleepEntry)
    case Unbuffered => exists e: nat, k: nat :: OnlyAnswer(log, e, k, i) && log[k].Refused?
  }

  ghost predicate HasEntry(log: seq<Obs>, i: nat)
    requires i <= |log|
  {
    exists e: nat :: e < i && log[e].Entered?
  }

  lemma MeansStays(log: seq<Obs>, i: nat, answer: Answer)
    requires i < |log| && Means(log, i, answer) && !Moves(log[i])
    ensures Means(log, i + 1, answer)
  {
    match answer {
      case Awake =>
      case Asked =>
        var e: nat :| LastMove(log, e, i) && log[e].Entered?;
        assert LastMove(log, e, i + 1);
      case Acked =>
        var k: nat :| LastMove(log, k, i) && log[k].AckQueued?;
        assert LastMove(log, k, i + 1);
      case Contested =>
        var e: nat, k: nat :| OnlyAnswer(log, e, k, i) && log[k] == Opened(BySleepEntry);
        assert OnlyAnswer(log, e, k, i + 1);
      case Unbuffered =>
        var e: nat, k: nat :| OnlyAnswer(log, e, k, i) && log[k].Refused?;
        assert OnlyAnswer(log, e, k, i + 1);
    }
  }

  lemma MeansNext(log: seq<Obs>, i: nat, answer: Answer)
    requires i < |log| && Means(log, i, answer) && Fitting(log[i], answer)
    ensures Means(log, i + 1, AnswerBy(Saw(log[i]), answer))
  {
    if !Moves(log[i]) {
      MeansStays(log, i, answer);
    } else {
      assert LastMove(log, i, i + 1);
      if answer.Asked? {
        var e: nat :| LastMove(log, e, i) && log[e].Entered?;
        assert OnlyAnswer(log, e, i, i + 1);
      }
      if log[i].AckQueued? {
        MeansEntry(log, i, answer);
      }
    }
  }

  lemma MeansEntry(log: seq<Obs>, i: nat, answer: Answer)
    requires i <= |log| && Means(log, i, answer) && !answer.Awake?
    ensures HasEntry(log, i)
  {
  }

  lemma {:induction false} AnswerMeans(log: seq<Obs>, i: nat)
    requires AllFitting(log) && i <= |log|
    ensures Means(log, i, AnswerAfter(log[..i]))
    ensures i < |log| ==> Fitting(log[i], AnswerAfter(log[..i]))
  {
    EachFits(log, i);
    if i > 0 {
      assert log[..i][..i - 1] == log[..i - 1] && Last(log[..i]) == log[i - 1];
      AnswerMeans(log, i - 1);
      MeansNext(log, i - 1, AnswerAfter(log[..i - 1]));
    }
  }

  lemma {:induction false} EachFits(log: seq<Obs>, i: nat)
    requires AllFitting(log)
    ensures i < |log| ==> Fitting(log[i], AnswerAfter(log[..i]))
  {
    if i < |log| - 1 {
      EachFits(log[..|log| - 1], i);
      assert log[..|log| - 1][..i] == log[..i];
    }
  }

  // ---------- closings for an entry without an acknowledgement ----------

  /** No acknowledgement was queued since the latest entry. */
  ghost predicate Unacknowledged(log: seq<Obs>, i: nat)
    requires i <= |log|
  {
    exists e: nat :: e < i && log[e].Entered? && Neither(log, e + 1, i)
  }

  /** There is no entry and no acknowledgement among these. */
  ghost predicate Neither(log: seq<Obs>, from: nat, to: nat)
    requires to <= |log|
  {
    forall k :: from <= k < to ==> !log[k].Entered? && !log[k].AckQueued?
  }

  /** The latest entry found no buffer, and no acknowledgement was queued after it. */
  ghost predicate FoundNoBuffer(log: seq<Obs>, i: nat)
    requires i <= |log|
  {
    exists r: nat :: r < i && log[r].Refused? && Neither(log, r + 1, i)
  }

  /** The gate was closed before for the same entry, and had no acknowledgement then either. */
  ghost predicate ClosedBefore(log: seq<Obs>, i: nat)
    requires i <= |log|
  {
    exists j: nat :: j < i && log[j].Closed? && Unacknowledged(log, j) && Neither(log, j, i)
  }

  /** The last answer to an entry was not an acknowledgement. */
  ghost predicate LastDenied(log: seq<Obs>, i: nat)
    requires i <= |log|
  {
    exists r: nat :: r < i && Denies(log[r]) && forall k :: r < k < i ==> !Denies(log[k]) && !log[k].AckQueued?
  }

  predicate Denies(o: Obs) {
    o.Refused? || o == Opened(BySleepEntry)
  }

  /** After an acknowledgement none of the conditions holds. */
  lemma AckedMeans(log: seq<Obs>, i: nat, k: nat)
    requires i <= |log| && LastMove(log, k, i) && log[k].AckQueued?
    ensures !Unacknowledged(log, i) && !FoundNoBuffer(log, i) && !LastDenied(log, i)
    ensures !FlagClear(log, i) && !ClosedBefore(log, i)
  {
    forall j: nat | j < i && Neither(log, j, i)
      ensures j > k
    {
    }
    forall j: nat | k < j < i
      ensures !Unacknowledged(log, j)
    {
    }
    forall j: nat | j < i && Reopens(log[j]) && Undecided(log, j + 1, i)
      ensures false
    {
      assert j <= k;
      assert j < k ==> Decides(log[k]);
    }
    assert Decides(log[k]);
  }

  /** After another answer one of them holds at least. */
  lemma DeniedMeans(log: seq<Obs>, i: nat, e: nat, r: nat)
    requires i <= |log| && OnlyAnswer(log, e, r, i) && Denies(log[r])
    ensures Unacknowledged(log, i) && LastDenied(log, i)
    ensures FlagClear(log, i) || FoundNoBuffer(log, i) || ClosedBefore(log, i)
  {
    assert Neither(log, e + 1, i);
    if log[r].Refused? {
      assert Neither(log, r + 1, i);
    } else if j: nat :| r < j < i && log[j].Closed? {
      assert Neither(log, e + 1, j) && Neither(log, j, i);
      assert Unacknowledged(log, j);
    } else {
      assert Reopens(log[r]) && Undecided(log, r + 1, i);
    }
  }

  /** Over every run: at a closing of the gate no acknowledgement was queued since the latest
      entry if and only if the acknowledgement flag was clear, or that entry found no buffer and
      none was queued after it, or the gate had been closed for that entry before. */
  lemma ClosedUnacknowledgedExactly(s: State, actions: seq<Action>, i: nat)
    requires Init(s) && i < |After(s, actions).log| && After(s, actions).log[i].Closed?
    ensures var log := After(s, actions).log;
            && HasEntry(log, i)
            && (Unacknowledged(log, i) <==> !log[i].acked || FoundNoBuffer(log, i) || ClosedBefore(log, i))
            && (Unacknowledged(log, i) <==> LastDenied(log, i))
  {
    RunsAnswer(s, actions);
    ClosedWithFlagClearExactly(s, actions, i);
    hide After, Inv;
    var log := After(s, actions).log;
    AnswerMeans(log, i);
    hide Unacknowledged, FoundNoBuffer, ClosedBefore, LastDenied, FlagClear;
    MeansEntry(log, i, AnswerAfter(log[..i]));
    if AnswerAfter(log[..i]).Acked? {
      var k: nat :| LastMove(log, k, i) && log[k].AckQueued?;
      AckedMeans(log, i, k);
    } else {
      var e: nat, r: nat :| OnlyAnswer(log, e, r, i) && Denies(log[r]);
      DeniedMeans(log, i, e, r);
    }
  }
}
