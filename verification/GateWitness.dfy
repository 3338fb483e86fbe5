/** Five runs.  One shows that the sentinel token can leave the host: the condition under which
    GateTokens excludes it cannot be dropped.  In the others the gate closes with no
    acknowledgement queued since the latest sleep entry: behind an ordinary packet, by the flag
    that an earlier one left set, once and a second time; behind the acknowledgement of an earlier
    entry, after an exit; and behind that of an earlier entry, with no exit between, when the
    latest one found no buffer. */
module GateWitness {
  import opened CoexGate
  import opened Protocols

  datatype Path = Path(base: State, run: seq<Action>, now: State) {
    predicate Ok() {
      base.Shape() && now.Shape() && now == After(base, run)
    }
  }

  lemma Goes(p: Path, t: nat, c: Choice) returns (next: Path)
    requires p.Ok() && t < |p.now.pcs|
    ensures Follows(p, next, t, PcStep(p.now.gate, t, p.now.pcs[t], p.now.data, c, p.now.pcs[0] == Rx(ExitLock)))
  {
    hide PcStep;
    next := Path(p.base, p.run + [Run(t, c)], Step(p.now, Run(t, c)));
    assert next.run[..|next.run| - 1] == p.run;
  }

  predicate Follows(p: Path, next: Path, t: nat, n: Next)
    requires t < |p.now.pcs|
  {
    && next.Ok() && next.base == p.base && next.now.gate == n.gate && next.now.data == n.data
    && next.now.pcs == p.now.pcs[t := n.pc] && next.now.log == Record(p.now.log, n.seen)
  }

  lemma RxGoes(p: Path, rx: RxPc) returns (next: Path)
    requires p.Ok() && |p.now.pcs| == 3 && p.now.pcs[0] == Rx(rx)
    ensures Follows(p, next, 0, RxStep(p.now.gate, rx, p.now.data, Go))
  {
    hide RxStep, Path.Ok;
    next := Goes(p, 0, Go);
  }

  lemma TxGoes(p: Path, tx: TxPc) returns (next: Path)
    requires p.Ok() && |p.now.pcs| == 3 && p.now.pcs[1] == Tx(tx) && !IsRound(tx)
    ensures Follows(p, next, 1, TxPacket(p.now.gate, tx, p.now.data, Go))
  {
    hide TxPacket, TxRound, Path.Ok;
    next := Goes(p, 1, Go);
  }

  lemma RoundGoes(p: Path, tx: TxPc) returns (next: Path)
    requires p.Ok() && |p.now.pcs| == 3 && p.now.pcs[1] == Tx(tx) && IsRound(tx)
    ensures Follows(p, next, 1, TxRound(p.now.gate, tx, p.now.data, Go))
  {
    hide TxPacket, TxRound, Path.Ok;
    next := Goes(p, 1, Go);
  }

  lemma AckGoes(p: Path, at: AckPc, ret: Ret) returns (next: Path)
    requires p.Ok() && |p.now.pcs| == 3 && p.now.pcs[0] == Ack(at, ret)
    ensures Follows(p, next, 0, AckStep(p.now.gate, at, ret, p.now.data, Go, false))
  {
    hide AckStep, Path.Ok;
    next := Goes(p, 0, Go);
  }

  lemma SendGoes(p: Path, send: SendPc, c: Choice) returns (next: Path)
    requires p.Ok() && |p.now.pcs| == 3 && p.now.pcs[2] == Send(send)
    ensures Follows(p, next, 2, SendStep(p.now.gate, 2, send, p.now.data, c))
  {
    hide SendStep, Path.Ok;
    next := Goes(p, 2, c);
  }

  const QUIET := Tech(Inserted, false, false, false, false)

  function Start(): (s: State)
    ensures s.Shape()
  {
    State(Shared(false, false, false, FREE, FREE, false), [Rx(RxIdle), Tx(TxWait), Send(Idle)],
          Data(0, [QUIET, QUIET, QUIET], [[], [], [], [], []], false, false, 0, false, 0, 0), [])
  }

  /** An entry is received, but no buffer is to be had for its acknowledgement. */
  lemma EntryWithoutBuffer(p: Path) returns (next: Path)
    requires p.Ok() && p.now == Start()
    ensures next.Ok() && next.base == p.base && next.now.pcs == p.now.pcs
    ensures next.now.gate == Start().gate.(se := true)
    ensures next.now.data == Start().data.(token := 5, latest := 5, entries := 1)
    ensures next.now.log == p.now.log + [Entered, Refused]
  {
    hide Path.Ok, UtsStep, SendStep, TxStep;
    next := Goes(p, 0, NotifyEntry(5));
    next := Goes(next, 0, Go);
    next := Goes(next, 0, Go);
    next := Goes(next, 0, Go);
    next := Goes(next, 0, Go);
    next := Goes(next, 0, Go);
    next := Goes(next, 0, Fail);
    next := Goes(next, 0, Go);
  }

  /** A protocol that is idle finds this, and takes the lock to acknowledge. */
  lemma IdleFindsSleep(p: Path) returns (next: Path)
    requires p.Ok() && p.now.pcs == Start().pcs && p.now.gate == Start().gate.(se := true)
    requires p.now.data.techs == Start().data.techs
    ensures next.Ok() && next.base == p.base && next.now.pcs == p.now.pcs[2 := Uts(UtsScan(0), WLAN, ToIdle)]
    ensures next.now.gate == p.now.gate.(tal := 2) && next.now.data == p.now.data
    ensures next.now.log == p.now.log
  {
    hide Path.Ok, RxStep, TxStep, AckStep;
    next := Goes(p, 2, Update(WLAN));
    next := Goes(next, 2, Go);
    next := Goes(next, 2, Go);
    next := Goes(next, 2, Go);
    next := Goes(next, 2, Go);
  }

  lemma IdleAcknowledges(p: Path) returns (next: Path)
    requires p.Ok() && |p.now.pcs| == 3 && p.now.pcs[2] == Uts(UtsScan(0), WLAN, ToIdle)
    requires p.now.data.techs == Start().data.techs
    ensures next.Ok() && next.base == p.base && next.now.pcs == p.now.pcs[2 := Ack(Token, ToIdle)]
    ensures next.now.gate == p.now.gate && next.now.data == p.now.data && next.now.log == p.now.log
  {
    hide Path.Ok, RxStep, TxStep, SendStep;
    next := Goes(p, 2, Go);
    next := Goes(next, 2, Go);
    next := Goes(next, 2, Go);
    next := Goes(next, 2, Go);
  }

  /** There is a run in which an acknowledgement carries the sentinel. */
  lemma SentinelCanLeave() returns (s: State, run: seq<Action>)
    ensures Init(s)
    ensures var r := After(s, run);
            r.log == [Entered, Refused, AckQueued(Note(SENTINEL, 5, true), 5)] && r.data.queues[COEX_Q] == [true]
  {
    s := Start();
    var p := Path(s, [], s);
    p := EntryWithoutBuffer(p);
    p := IdleFindsSleep(p);
    p := IdleAcknowledges(p);
    hide Path.Ok, UtsStep, SendStep, TxStep;
    p := Goes(p, 0, NotifyExit);
    p := Goes(p, 2, Go);
    p := Goes(p, 2, Go);
    p := Goes(p, 2, Go);
    run := p.run;
    assert p.now == After(s, run) by {
      assert p.Ok();
    }
  }

  // ---------- closings with the flag clear ----------

  const ASKING := Tech(Active, true, false, false, false)

  /** Where a run stands when neither lock is held and the receive thread is idle. */
  datatype Stand = Stand(se: bool, ack: bool, ca: bool, tx: TxPc, first: Tech, coex: seq<bool>, event: bool,
                         stale: bool, entries: nat, acks: nat)

  predicate Stands(p: Path, x: Stand) {
    && p.Ok() && p.now.gate == Shared(x.se, x.ack, x.ca, FREE, FREE, true)
    && p.now.pcs == [Rx(RxIdle), Tx(x.tx), Send(Idle)]
    && p.now.data.techs == [x.first, QUIET, QUIET] && p.now.data.queues == [x.coex, [], [], [], []]
    && p.now.data.event == x.event && p.now.data.stale == x.stale
    && p.now.data.entries == x.entries && p.now.data.acks == x.acks
  }

  lemma CardIsReady(p: Path) returns (next: Path)
    requires p.Ok() && p.now == Start()
    ensures next.base == p.base && Stands(next, Stand(false, false, true, TxWait, QUIET, [], false, false, 0, 0))
  {
    hide Path.Ok, UtsStep, SendStep, TxStep, AckStep;
    next := Goes(p, 0, CardReady(WLAN));
    next := Goes(next, 0, Go);
  }

  lemma EntryUncontested(p: Path) returns (next: Path)
    requires Stands(p, Stand(false, false, true, TxWait, QUIET, [], false, false, 0, 0))
    ensures next.base == p.base && next.Ok() && next.now.gate == p.now.gate.(se := true, tal := 0)
    ensures next.now.pcs == p.now.pcs[0 := Ack(Token, ToRx)]
    ensures next.now.data == p.now.data.(token := 5, latest := 5, entries := 1)
  {
    hide Path.Ok, UtsStep, SendStep, TxStep;
    next := Goes(p, 0, NotifyEntry(5));
    next := Goes(next, 0, Go);
    next := Goes(next, 0, Go);
    next := Goes(next, 0, Go);
    next := Goes(next, 0, Go);
    next := Goes(next, 0, Go);
    next := Goes(next, 0, Go);
  }

  lemma AckQueues(p: Path) returns (next: Path)
    requires p.Ok() && |p.now.pcs| == 3 && p.now.pcs[0] == Ack(Token, ToRx) && p.now.data.queues[COEX_Q] == []
    ensures next.Ok() && next.base == p.base && next.now.gate == p.now.gate.(ack := true)
    ensures next.now.pcs == p.now.pcs[0 := Ack(Release, ToRx)]
    ensures var d := p.now.data;
            next.now.data == d.(queues := d.queues[COEX_Q := [true]], event := true, acks := d.acks + 1)
  {
    var none: seq<bool> := [];
    assert none + [true] == [true];
    hide Path.Ok;
    var note := Note(p.now.data.token, p.now.data.latest, false);
    next := AckGoes(p, Token, ToRx);
    next := AckGoes(next, Mark(note), ToRx);
    next := AckGoes(next, Put(note), ToRx);
    next := AckGoes(next, Wake, ToRx);
  }

  lemma Released(p: Path) returns (next: Path)
    requires p.Ok() && |p.now.pcs| == 3 && p.now.pcs[0] == Ack(Release, ToRx)
    ensures next.Ok() && next.base == p.base && next.now.gate == p.now.gate.(tal := FREE)
    ensures next.now.data == p.now.data && next.now.pcs == p.now.pcs[0 := Rx(RxIdle)] && next.now.log == p.now.log
  {
    hide Path.Ok;
    next := Goes(p, 0, Go);
  }

  /** The first sleep entry is acknowledged: the acknowledgement waits in the coex queue. */
  lemma EntryAcknowledged(p: Path) returns (next: Path)
    requires Stands(p, Stand(false, false, true, TxWait, QUIET, [], false, false, 0, 0))
    ensures next.base == p.base && Stands(next, Stand(true, true, true, TxWait, QUIET, [true], true, false, 1, 1))
  {
    next := EntryUncontested(p);
    hide Path.Ok;
    next := AckQueues(next);
    next := Released(next);
  }

  /** The transmit thread wakes up and takes the acknowledgement from the queue. */
  lemma AckFetched(p: Path, x: Stand) returns (next: Path)
    requires Stands(p, x) && x.tx == TxWait && x.event && x.coex == [true]
    ensures next.base == p.base && Stands(next, x.(tx := TxLock(true), coex := [], event := false, stale := false))
    ensures next.now.log == p.now.log + [Woke, Taken(COEX_Q, true)]
  {
    hide Path.Ok;
    next := RoundGoes(p, TxWait);
    next := RoundGoes(next, TxReset);
    next := CoexProbed(next);
    next := PacketFetched(next);
  }

  lemma FrameFetched(p: Path, x: Stand) returns (next: Path)
    requires Stands(p, x) && x.tx == TxProbe(0) && x.coex == [false]
    ensures next.base == p.base && Stands(next, x.(tx := TxLock(false), coex := []))
    ensures next.now.log == p.now.log + [Taken(COEX_Q, false)]
  {
    hide Path.Ok;
    next := CoexProbed(p);
    next := PacketFetched(next);
  }

  lemma CoexProbed(p: Path) returns (next: Path)
    requires p.Ok() && |p.now.pcs| == 3 && p.now.pcs[1] == Tx(TxProbe(0))
    requires p.now.data.queues[VIP_Q] == [] && p.now.data.queues[COEX_Q] != []
    ensures next.Ok() && next.base == p.base && next.now.gate == p.now.gate && next.now.data == p.now.data
    ensures next.now.pcs == p.now.pcs[1 := Tx(TxDequeue(COEX_Q))] && next.now.log == p.now.log
  {
    hide Path.Ok;
    next := RoundGoes(p, TxProbe(0));
    next := RoundGoes(next, TxProbe(1));
  }

  lemma PacketFetched(p: Path) returns (next: Path)
    requires p.Ok() && |p.now.pcs| == 3 && p.now.pcs[1] == Tx(TxDequeue(COEX_Q)) && |p.now.data.queues[COEX_Q]| == 1
    ensures next.Ok() && next.base == p.base && next.now.gate == p.now.gate
    ensures next.now.pcs == p.now.pcs[1 := Tx(TxLock(p.now.data.queues[COEX_Q][0]))]
    ensures next.now.data == p.now.data.(queues := p.now.data.queues[COEX_Q := []])
    ensures next.now.log == p.now.log + [Taken(COEX_Q, p.now.data.queues[COEX_Q][0])]
  {
    assert p.now.data.queues[COEX_Q][1..] == [];
    hide Path.Ok;
    next := Goes(p, 1, Go);
  }

  /** A packet is sent while the firmware waits to sleep, and the flag is set by it or before:
      the gate closes behind it. */
  lemma PacketClosesGate(p: Path, x: Stand, isAck: bool) returns (next: Path)
    requires Stands(p, x) && x.tx == TxLock(isAck) && x.se && (x.stale || isAck)
    ensures next.base == p.base && Stands(next, x.(ack := true, ca := false, tx := TxProbe(0), stale := true))
    ensures next.now.log == p.now.log + [Sent(isAck, x.stale), Closed(x.ack)]
  {
    hide Path.Ok, UtsStep, SendStep, AckStep, RxStep, TxRound;
    next := PacketSent(p, isAck);
    next := GateShut(next);
    next := LocksReleased(next);
  }

  lemma PacketSent(p: Path, isAck: bool) returns (next: Path)
    requires p.Ok() && |p.now.pcs| == 3 && p.now.pcs[1] == Tx(TxLock(isAck)) && p.now.gate.tl == p.now.gate.tal == FREE
    ensures next.Ok() && next.base == p.base && next.now.gate == p.now.gate.(tl := 1, tal := 1)
    ensures next.now.pcs == p.now.pcs[1 := Tx(TxAsleep)]
    ensures next.now.data == p.now.data.(stale := p.now.data.stale || isAck)
    ensures next.now.log == p.now.log + [Sent(isAck, p.now.data.stale)]
  {
    hide Path.Ok;
    next := TxGoes(p, TxLock(isAck));
    next := TxGoes(next, TxCheck(isAck));
    next := TxGoes(next, TxWrite(isAck));
    next := TxGoes(next, TxTalLock);
  }

  lemma GateShut(p: Path) returns (next: Path)
    requires p.Ok() && |p.now.pcs| == 3 && p.now.pcs[1] == Tx(TxAsleep) && p.now.data.stale && p.now.gate.se
    ensures next.Ok() && next.base == p.base && next.now.gate == p.now.gate.(ack := true, ca := false)
    ensures next.now.pcs == p.now.pcs[1 := Tx(TxTalRelease)] && next.now.data == p.now.data
    ensures next.now.log == p.now.log + [Closed(p.now.gate.ack)]
  {
    hide Path.Ok;
    next := TxGoes(p, TxAsleep);
    next := TxGoes(next, TxMark);
    next := TxGoes(next, TxShut(p.now.gate.ack));
  }

  lemma LocksReleased(p: Path) returns (next: Path)
    requires p.Ok() && |p.now.pcs| == 3 && p.now.pcs[1] == Tx(TxTalRelease)
    ensures next.Ok() && next.base == p.base && next.now.gate == p.now.gate.(tal := FREE, tl := FREE)
    ensures next.now.data == p.now.data && next.now.pcs == p.now.pcs[1 := Tx(TxProbe(0))] && next.now.log == p.now.log
  {
    hide Path.Ok;
    next := TxGoes(p, TxTalRelease);
    next := TxGoes(next, TxUnlock);
  }

  lemma ExitReceived(p: Path, x: Stand) returns (next: Path)
    requires Stands(p, x) && !x.first.Waits()
    ensures next.base == p.base && Stands(next, x.(se := false, ack := false, ca := true))
  {
    hide Path.Ok, UtsStep, SendStep, AckStep, TxStep, Data.WakeUp;
    next := Goes(p, 0, NotifyExit);
    next := Goes(next, 0, Go);
    next := Goes(next, 0, Go);
    next := GateReopened(next);
    next := NobodyWaits(next, false);
  }

  lemma GateReopened(p: Path) returns (next: Path)
    requires p.Ok() && |p.now.pcs| == 3 && p.now.pcs[0] == Rx(ExitOpen)
    ensures next.Ok() && next.base == p.base && next.now.pcs == p.now.pcs[0 := Rx(ExitGrant(0))]
    ensures next.now.gate == p.now.gate.(ca := true, everOpen := true, ack := false, tal := FREE)
    ensures next.now.data == p.now.data
  {
    hide Path.Ok, Data.WakeUp;
    next := RxGoes(p, ExitOpen);
    next := RxGoes(next, ExitClear);
    next := RxGoes(next, ExitRelease);
  }

  /** The grant loop finds nobody who waits. */
  lemma NobodyWaits(p: Path, entry: bool) returns (next: Path)
    requires p.Ok() && |p.now.pcs| == 3 && p.now.pcs[0] == Rx(if entry then EntryGrant(0) else ExitGrant(0))
    requires forall id :: 0 <= id < 3 ==> !p.now.data.techs[id].Waits()
    ensures next.Ok() && next.base == p.base && next.now.gate == p.now.gate && next.now.data == p.now.data
    ensures next.now.pcs == p.now.pcs[0 := if entry then Ack(Release, ToRx) else Rx(RxIdle)]
    ensures next.now.log == p.now.log
  {
    hide Path.Ok, UtsStep, SendStep, AckStep, TxStep;
    next := Goes(p, 0, Go);
    next := Goes(next, 0, Go);
    next := Goes(next, 0, Go);
  }

  lemma WlanAsks(p: Path, x: Stand) returns (next: Path)
    requires Stands(p, x)
    ensures next.base == p.base && Stands(next, x.(first := ASKING)) && next.now.log == p.now.log
  {
    var techs := [ASKING, QUIET, QUIET];
    next := Path(p.base, p.run + [Change(techs)], Step(p.now, Change(techs)));
    assert next.run[..|next.run| - 1] == p.run;
  }

  /** An ordinary frame is queued for the coex queue. */
  lemma FrameQueued(p: Path, x: Stand) returns (next: Path)
    requires Stands(p, x) && x.coex == []
    ensures next.base == p.base && Stands(next, x.(coex := [false], event := true))
    ensures next.now.log == p.now.log + [Queued(COEX_Q, false)]
  {
    next := FrameEnqueued(p);
    hide Path.Ok;
    next := SendGoes(next, SetEvent, Go);
  }

  lemma FrameEnqueued(p: Path) returns (next: Path)
    requires p.Ok() && |p.now.pcs| == 3 && p.now.pcs[2] == Send(Idle) && p.now.data.queues[COEX_Q] == []
    ensures next.Ok() && next.base == p.base && next.now.gate == p.now.gate
    ensures next.now.pcs == p.now.pcs[2 := Send(SetEvent)]
    ensures next.now.data == p.now.data.(queues := p.now.data.queues[COEX_Q := [false]])
    ensures next.now.log == p.now.log + [Queued(COEX_Q, false)]
  {
    var none: seq<bool> := [];
    assert none + [false] == [false];
    hide Path.Ok;
    next := SendGoes(p, Idle, SendQueued(COEX_Q, false));
    next := SendGoes(next, Enqueue(COEX_Q, false), Go);
  }

  lemma SleepMarked(p: Path) returns (next: Path)
    requires p.Ok() && |p.now.pcs| == 3 && p.now.pcs[0] == Rx(EntryLock) && p.now.gate.tal == FREE
    ensures next.Ok() && next.base == p.base && next.now.pcs == p.now.pcs[0 := Rx(EntryScan(0))]
    ensures next.now.gate == p.now.gate.(se := true, tal := 0) && next.now.data == p.now.data
    ensures next.now.log == p.now.log + [Entered]
  {
    hide Path.Ok;
    next := RxGoes(p, EntryLock);
    next := RxGoes(next, EntrySet);
  }

  lemma GateContested(p: Path) returns (next: Path)
    requires p.Ok() && |p.now.pcs| == 3 && p.now.pcs[0] == Rx(EntryScan(0)) && p.now.data.techs[0].Wants()
    ensures next.Ok() && next.base == p.base && next.now.pcs == p.now.pcs[0 := Rx(EntryGrant(0))]
    ensures next.now.gate == p.now.gate.(ca := true, everOpen := true, ack := false) && next.now.data == p.now.data
    ensures next.now.log == p.now.log + [Opened(BySleepEntry)]
  {
    hide Path.Ok;
    next := RxGoes(p, EntryScan(0));
    next := RxGoes(next, EntryOpen);
    next := RxGoes(next, EntryClear);
  }

  /** A sleep entry finds that WLAN wants to transmit: it is not acknowledged. */
  lemma EntryContested(p: Path, x: Stand) returns (next: Path)
    requires Stands(p, x) && x.first == ASKING
    ensures next.base == p.base && Stands(next, x.(se := true, ca := true, ack := false, entries := x.entries + 1))
    ensures next.now.log == p.now.log + [Entered, Opened(BySleepEntry)]
  {
    hide Path.Ok, UtsStep, SendStep, TxStep, AckStep, Data.WakeUp;
    next := Goes(p, 0, NotifyEntry(6));
    next := SleepMarked(next);
    next := GateContested(next);
    next := NobodyWaits(next, true);
    next := Released(next);
  }

  /** A sleep entry finds nobody who wants to transmit, and no buffer. */
  lemma EntryRefused(p: Path, x: Stand) returns (next: Path)
    requires Stands(p, x) && x.first == QUIET
    ensures next.base == p.base && Stands(next, x.(se := true, entries := x.entries + 1))
    ensures next.now.log == p.now.log + [Entered, Refused]
  {
    hide Path.Ok, UtsStep, SendStep, TxStep, AckStep;
    next := Goes(p, 0, NotifyEntry(6));
    next := SleepMarked(next);
    next := NobodyAsks(next);
    next := NoBuffer(next);
    next := Released(next);
  }

  lemma NobodyAsks(p: Path) returns (next: Path)
    requires p.Ok() && |p.now.pcs| == 3 && p.now.pcs[0] == Rx(EntryScan(0))
    requires p.now.data.techs == [QUIET, QUIET, QUIET]
    ensures next.Ok() && next.base == p.base && next.now.gate == p.now.gate && next.now.data == p.now.data
    ensures next.now.pcs == p.now.pcs[0 := Ack(Alloc, ToRx)] && next.now.log == p.now.log
  {
    hide Path.Ok;
    next := RxGoes(p, EntryScan(0));
    next := RxGoes(next, EntryScan(1));
    next := RxGoes(next, EntryScan(2));
  }

  lemma NoBuffer(p: Path) returns (next: Path)
    requires p.Ok() && |p.now.pcs| == 3 && p.now.pcs[0] == Ack(Alloc, ToRx)
    ensures next.Ok() && next.base == p.base && next.now.gate == p.now.gate && next.now.data == p.now.data
    ensures next.now.pcs == p.now.pcs[0 := Ack(Release, ToRx)] && next.now.log == p.now.log + [Refused]
  {
    hide Path.Ok;
    next := Goes(p, 0, Fail);
  }

  /** A run that ends with the gate closed, asleep and marked as acknowledged, with nothing left in
      the queue: of two entries only one was acknowledged, and the observations end with the tail. */
  ghost predicate EndsClosed(s: State, run: seq<Action>, tail: seq<Obs>)
    requires s.Shape()
  {
    var r := After(s, run);
    && r.gate == Shared(true, true, false, FREE, FREE, true)
    && r.data.entries == 2 && r.data.acks == 1 && r.data.queues[COEX_Q] == []
    && |tail| <= |r.log| && r.log[|r.log| - |tail|..] == tail
  }

  /** The first entry is acknowledged, and the acknowledgement waits in the queue. */
  lemma AckWaits() returns (p: Path)
    ensures Init(p.base) && Stands(p, Stand(true, true, true, TxWait, QUIET, [true], true, false, 1, 1))
  {
    p := Path(Start(), [], Start());
    p := CardIsReady(p);
    p := EntryAcknowledged(p);
  }

  /** It is sent, and the gate closes behind it. */
  lemma AckInTime() returns (p: Path)
    ensures Init(p.base) && Stands(p, Stand(true, true, false, TxProbe(0), QUIET, [], false, true, 1, 1))
  {
    hide Stands, Init;
    p := AckWaits();
    p := AckFetched(p, Stand(true, true, true, TxWait, QUIET, [true], true, false, 1, 1));
    p := PacketClosesGate(p, Stand(true, true, true, TxLock(true), QUIET, [], false, false, 1, 1), true);
  }

  const STALE_TAIL := [Entered, Opened(BySleepEntry), Taken(COEX_Q, false), Sent(false, true), Closed(false)]

  /** The latest entry is contested; then an ordinary packet is sent with the flag set by an earlier
      one, the acknowledgement of the first entry, and the gate closes. */
  lemma StaleFlagCloses() returns (p: Path)
    ensures Init(p.base) && Stands(p, Stand(true, true, false, TxProbe(0), ASKING, [], true, true, 2, 1))
    ensures exists log: seq<Obs> :: p.now.log == log + STALE_TAIL
  {
    hide Stands, Init;
    p := AckInTime();
    p := ExitReceived(p, Stand(true, true, false, TxProbe(0), QUIET, [], false, true, 1, 1));
    p := FrameQueued(p, Stand(false, false, true, TxProbe(0), QUIET, [], false, true, 1, 1));
    p := WlanAsks(p, Stand(false, false, true, TxProbe(0), QUIET, [false], true, true, 1, 1));
    ghost var log := p.now.log;
    p := EntryContested(p, Stand(false, false, true, TxProbe(0), ASKING, [false], true, true, 1, 1));
    p := FrameFetched(p, Stand(true, false, true, TxProbe(0), ASKING, [false], true, true, 2, 1));
    p := PacketClosesGate(p, Stand(true, false, true, TxLock(false), ASKING, [], true, true, 2, 1), false);
    assert p.now.log == log + STALE_TAIL;
  }

  lemma StaleFlagClosesGate() returns (s: State, run: seq<Action>)
    ensures Init(s) && EndsClosed(s, run, STALE_TAIL)
  {
    var p := StaleFlagCloses();
    Ends(p, STALE_TAIL, Stand(true, true, false, TxProbe(0), ASKING, [], true, true, 2, 1));
    s, run := p.base, p.run;
  }

  const AGAIN_TAIL := [Queued(COEX_Q, false), Taken(COEX_Q, false), Sent(false, true), Closed(true)]

  /** One more packet, and the gate that is closed already is closed again: the flag is set now, by
      the first closing. */
  lemma SecondClosing() returns (s: State, run: seq<Action>)
    ensures Init(s)
    ensures EndsClosed(s, run, STALE_TAIL + AGAIN_TAIL)
  {
    var p := StaleFlagCloses();
    hide Stands;
    var log: seq<Obs> :| p.now.log == log + STALE_TAIL;
    p := FrameQueued(p, Stand(true, true, false, TxProbe(0), ASKING, [], true, true, 2, 1));
    p := FrameFetched(p, Stand(true, true, false, TxProbe(0), ASKING, [false], true, true, 2, 1));
    p := PacketClosesGate(p, Stand(true, true, false, TxLock(false), ASKING, [], true, true, 2, 1), false);
    assert p.now.log == log + (STALE_TAIL + AGAIN_TAIL);
    Ends(p, STALE_TAIL + AGAIN_TAIL, Stand(true, true, false, TxProbe(0), ASKING, [], true, true, 2, 1));
    s, run := p.base, p.run;
  }

  const LATE_TAIL := [Entered, Opened(BySleepEntry), Woke, Taken(COEX_Q, true), Sent(true, false), Closed(false)]

  /** After an exit and a contested entry the acknowledgement of the entry before is sent, with the
      flag clear before it, and the gate closes. */
  lemma OldAckClosesGate() returns (s: State, run: seq<Action>)
    ensures Init(s) && EndsClosed(s, run, LATE_TAIL)
  {
    hide Stands, Init;
    var p := AckWaits();
    p := ExitReceived(p, Stand(true, true, true, TxWait, QUIET, [true], true, false, 1, 1));
    p := WlanAsks(p, Stand(false, false, true, TxWait, QUIET, [true], true, false, 1, 1));
    ghost var log := p.now.log;
    p := EntryContested(p, Stand(false, false, true, TxWait, ASKING, [true], true, false, 1, 1));
    p := AckFetched(p, Stand(true, false, true, TxWait, ASKING, [true], true, false, 2, 1));
    p := PacketClosesGate(p, Stand(true, false, true, TxLock(true), ASKING, [], false, false, 2, 1), true);
    assert p.now.log == log + LATE_TAIL;
    Ends(p, LATE_TAIL, Stand(true, true, false, TxProbe(0), ASKING, [], false, true, 2, 1));
    s, run := p.base, p.run;
  }

  const REFUSED_TAIL := [Entered, Refused, Woke, Taken(COEX_Q, true), Sent(true, false), Closed(true)]

  /** With no exit between, the second entry finds no buffer: the acknowledgement of the first one
      is out, and the gate closes behind it. */
  lemma RefusedEntryClosesGate() returns (s: State, run: seq<Action>)
    ensures Init(s) && EndsClosed(s, run, REFUSED_TAIL)
  {
    hide Stands, Init;
    var p := AckWaits();
    ghost var log := p.now.log;
    p := EntryRefused(p, Stand(true, true, true, TxWait, QUIET, [true], true, false, 1, 1));
    p := AckFetched(p, Stand(true, true, true, TxWait, QUIET, [true], true, false, 2, 1));
    p := PacketClosesGate(p, Stand(true, true, true, TxLock(true), QUIET, [], false, false, 2, 1), true);
    assert p.now.log == log + REFUSED_TAIL;
    Ends(p, REFUSED_TAIL, Stand(true, true, false, TxProbe(0), QUIET, [], false, true, 2, 1));
    s, run := p.base, p.run;
  }

  lemma Ends(p: Path, tail: seq<Obs>, x: Stand)
    requires Stands(p, x) && x.se && x.ack && !x.ca && x.coex == [] && x.entries == 2 && x.acks == 1
    requires exists log: seq<Obs> :: p.now.log == log + tail
    ensures EndsClosed(p.base, p.run, tail)
  {
  }
}
