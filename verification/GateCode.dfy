/** The functions of the power manager as they are written, each when nothing comes between its
    statements: it takes exactly steps of the gate's machine. */
module GateCode {
  import opened Bytes
  import opened CoexGate
  import opened Protocols

  // ---------- a thread that runs alone ----------

  ghost predicate Alone(t: nat, run: seq<Action>) {
    forall i :: 0 <= i < |run| ==> run[i].Run? && run[i].thread == t
  }

  /** A run of one thread from a state of the machine, and the state that it leads to. */
  datatype Trace = Trace(base: State, run: seq<Action>, now: State) {
    /** The thread has come to pc. */
    ghost predicate At(t: nat, pc: Pc) {
      && base.Shape() && now == After(base, run) && Alone(t, run)
      && t < |now.pcs| && now.pcs[t] == pc
    }
  }

  lemma Start(base: State, t: nat) returns (tr: Trace)
    requires base.Shape() && t < |base.pcs|
    ensures tr.base == tr.now == base && tr.At(t, base.pcs[t])
  {
    tr := Trace(base, [], base);
  }

  predicate Follows(tr: Trace, next: Trace, n: Next) {
    && next.base == tr.base && next.now.gate == n.gate && next.now.data == n.data && next.now.Shape()
    && next.now.log == Record(tr.now.log, n.seen)
  }

  lemma Moves(tr: Trace, t: nat, pc: Pc, c: Choice) returns (next: Trace)
    requires tr.now.Shape() && tr.At(t, pc)
    ensures var n := PcStep(tr.now.gate, t, pc, tr.now.data, c, tr.now.pcs[0] == Rx(ExitLock));
            Follows(tr, next, n) && next.At(t, n.pc)
  {
    hide PcStep;
    next := Trace(tr.base, tr.run + [Run(t, c)], Step(tr.now, Run(t, c)));
    assert next.run[..|next.run| - 1] == tr.run;
  }

  lemma RxMoves(tr: Trace, rx: RxPc) returns (next: Trace)
    requires tr.now.Shape() && tr.At(0, Rx(rx))
    ensures var n := RxStep(tr.now.gate, rx, tr.now.data, Go); Follows(tr, next, n) && next.At(0, n.pc)
  {
    hide RxStep, Trace.At, Follows;
    next := Moves(tr, 0, Rx(rx), Go);
  }

  lemma RxStarts(tr: Trace, c: Choice) returns (next: Trace)
    requires tr.now.Shape() && tr.At(0, Rx(RxIdle))
    ensures var n := RxStart(tr.now.gate, tr.now.data, c); Follows(tr, next, n) && next.At(0, n.pc)
  {
    hide RxStart, Trace.At, Follows;
    next := Moves(tr, 0, Rx(RxIdle), c);
  }

  lemma SendMoves(tr: Trace, t: nat, send: SendPc, c: Choice) returns (next: Trace)
    requires tr.now.Shape() && tr.At(t, Send(send))
    ensures var n := SendStep(tr.now.gate, t, send, tr.now.data, c); Follows(tr, next, n) && next.At(t, n.pc)
  {
    hide SendStep, Trace.At, Follows;
    next := Moves(tr, t, Send(send), c);
  }

  lemma UtsMoves(tr: Trace, t: nat, uts: UtsPc, id: Id, ret: Ret) returns (next: Trace)
    requires tr.now.Shape() && tr.At(t, Uts(uts, id, ret))
    ensures var n := UtsStep(tr.now.gate, t, uts, id, ret, tr.now.data); Follows(tr, next, n) && next.At(t, n.pc)
  {
    hide UtsStep, Trace.At, Follows;
    next := Moves(tr, t, Uts(uts, id, ret), Go);
  }

  lemma RoundMoves(tr: Trace, tx: TxPc, c: Choice) returns (next: Trace)
    requires tr.now.Shape() && tr.At(1, Tx(tx)) && IsRound(tx)
    ensures var n := TxRound(tr.now.gate, tx, tr.now.data, c); Follows(tr, next, n) && next.At(1, n.pc)
  {
    hide TxRound, TxPacket, Trace.At, Follows;
    next := Moves(tr, 1, Tx(tx), c);
  }

  lemma PacketMoves(tr: Trace, tx: TxPc, c: Choice) returns (next: Trace)
    requires tr.now.Shape() && tr.At(1, Tx(tx)) && !IsRound(tx)
    ensures var n := TxPacket(tr.now.gate, tx, tr.now.data, c); Follows(tr, next, n) && next.At(1, n.pc)
  {
    hide TxRound, TxPacket, Trace.At, Follows;
    next := Moves(tr, 1, Tx(tx), c);
  }

  lemma AckMoves(tr: Trace, t: nat, at: AckPc, ret: Ret, c: Choice) returns (next: Trace)
    requires tr.now.Shape() && tr.At(t, Ack(at, ret))
    ensures var n := AckStep(tr.now.gate, at, ret, tr.now.data, c, tr.now.pcs[0] == Rx(ExitLock));
            Follows(tr, next, n) && next.At(t, n.pc)
  {
    hide AckStep, Trace.At, Follows;
    next := Moves(tr, t, Ack(at, ret), c);
  }

  predicate Wanted(techs: seq<Tech>)
    requires |techs| == 3
  {
    techs[0].Wants() || techs[1].Wants() || techs[2].Wants()
  }

  /** The techs after the first n rounds of the loop that grants access. */
  ghost predicate Granted(before: seq<Tech>, after: seq<Tech>, n: nat) {
    |before| == |after| == 3
    && forall id :: 0 <= id < 3 ==> 
          after[id] == if id < n && before[id].deregisterFlag && before[id].drv.Active?
                       then before[id].(access := true, deregisterFlag := false) else before[id]
  }

  // ---------- the order of packets ----------

  /** A packet of a soft queue, of which it is known whether it is a sleep acknowledgement. */
  datatype Packet = Packet(q: Queue, isAck: bool)

  function Tagged(q: Queue, s: seq<bool>): (p: seq<Packet>) {
    if s == [] then [] else [Packet(q, s[0])] + Tagged(q, s[1..])
  }

  /** All the packets, queue by queue in the order in which the queues are probed, from the k-th
      on. */
  function InOrder(queues: seq<seq<bool>>, k: nat): (p: seq<Packet>)
    requires |queues| == 5 && k <= 5
    decreases 5 - k
  {
    if k == 5 then [] else Tagged(Probed(k), queues[Probed(k)]) + InOrder(queues, k + 1)
  }

  /** The packets that are not refused. */
  function Kept(packets: seq<Packet>, refuses: Packet -> bool): (p: seq<Packet>) {
    if packets == [] then []
    else (if refuses(packets[0]) then [] else [packets[0]]) + Kept(packets[1..], refuses)
  }

  /** The order, and that nothing is added, lost or changed in it. */
  lemma InOrderIs(queues: seq<seq<bool>>)
    requires |queues| == 5
    ensures InOrder(queues, 0)
            == Tagged(VIP_Q, queues[VIP_Q])
               + (Tagged(COEX_Q, queues[COEX_Q])
                  + (Tagged(BT_Q, queues[BT_Q]) + (Tagged(ZIGB_Q, queues[ZIGB_Q]) + Tagged(WLAN_Q, queues[WLAN_Q]))))
  {
    hide Tagged;
    assert InOrder(queues, 4) == Tagged(WLAN_Q, queues[WLAN_Q]) + [] == Tagged(WLAN_Q, queues[WLAN_Q]);
    assert InOrder(queues, 3) == Tagged(ZIGB_Q, queues[ZIGB_Q]) + InOrder(queues, 4);
    assert InOrder(queues, 2) == Tagged(BT_Q, queues[BT_Q]) + InOrder(queues, 3);
    assert InOrder(queues, 1) == Tagged(COEX_Q, queues[COEX_Q]) + InOrder(queues, 2);
  }

  lemma {:induction false} TaggedEach(q: Queue, s: seq<bool>)
    ensures |Tagged(q, s)| == |s| && forall i :: 0 <= i < |s| ==> Tagged(q, s)[i] == Packet(q, s[i])
  {
    if s != [] {
      TaggedEach(q, s[1..]);
    }
  }

  /** A packet is kept exactly if it is not refused, and packets keep their order. */
  lemma {:induction false} KeptInOrder(before: seq<Packet>, p: Packet, after: seq<Packet>, refuses: Packet -> bool)
    ensures Kept(before + [p] + after, refuses)
            == Kept(before, refuses) + (if refuses(p) then [] else [p]) + Kept(after, refuses)
  {
    var all := before + [p] + after;
    if before == [] {
      assert all[0] == p && all[1..] == after;
    } else {
      var first := if refuses(before[0]) then [] else [before[0]];
      assert all[0] == before[0] && all[1..] == before[1..] + [p] + after;
      assert Kept(all, refuses) == first + Kept(before[1..] + [p] + after, refuses);
      assert Kept(before, refuses) == first + Kept(before[1..], refuses);
      hide Kept;
      KeptInOrder(before[1..], p, after, refuses);
      InFront(first, Kept(before[1..], refuses), if refuses(p) then [] else [p], Kept(after, refuses));
    }
  }

  lemma InFront(a: seq<Packet>, b: seq<Packet>, c: seq<Packet>, d: seq<Packet>)
    ensures a + (b + c + d) == a + b + c + d
  {
  }

  lemma {:induction false} OtherQueues(queues: seq<seq<bool>>, q: Queue, s: seq<bool>, k: nat)
    requires |queues| == 5 && Rank(q) < k <= 5
    ensures InOrder(queues[q := s], k) == InOrder(queues, k)
    decreases 5 - k
  {
    if k < 5 {
      assert Rank(Probed(k)) == k;
      OtherQueues(queues, q, s, k + 1);
    }
  }

  /** The first packet of the first queue that is not empty comes first. */
  lemma {:induction false} FirstInOrder(queues: seq<seq<bool>>, q: Queue, k: nat)
    requires |queues| == 5 && queues[q] != [] && k <= Rank(q)
    requires forall j :: k <= j < Rank(q) ==> queues[Probed(j)] == []
    ensures InOrder(queues, k) == [Packet(q, queues[q][0])] + InOrder(queues[q := queues[q][1..]], k)
    decreases 5 - k
  {
    if k == Rank(q) {
      FirstOfQueue(queues, q);
    } else {
      FirstInOrder(queues, q, k + 1);
      EmptyQueue(queues, k);
      OneRank(k);
      EmptyQueue(queues[q := queues[q][1..]], k);
      hide Rank, Probed, InOrder, Tagged;
    }
  }

  lemma OneRank(k: nat)
    requires k < 5
    ensures Rank(Probed(k)) == k
  {
  }

  lemma EmptyQueue(queues: seq<seq<bool>>, k: nat)
    requires |queues| == 5 && k < 5
    ensures queues[Probed(k)] == [] ==> InOrder(queues, k) == InOrder(queues, k + 1)
  {
    hide Rank, Probed;
  }

  lemma FirstOfQueue(queues: seq<seq<bool>>, q: Queue)
    requires |queues| == 5 && queues[q] != []
    ensures InOrder(queues, Rank(q))
            == [Packet(q, queues[q][0])] + InOrder(queues[q := queues[q][1..]], Rank(q))
  {
    var rest, k := queues[q := queues[q][1..]], Rank(q);
    hide Rank, Probed, InOrder, Tagged;
    OtherQueues(queues, q, queues[q][1..], k + 1);
    FromQueue(queues, q);
    FromQueue(rest, q);
    TaggedAndMore(q, queues[q], InOrder(rest, k + 1));
  }

  lemma TaggedAndMore(q: Queue, s: seq<bool>, more: seq<Packet>)
    requires s != []
    ensures Tagged(q, s) + more == [Packet(q, s[0])] + (Tagged(q, s[1..]) + more)
  {
  }

  lemma FromQueue(queues: seq<seq<bool>>, q: Queue)
    requires |queues| == 5
    ensures InOrder(queues, Rank(q)) == Tagged(q, queues[q]) + InOrder(queues, Rank(q) + 1)
  {
    hide Tagged;
  }

  lemma FirstKept(queues: seq<seq<bool>>, q: Queue, refuses: Packet -> bool)
    requires |queues| == 5 && queues[q] != [] && forall j :: 0 <= j < Rank(q) ==> queues[Probed(j)] == []
    ensures var first := Packet(q, queues[q][0]);
            Kept(InOrder(queues, 0), refuses)
            == (if refuses(first) then [] else [first]) + Kept(InOrder(queues[q := queues[q][1..]], 0), refuses)
  {
    FirstInOrder(queues, q, 0);
    hide InOrder, Rank, Probed;
    var all, rest := InOrder(queues, 0), InOrder(queues[q := queues[q][1..]], 0);
    assert all[0] == Packet(q, queues[q][0]) && all[1..] == rest;
  }

  lemma NoneKept(queues: seq<seq<bool>>, refuses: Packet -> bool)
    requires Drained(queues, false)
    ensures Kept(InOrder(queues, 0), refuses) == []
  {
  }

  // ---------- the code ----------

  class Assets {
    var se: bool
    var ack: bool
    var ca: bool
    var token: nat
    var techs: seq<Tech>
    var queues: seq<seq<bool>>
    var event: bool
    ghost var written: seq<Packet>   // the packets handed to the bus

    /** These fields are those of the state of the machine. */
    ghost predicate Is(s: State)
      reads this
    {
      && s.Shape() && s.gate.se == se && s.gate.ack == ack && s.gate.ca == ca && s.data.token == token
      && s.data.techs == techs && s.data.queues == queues && s.data.event == event
    }

    /** protocol_tx_access. */
    method ProtocolTxAccess() returns (wanted: bool)
      requires |techs| == 3
      ensures wanted == Wanted(techs)
      ensures wanted <==> exists id: nat :: id < 3 && techs[id].drv.Active? && techs[id].intention
    {
      var ii := 0;
      while ii < 3
        invariant 0 <= ii <= 3 && forall id :: 0 <= id < ii ==> !techs[id].Wants()
      {
        if techs[ii].drv == Active && techs[ii].intention {
          return true;
        }
        ii := ii + 1;
      }
      return false;
    }

    /** send_ulp_sleep_ack, called with the lock held. */
    method SendUlpSleepAck(hasBuffer: bool, ghost t: nat, ghost ret: Ret, ghost tr: Trace) returns (ghost next: Trace)
      requires Is(tr.now) && tr.At(t, Ack(Alloc, ret))
      modifies this`ack, this`queues, this`event
      ensures Is(next.now) && next.At(t, Ack(Release, ret)) && next.base == tr.base
      ensures next.now.gate.tal == tr.now.gate.tal && next.now.gate.tl == tr.now.gate.tl
      ensures next.now.data.stale == tr.now.data.stale && next.now.data.timedOut == tr.now.data.timedOut
      ensures hasBuffer ==> ack && event && queues == old(queues)[COEX_Q := old(queues[COEX_Q]) + [true]]
      ensures !hasBuffer ==> ack == old(ack) && event == old(event) && queues == old(queues)
    {
      hide Trace.At;
      next := AckMoves(tr, t, Alloc, ret, if hasBuffer then Go else Fail);
      if !hasBuffer {
        return;
      }
      ghost var note := Note(token, next.now.data.latest, next.now.pcs[0] == Rx(ExitLock));
      next := AckMoves(next, t, Token, ret, Go);
      ack := true;
      next := AckMoves(next, t, Mark(note), ret, Go);
      queues := queues[COEX_Q := queues[COEX_Q] + [true]];
      next := AckMoves(next, t, Put(note), ret, Go);
      event := true;
      next := AckMoves(next, t, Wake, ret, Go);
    }

    /** The loop that grants access after a contested sleep entry and after a sleep exit. */
    method WakeUps(entry: bool, ghost tr: Trace) returns (ghost next: Trace)
      requires Is(tr.now) && tr.At(0, GrantPc(entry, 0))
      modifies this`techs
      ensures Is(next.now) && next.At(0, GrantPc(entry, 3)) && next.base == tr.base
      ensures next.now.gate == tr.now.gate && Granted(old(techs), techs, 3)
    {
      hide Trace.At, GrantPc;
      next := tr;
      var protoId := 0;
      while protoId < 3
        invariant 0 <= protoId <= 3 && Is(next.now) && next.At(0, GrantPc(entry, protoId)) && next.base == tr.base
        invariant next.now.gate == tr.now.gate && Granted(old(techs), techs, protoId)
      {
        ghost var before := techs;
        if techs[protoId].deregisterFlag && techs[protoId].drv == Active {
          techs := techs[protoId := techs[protoId].(deregisterFlag := false)];
          techs := techs[protoId := techs[protoId].(access := true)];
        }
        assert techs == before[protoId := techs[protoId]];
        next := GrantMoves(next, entry, protoId);
        protoId := protoId + 1;
      }
    }

    /** What sleep_exit_recvd does under the lock. */
    method LeaveSleep(ghost tr: Trace) returns (ghost next: Trace)
      requires Is(tr.now) && tr.At(0, Rx(ExitSet))
      modifies this`se, this`ca, this`ack
      ensures Is(next.now) && next.At(0, Rx(ExitRelease)) && next.base == tr.base && !se && ca && !ack
    {
      hide Trace.At;
      se := false;
      next := RxMoves(tr, ExitSet);
      ca := true;
      next := RxMoves(next, ExitOpen);
      ack := false;
      next := RxMoves(next, ExitClear);
    }

    /** sleep_exit_recvd: the grants are made behind the lock. */
    method SleepExitRecvd(ghost tr: Trace) returns (ghost next: Trace)
      requires Is(tr.now) && tr.now.gate.tal == FREE && tr.At(0, Rx(ExitLock))
      modifies this`se, this`ca, this`ack, this`techs
      ensures Is(next.now) && next.At(0, Rx(RxIdle)) && next.base == tr.base && next.now.gate.tal == FREE
      ensures !se && ca && !ack && Granted(old(techs), techs, 3)
    {
      hide Trace.At, Granted;
      next := RxMoves(tr, ExitLock);
      next := LeaveSleep(next);
      next := RxMoves(next, ExitRelease);
      next := WakeUps(false, next);
    }

    /** What a contested sleep entry does. */
    method GrantContested(ghost tr: Trace) returns (ghost next: Trace)
      requires Is(tr.now) && tr.At(0, Rx(EntryOpen))
      modifies this`ca, this`ack, this`techs
      ensures Is(next.now) && next.At(0, Ack(Release, ToRx)) && next.base == tr.base
      ensures next.now.gate.tal == tr.now.gate.tal && ca && !ack && Granted(old(techs), techs, 3)
    {
      hide Trace.At, Granted, Data.WakeUp;
      ca := true;
      next := RxMoves(tr, EntryOpen);
      ack := false;
      next := RxMoves(next, EntryClear);
      next := WakeUps(true, next);
    }

    /** sleep_entry_recvd: an acknowledgement unless a protocol wants to transmit. */
    method SleepEntryRecvd(hasBuffer: bool, ghost tr: Trace) returns (ghost next: Trace)
      requires Is(tr.now) && tr.now.gate.tal == FREE && tr.At(0, Rx(EntryLock))
      modifies this`se, this`ca, this`ack, this`techs, this`queues, this`event
      ensures Is(next.now) && next.At(0, Rx(RxIdle)) && next.base == tr.base && next.now.gate.tal == FREE && se
      ensures Wanted(old(techs))
              ==> ca && !ack && Granted(old(techs), techs, 3) && queues == old(queues) && event == old(event)
      ensures !Wanted(old(techs)) ==> ca == old(ca) && techs == old(techs)
      ensures !Wanted(old(techs)) && hasBuffer
              ==> ack && event && queues == old(queues)[COEX_Q := old(queues[COEX_Q]) + [true]]
      ensures !Wanted(old(techs)) && !hasBuffer ==> ack == old(ack) && event == old(event) && queues == old(queues)
    {
      hide Trace.At, Granted, Data.WakeUp, Wanted;
      next := RxMoves(tr, EntryLock);
      se := true;
      next := RxMoves(next, EntrySet);
      var wanted := ProtocolTxAccess();
      next := EntryScans(next);
      if !wanted {
        next := SendUlpSleepAck(hasBuffer, 0, ToRx, next);
      } else {
        next := GrantContested(next);
      }
      next := AckMoves(next, 0, Release, ToRx, Go);
    }

    /** process_ulp_sleep_notify: bit 0 of byte 12 tells an entry, and its token is in the upper
        twelve bits of the word there. */
    method ProcessUlpSleepNotify(msg: seq<byte>, hasBuffer: bool, ghost s: State) returns (ghost tr: Trace)
      requires |msg| >= 14 && Is(s) && s.gate.tal == FREE && s.pcs[0] == Rx(RxIdle)
      modifies this
      ensures Is(tr.now) && tr.At(0, Rx(RxIdle)) && tr.base == s && tr.now.gate.tal == FREE
      ensures msg[12] % 2 == 1 ==> se && 0x10 * token <= Word16(msg, 12) < 0x10 * (token + 1)
      ensures msg[12] % 2 == 1 && Wanted(old(techs))
              ==> ca && !ack && Granted(old(techs), techs, 3) && queues == old(queues) && event == old(event)
      ensures msg[12] % 2 == 1 && !Wanted(old(techs)) ==> ca == old(ca) && techs == old(techs)
      ensures msg[12] % 2 == 1 && !Wanted(old(techs)) && hasBuffer
              ==> ack && event && queues == old(queues)[COEX_Q := old(queues[COEX_Q]) + [true]]
      ensures msg[12] % 2 == 1 && !Wanted(old(techs)) && !hasBuffer
              ==> ack == old(ack) && event == old(event) && queues == old(queues)
      ensures msg[12] % 2 == 0
              ==> !se && ca && !ack && token == SENTINEL && Granted(old(techs), techs, 3)
                  && queues == old(queues) && event == old(event)
    {
      hide Trace.At, Assets.Is, Granted, Wanted, Word16;
      var isEntry;
      isEntry, tr := TakeToken(msg, s);
      if isEntry {
        tr := SleepEntryRecvd(hasBuffer, tr);
      } else {
        tr := SleepExitRecvd(tr);
      }
    }

    /** The notify's kind and token, or the sentinel for an exit. */
    method TakeToken(msg: seq<byte>, ghost s: State) returns (isEntry: bool, ghost tr: Trace)
      requires |msg| >= 14 && Is(s) && s.gate.tal == FREE && s.pcs[0] == Rx(RxIdle)
      modifies this`token
      ensures Is(tr.now) && tr.base == s && tr.now.gate.tal == FREE
      ensures isEntry == (msg[12] % 2 == 1) && tr.At(0, Rx(if isEntry then EntryLock else ExitLock))
      ensures isEntry ==> 0x10 * token <= Word16(msg, 12) < 0x10 * (token + 1)
      ensures !isEntry ==> token == SENTINEL
    {
      hide Trace.At;
      tr := Start(s, 0);
      var word := Word16(msg, 12);
      isEntry := msg[12] % 2 == 1;
      if isEntry {
        token := word / 0x10;
        tr := RxStarts(tr, NotifyEntry(token));
      } else {
        token := SENTINEL;
        tr := RxStarts(tr, NotifyExit);
      }
    }

    /** update_tx_status of protocol id by thread t. */
    method UpdateTxStatus(id: Id, hasBuffer: bool, ghost tr: Trace, ghost t: nat, ghost ret: Ret)
      returns (ghost next: Trace)
      requires Is(tr.now) && tr.now.gate.tal == FREE && tr.At(t, Uts(UtsState, id, ret))
      modifies this`ack, this`techs, this`queues, this`event
      ensures Is(next.now) && next.At(t, Continue(ret)) && next.base == tr.base && next.now.gate.tal == FREE
      ensures next.now.gate.tl == tr.now.gate.tl && next.now.data.stale == tr.now.data.stale
      ensures next.now.data.timedOut == tr.now.data.timedOut
      ensures old(techs[id]).drv.Removed?
              ==> techs == old(techs) && queues == old(queues) && ack == old(ack) && event == old(event)
      ensures !old(techs[id]).drv.Removed? && old(techs[id]).intention
              ==> techs == (if old(ca && !ack) then old(techs)[id := old(techs[id]).(access := true)] else old(techs))
                  && queues == old(queues) && ack == old(ack) && event == old(event)
      ensures !old(techs[id]).drv.Removed? && !old(techs[id]).intention
              ==> techs == old(techs)
                  && (if old(se && !ack && !Wanted(techs)) && hasBuffer
                      then ack && event && queues == old(queues)[COEX_Q := old(queues[COEX_Q]) + [true]]
                      else ack == old(ack) && queues == old(queues) && event == old(event))
    {
      hide Trace.At, Wanted, UtsStep, Continue, Follows;
      next := StateMoves(tr, t, id, ret);
      if techs[id].drv == Removed {
        return;
      }
      next := IntentMoves(next, t, id, ret);
      if techs[id].intention {
        next := GrantAccess(id, next, t, ret);
      } else {
        next := AcknowledgeIdle(id, hasBuffer, next, t, ret);
      }
    }

    method GrantAccess(id: Id, ghost tr: Trace, ghost t: nat, ghost ret: Ret) returns (ghost next: Trace)
      requires Is(tr.now) && tr.now.gate.tal == FREE && tr.At(t, Uts(UtsGrantLock, id, ret))
      modifies this`techs
      ensures Is(next.now) && next.At(t, Continue(ret)) && next.base == tr.base && next.now.gate.tal == FREE
      ensures next.now.gate.tl == tr.now.gate.tl && next.now.data.stale == tr.now.data.stale
      ensures next.now.data.timedOut == tr.now.data.timedOut
      ensures techs == if ca && !ack then old(techs)[id := old(techs[id]).(access := true)] else old(techs)
    {
      hide Trace.At;
      next := UtsMoves(tr, t, UtsGrantLock, id, ret);
      next := UtsMoves(next, t, UtsGate, id, ret);
      if ca {
        next := UtsMoves(next, t, UtsPending, id, ret);
        if ack {
          next := AckMoves(next, t, Release, ret, Go);
          return;
        }
        techs := techs[id := techs[id].(access := true)];
        next := UtsMoves(next, t, UtsGrant, id, ret);
      }
      next := AckMoves(next, t, Release, ret, Go);
    }

    method AcknowledgeIdle(id: Id, hasBuffer: bool, ghost tr: Trace, ghost t: nat, ghost ret: Ret)
      returns (ghost next: Trace)
      requires Is(tr.now) && tr.now.gate.tal == FREE && tr.At(t, Uts(UtsIdleLock, id, ret))
      modifies this`ack, this`queues, this`event
      ensures Is(next.now) && next.At(t, Continue(ret)) && next.base == tr.base && next.now.gate.tal == FREE
      ensures next.now.gate.tl == tr.now.gate.tl && next.now.data.stale == tr.now.data.stale
      ensures next.now.data.timedOut == tr.now.data.timedOut
      ensures if old(se && !ack && !Wanted(techs)) && hasBuffer
              then ack && event && queues == old(queues)[COEX_Q := old(queues[COEX_Q]) + [true]]
              else ack == old(ack) && queues == old(queues) && event == old(event)
    {
      hide Trace.At;
      next := UtsMoves(tr, t, UtsIdleLock, id, ret);
      next := UtsMoves(next, t, UtsAsleep, id, ret);
      if se && !ack {
        var wanted := ProtocolTxAccess();
        next := UtsScans(next, t, id, ret);
        if !wanted {
          next := SendUlpSleepAck(hasBuffer, t, ret, next);
        }
      }
      next := AckMoves(next, t, Release, ret, Go);
    }

    // ---------- the transmit thread ----------

    /** coex_get_queue_num: the first queue in the order of the probes that is not empty. */
    method GetQueueNum(ghost tr: Trace) returns (found: bool, q: Queue, ghost next: Trace)
      requires Is(tr.now) && tr.At(1, Tx(TxProbe(0)))
      ensures Is(next.now) && next.base == tr.base && next.now.gate == tr.now.gate && next.now.data == tr.now.data
      ensures found ==> queues[q] != [] && forall j :: 0 <= j < Rank(q) ==> queues[Probed(j)] == []
      ensures !found ==> forall j :: 0 <= j < 5 ==> queues[Probed(j)] == []
      ensures found && queues[VIP_Q] != [] ==> q == VIP_Q
      ensures found && queues[VIP_Q] == [] && queues[COEX_Q] != [] ==> q == COEX_Q
      ensures found && queues[VIP_Q] == queues[COEX_Q] == [] && queues[BT_Q] != [] ==> q == BT_Q
      ensures found && queues[VIP_Q] == queues[COEX_Q] == queues[BT_Q] == [] && queues[ZIGB_Q] != [] ==> q == ZIGB_Q
      ensures next.At(1, if found then Tx(Probe(Rank(q), tr.now.data)) else Tx(TxPs(BT)))
    {
      hide Trace.At;
      found := true;
      next := RoundMoves(tr, TxProbe(0), Go);
      if queues[VIP_Q] != [] {
        return true, VIP_Q, next;
      }
      next := RoundMoves(next, TxProbe(1), Go);
      if queues[COEX_Q] != [] {
        return true, COEX_Q, next;
      }
      next := RoundMoves(next, TxProbe(2), Go);
      if queues[BT_Q] != [] {
        return true, BT_Q, next;
      }
      next := RoundMoves(next, TxProbe(3), Go);
      if queues[ZIGB_Q] != [] {
        return true, ZIGB_Q, next;
      }
      next := RoundMoves(next, TxProbe(4), Go);
      if queues[WLAN_Q] != [] {
        return true, WLAN_Q, next;
      }
      next := RoundMoves(next, TxProbe(5), Go);
      return false, WLAN_Q, next;
    }

    /** coex_dequeue_pkt. */
    method DequeuePkt(q: Queue, ghost tr: Trace) returns (isAck: bool, ghost next: Trace)
      requires Is(tr.now) && tr.At(1, Tx(TxDequeue(q))) && queues[q] != []
      modifies this`queues
      ensures Is(next.now) && next.At(1, Tx(TxLock(isAck))) && next.base == tr.base && next.now.gate == tr.now.gate
      ensures isAck == old(queues[q][0]) && queues == old(queues)[q := old(queues[q])[1..]]
      ensures next.now.data.stale == tr.now.data.stale
    {
      hide Trace.At;
      isAck := queues[q][0];
      queues := queues[q := queues[q][1..]];
      next := PacketMoves(tr, TxDequeue(q), Go);
    }

    /** Sending the first packet of a queue.  The gate closes behind it if the flag is set, by
        this packet or an earlier one of the round, and the firmware asked for sleep. */
    method SendPacket(q: Queue, ulpSleepAck: bool, refused: bool, ghost tr: Trace)
      returns (flag: bool, ghost next: Trace)
      requires Is(tr.now) && tr.now.gate.tal == FREE && tr.now.gate.tl == FREE && tr.now.data.stale == ulpSleepAck
      requires tr.At(1, Tx(TxDequeue(q))) && queues[q] != []
      modifies this`queues, this`ack, this`ca, this`written
      ensures Is(next.now) && next.now.gate.tal == FREE && next.now.gate.tl == FREE && next.now.data.stale == flag
      ensures next.At(1, Tx(TxProbe(0))) && next.base == tr.base
      ensures queues == old(queues)[q := old(queues[q])[1..]]
      ensures flag == (ulpSleepAck || (!refused && old(queues[q][0])))
      ensures written == old(written) + if refused then [] else [Packet(q, old(queues[q][0]))]
      ensures if !refused && flag && se then ack && !ca else ack == old(ack) && ca == old(ca)
    {
      hide Trace.At, TxPacket;
      flag := ulpSleepAck;
      var isAck;
      isAck, next := DequeuePkt(q, tr);
      next := CheckMoves(next, isAck, refused);
      if !refused {
        flag, next := WritePacket(q, isAck, ulpSleepAck, next);
      }
      next := UnlockMoves(next);
    }

    method WritePacket(ghost q: Queue, isAck: bool, ulpSleepAck: bool, ghost tr: Trace)
      returns (flag: bool, ghost next: Trace)
      requires Is(tr.now) && tr.now.gate.tal == FREE && tr.now.data.stale == ulpSleepAck
      requires tr.At(1, Tx(TxWrite(isAck)))
      modifies this`ack, this`ca, this`written
      ensures Is(next.now) && next.now.gate.tal == FREE && next.now.data.stale == flag
      ensures written == old(written) + [Packet(q, isAck)]
      ensures next.At(1, Tx(TxUnlock)) && next.base == tr.base
      ensures flag == (ulpSleepAck || isAck)
      ensures if flag && se then ack && !ca else ack == old(ack) && ca == old(ca)
    {
      hide Trace.At;
      flag := ulpSleepAck;
      if isAck {
        flag := true;
      }
      written := written + [Packet(q, isAck)];
      next := PacketMoves(tr, TxWrite(isAck), Go);
      next := CloseGate(flag, next);
    }

    /** What happens under the access lock when a packet was written. */
    method CloseGate(ulpSleepAck: bool, ghost tr: Trace) returns (ghost next: Trace)
      requires Is(tr.now) && tr.now.gate.tal == FREE && tr.now.data.stale == ulpSleepAck && tr.At(1, Tx(TxTalLock))
      modifies this`ack, this`ca
      ensures Is(next.now) && next.now.gate.tal == FREE
      ensures next.now.data.stale == tr.now.data.stale && next.At(1, Tx(TxUnlock)) && next.base == tr.base
      ensures if ulpSleepAck && se then ack && !ca else ack == old(ack) && ca == old(ca)
    {
      hide Trace.At;
      next := AsleepMoves(tr);
      if ulpSleepAck && se {
        ack := true;
        ca := false;
        next := ShutMoves(next);
      }
      next := PacketMoves(next, TxTalRelease, Go);
    }

    /** Access for the protocol of a queue: asked for if it is not there, and then waited for.
        Alone, the wait times out. */
    method ClaimAccess(q: Queue, ghost tr: Trace) returns (served: bool, ghost next: Trace)
      requires Is(tr.now) && tr.now.gate.tal == FREE && tr.now.gate.tl == FREE && tr.At(1, Tx(TxClaim(q)))
      modifies this`techs, this`ack, this`queues, this`event
      ensures Is(next.now) && next.now.gate.tal == FREE && next.now.gate.tl == FREE && next.base == tr.base
      ensures next.now.data.stale == tr.now.data.stale && queues == old(queues) && ack == old(ack)
      ensures next.At(1, Tx(if served then TxDequeue(q) else TxWait))
      ensures var tech := old(techs[ProtocolOf(q)]);
              && served == (tech.access || (ca && !ack && !tech.drv.Removed?))
              && techs == old(techs)[ProtocolOf(q) :=
                            if tech.access then tech
                            else if served then tech.(intention := true, access := true)
                            else tech.(intention := true, deregisterFlag := true)]
      ensures served ==> next.now.data.timedOut == tr.now.data.timedOut
      ensures !served ==> next.now.data.timedOut
    {
      hide Trace.At;
      var id := ProtocolOf(q);
      next := RoundMoves(tr, TxClaim(q), Go);
      if techs[id].access {
        return true, next;
      }
      next := AskForAccess(q, next);
      next := RoundMoves(next, TxRetry(q), Go);
      if techs[id].access {
        return true, next;
      }
      served, next := WaitForGrant(q, next);
    }

    method AskForAccess(q: Queue, ghost tr: Trace) returns (ghost next: Trace)
      requires Is(tr.now) && tr.now.gate.tal == FREE && tr.At(1, Tx(TxWant(q)))
      modifies this`techs, this`ack, this`queues, this`event
      ensures Is(next.now) && next.now.gate.tal == FREE && next.now.gate.tl == tr.now.gate.tl && next.base == tr.base
      ensures next.now.data.stale == tr.now.data.stale && next.now.data.timedOut == tr.now.data.timedOut
      ensures next.At(1, Tx(TxRetry(q))) && queues == old(queues) && ack == old(ack)
      ensures techs == old(techs)[ProtocolOf(q) := Asked(old(techs[ProtocolOf(q)]), ca && !ack)]
    {
      hide Trace.At, Wanted, TxPacket;
      var id := ProtocolOf(q);
      techs := techs[id := techs[id].(intention := true)];
      next := RoundMoves(tr, TxWant(q), Go);
      next := UpdateTxStatus(id, true, next, 1, ToRetry(q));
    }

    method WaitForGrant(q: Queue, ghost tr: Trace) returns (served: bool, ghost next: Trace)
      requires Is(tr.now) && tr.At(1, Tx(TxFlag(q)))
      modifies this`techs
      ensures Is(next.now) && next.now.gate == tr.now.gate && next.base == tr.base && !served
      ensures next.now.data.stale == tr.now.data.stale && next.At(1, Tx(TxWait)) && next.now.data.timedOut
      ensures techs == old(techs)[ProtocolOf(q) := old(techs[ProtocolOf(q)]).(deregisterFlag := true)]
    {
      hide Trace.At;
      var id := ProtocolOf(q);
      techs := techs[id := techs[id].(deregisterFlag := true)];
      next := RoundMoves(tr, TxFlag(q), Go);
      served := !techs[id].deregisterFlag;
      next := RoundMoves(next, TxGrantWait(q), Fail);
    }

    /** What is done for one protocol when no queue is left to serve. */
    method GiveUpAccess(id: Id, hasBuffer: bool, ghost tr: Trace) returns (ghost next: Trace)
      requires Is(tr.now) && tr.now.gate.tal == FREE && tr.At(1, Tx(TxPs(id)))
      modifies this`techs, this`ack, this`queues, this`event
      ensures Is(next.now) && next.now.gate.tal == FREE && next.base == tr.base && next.At(1, Continue(ToPs(id)))
      ensures var tech := old(techs[id]);
              techs == if tech.psEnabled then old(techs)[id := tech.(intention := false, access := false)]
                       else old(techs)
      ensures if old(techs[id]).psEnabled && !old(techs[id]).drv.Removed? && old(se && !ack) && !Wanted(techs)
                 && hasBuffer
              then ack && event && queues == old(queues)[COEX_Q := old(queues[COEX_Q]) + [true]]
              else ack == old(ack) && event == old(event) && queues == old(queues)
    {
      hide Trace.At, Wanted, TxRound, Follows;
      next := PsMoves(tr, id);
      if techs[id].psEnabled {
        techs := techs[id := techs[id].(intention := false)];
        techs := techs[id := techs[id].(access := false)];
        next := DropMoves(next, id);
        next := UpdateTxStatus(id, hasBuffer, next, 1, ToPs(id));
      }
    }

    method GiveUpBoth(ghost tr: Trace) returns (ghost next: Trace)
      requires Is(tr.now) && tr.now.gate.tal == FREE && tr.At(1, Tx(TxPs(BT))) && Drained(queues, false)
      modifies this`techs, this`ack, this`queues, this`event
      ensures Is(next.now) && next.now.gate.tal == FREE && next.base == tr.base && next.At(1, Tx(TxWait))
      ensures Drained(queues, event) && GaveUp(techs) && techs[WLAN] == old(techs[WLAN])
    {
      hide Trace.At;
      var hasBuffer := *;
      next := GiveUpAccess(BT, hasBuffer, tr);
      hasBuffer := *;
      next := GiveUpAccess(ZB, hasBuffer, next);
    }

    /** The first packet of the queue that was found is sent, if its protocol gets access. */
    method ServeQueue(q: Queue, ulpSleepAck: bool, refused: bool, ghost tr: Trace)
      returns (served: bool, flag: bool, ghost next: Trace)
      requires Is(tr.now) && tr.now.gate.tal == FREE && tr.now.gate.tl == FREE && tr.now.data.stale == ulpSleepAck
      requires queues[q] != [] && tr.At(1, Tx(Probe(Rank(q), tr.now.data)))
      modifies this`techs, this`queues, this`ack, this`ca, this`event, this`written
      ensures Is(next.now) && next.now.gate.tal == FREE && next.now.gate.tl == FREE && next.now.data.stale == flag
      ensures next.At(1, Tx(if served then TxProbe(0) else TxWait)) && next.base == tr.base
      ensures served
              ==> queues == old(queues)[q := old(queues[q])[1..]]
                  && written == old(written) + if refused then [] else [Packet(q, old(queues[q][0]))]
      ensures !served ==> queues == old(queues) && written == old(written) && Waiting(queues, techs, q)
    {
      hide Trace.At;
      served, flag, next := true, ulpSleepAck, tr;
      if q == BT_Q || q == ZIGB_Q {
        served, next := ClaimAccess(q, next);
        if !served {
          return;
        }
      }
      flag, next := SendPacket(q, ulpSleepAck, refused, next);
    }

    /** One turn of coex_transmit_thread, when its event is set. */
    method TransmitTurn(refuses: Packet -> bool, ghost tr: Trace) returns (served: bool, ghost next: Trace)
      requires Is(tr.now) && tr.now.gate.tal == FREE && tr.now.gate.tl == FREE && event && tr.At(1, Tx(TxWait))
      modifies this
      ensures Is(next.now) && next.now.gate.tal == FREE && next.base == tr.base && next.At(1, Tx(TxWait))
      ensures served
              ==> && Drained(queues, event) && GaveUp(techs)
                  && written == old(written) + Kept(InOrder(old(queues), 0), refuses)
      ensures !served ==> exists q: Queue :: Waiting(queues, techs, q)
      ensures !served
              ==> written + Kept(InOrder(queues, 0), refuses) == old(written) + Kept(InOrder(old(queues), 0), refuses)
    {
      hide Trace.At, InOrder, Kept, Drained;
      next := RoundMoves(tr, TxWait, Go);
      event := false;
      next := RoundMoves(next, TxReset, Go);
      served, next := CoexPktProcessor(refuses, next);
    }

    /** send_pkt_to_coex on the WLAN or the VIP queue: in WiFi mode the firmware, the access of the
        protocol and the gate are checked. */
    method SendDirectly(id: Id, wifi: bool, fwActive: bool, ghost t: nat, ghost tr: Trace)
      returns (sent: bool, ghost next: Trace)
      requires Is(tr.now) && tr.now.gate.tl == FREE && tr.At(t, Send(Idle))
      ensures Is(next.now) && next.now.gate.tl == FREE && next.base == tr.base && next.At(t, Send(Idle))
      ensures sent == (wifi ==> fwActive && techs[id].access && ca)
      ensures next.now.log == tr.now.log + if sent then [Wrote(id, wifi)] else []
    {
      hide Trace.At;
      sent := true;
      next := SendMoves(tr, t, Idle, CoexGate.SendDirect(id, wifi));
      next := SendMoves(next, t, SendLock(id, wifi), Go);
      if wifi {
        next := SendMoves(next, t, SendAccess(id), if fwActive then Go else Fail);
        if !fwActive || !techs[id].access {
          sent := false;
        } else {
          next := SendMoves(next, t, SendGate(id), Go);
          sent := ca;
        }
      }
      if sent {
        next := SendMoves(next, t, SendWrite(id, wifi), Go);
      }
      next := SendMoves(next, t, SendUnlock, Go);
    }

    /** The same on another queue, where the transmit thread is woken up for the packet. */
    method SendQueued(q: Queue, isAck: bool, ghost t: nat, ghost tr: Trace) returns (ghost next: Trace)
      requires Is(tr.now) && tr.At(t, Send(Idle))
      modifies this`queues, this`event
      ensures Is(next.now) && next.now.gate == tr.now.gate && next.base == tr.base && next.At(t, Send(Idle))
      ensures queues == old(queues)[q := old(queues[q]) + [isAck]] && event
      ensures next.now.log == tr.now.log + [Queued(q, isAck)]
    {
      hide Trace.At;
      next := SendMoves(tr, t, Idle, CoexGate.SendQueued(q, isAck));
      queues := queues[q := queues[q] + [isAck]];
      next := SendMoves(next, t, Enqueue(q, isAck), Go);
      event := true;
      next := SendMoves(next, t, SetEvent, Go);
    }

    /** The part of a card ready that opens the gate, and grants access if the protocol waits. */
    method CardReadyRecvd(id: Id, ghost tr: Trace) returns (ghost next: Trace)
      requires Is(tr.now) && tr.At(0, Rx(RxIdle))
      modifies this`ca, this`techs
      ensures Is(next.now) && next.base == tr.base && next.At(0, Rx(RxIdle))
      ensures next.now.gate.tal == tr.now.gate.tal && next.now.gate.tl == tr.now.gate.tl
      ensures var waits := old(techs[id].deregisterFlag && techs[id].drv.Active?);
              && ca
              && techs == (if waits then old(techs)[id := old(techs[id]).(access := true, deregisterFlag := false)]
                           else old(techs))
              && next.now.log == tr.now.log + [Opened(ByCardReady)]
                                 + if waits then [Grant(id, true, true, ack)] else []
    {
      hide Trace.At;
      next := RxStarts(tr, CardReady(id));
      ca := true;
      next := RxMoves(next, CardGrant(id));
      if techs[id].deregisterFlag && techs[id].drv == Active {
        techs := techs[id := techs[id].(deregisterFlag := false)];
        techs := techs[id := techs[id].(access := true)];
      }
    }

    /** coex_pkt_processor: serves the queues until all are empty or a grant does not come.  What
        is queued when it returns after serving all is an acknowledgement, with the event set.  The
        packets that are not refused are written in the order of the queues, and when a grant does
        not come, those that are left are still queued. */
    method CoexPktProcessor(refuses: Packet -> bool, ghost tr: Trace) returns (served: bool, ghost next: Trace)
      requires Is(tr.now) && tr.now.gate.tal == FREE && tr.now.gate.tl == FREE && !tr.now.data.stale
      requires tr.At(1, Tx(TxProbe(0)))
      modifies this
      ensures Is(next.now) && next.now.gate.tal == FREE && next.base == tr.base && next.At(1, Tx(TxWait))
      ensures served
              ==> && Drained(queues, event) && GaveUp(techs)
                  && written == old(written) + Kept(InOrder(old(queues), 0), refuses)
      ensures !served ==> exists q: Queue :: Waiting(queues, techs, q)
      ensures !served
              ==> written + Kept(InOrder(queues, 0), refuses) == old(written) + Kept(InOrder(old(queues), 0), refuses)
    {
      hide Trace.At, Probed, Rank, InOrder, Kept, Drained;
      var ulpSleepAck := false;
      next := tr;
      while true
        invariant Is(next.now) && next.now.gate.tal == FREE && next.now.gate.tl == FREE
        invariant next.now.data.stale == ulpSleepAck && next.At(1, Tx(TxProbe(0))) && next.base == tr.base
        invariant written + Kept(InOrder(queues, 0), refuses) == old(written) + Kept(InOrder(old(queues), 0), refuses)
        decreases Packets(queues)
      {
        var found, q;
        found, q, next := GetQueueNum(next);
        if !found {
          break;
        }
        FirstKept(queues, q, refuses);
        served, ulpSleepAck, next := ServeQueue(q, ulpSleepAck, refuses(Packet(q, queues[q][0])), next);
        if !served {
          return;
        }
      }
      AllProbed(queues);
      NoneKept(queues, refuses);
      next := GiveUpBoth(next);
      served := true;
    }
  }

  /** What asking for access makes of a protocol. */
  function Asked(tech: Tech, granted: bool): (r: Tech) {
    var r := tech.(intention := true);
    if granted && !tech.drv.Removed? then r.(access := true) else r
  }

  function Packets(queues: seq<seq<bool>>): (n: nat)
    requires |queues| == 5
  {
    |queues[0]| + |queues[1]| + |queues[2]| + |queues[3]| + |queues[4]|
  }

  /** The protocols that save power neither want to transmit nor may. */
  predicate GaveUp(techs: seq<Tech>) {
    |techs| == 3
    && (techs[BT].psEnabled ==> !techs[BT].intention && !techs[BT].access)
    && (techs[ZB].psEnabled ==> !techs[ZB].intention && !techs[ZB].access)
  }

  /** A queue of Bluetooth or ZigBee is left, whose protocol has asked for access and not got it. */
  predicate Waiting(queues: seq<seq<bool>>, techs: seq<Tech>, q: Queue) {
    && |queues| == 5 && |techs| == 3 && queues[q] != []
    && (q == BT_Q || q == ZIGB_Q)
    && var tech := techs[if q == BT_Q then BT else ZB]; tech.intention && tech.deregisterFlag && !tech.access
  }

  /** Nothing is queued but acknowledgements, and for these the event is set. */
  ghost predicate Drained(queues: seq<seq<bool>>, event: bool) {
    && |queues| == 5 && (forall q :: 0 <= q < 5 && q != COEX_Q ==> queues[q] == [])
    && (queues[COEX_Q] != [] ==> event) && forall i :: 0 <= i < |queues[COEX_Q]| ==> queues[COEX_Q][i]
  }

  lemma AllProbed(queues: seq<seq<bool>>)
    requires |queues| == 5 && forall j :: 0 <= j < 5 ==> queues[Probed(j)] == []
    ensures Drained(queues, false)
  {
    assert queues[Probed(0)] == [] && queues[Probed(1)] == [] && queues[Probed(2)] == [] && queues[Probed(3)] == []
           && queues[Probed(4)] == [];
  }

  /** Where the grant loop is before its n-th round. */
  function GrantPc(entry: bool, n: nat): (pc: Pc) {
    if n < 3 then Rx(if entry then EntryGrant(n) else ExitGrant(n))
    else if entry then Ack(Release, ToRx)
    else Rx(RxIdle)
  }

  lemma GrantMoves(tr: Trace, entry: bool, n: nat) returns (next: Trace)
    requires n < 3 && tr.now.Shape() && tr.At(0, GrantPc(entry, n))
    ensures next.At(0, GrantPc(entry, n + 1)) && next.base == tr.base && next.now.Shape()
    ensures next.now.gate == tr.now.gate
    ensures next.now.data == tr.now.data.WakeUp(n)
  {
    hide Trace.At, Data.WakeUp;
    next := RxMoves(tr, if entry then EntryGrant(n) else ExitGrant(n));
  }

  lemma PsMoves(tr: Trace, id: Id) returns (next: Trace)
    requires tr.now.Shape() && tr.At(1, Tx(TxPs(id)))
    ensures next.base == tr.base && next.now.gate == tr.now.gate && next.now.data == tr.now.data && next.now.Shape()
    ensures next.At(1, if tr.now.data.techs[id].psEnabled then Tx(TxDropIntent(id)) else Continue(ToPs(id)))
  {
    hide Trace.At, Continue;
    next := RoundMoves(tr, TxPs(id), Go);
  }

  lemma DropMoves(tr: Trace, id: Id) returns (next: Trace)
    requires tr.now.Shape() && tr.At(1, Tx(TxDropIntent(id)))
    ensures next.base == tr.base && next.now.gate == tr.now.gate && next.now.Shape()
    ensures next.At(1, Uts(UtsState, id, ToPs(id)))
    ensures var d := tr.now.data;
            next.now.data == d.(techs := d.techs[id := d.techs[id].(intention := false, access := false)])
  {
    hide Trace.At;
    next := RoundMoves(tr, TxDropIntent(id), Go);
    next := RoundMoves(next, TxDropAccess(id), Go);
    assert next.now.data.techs == tr.now.data.techs[id := tr.now.data.techs[id].(intention := false, access := false)];
  }

  lemma CheckMoves(tr: Trace, isAck: bool, refused: bool) returns (next: Trace)
    requires tr.now.Shape() && tr.At(1, Tx(TxLock(isAck))) && tr.now.gate.tl == FREE
    ensures next.At(1, Tx(if refused then TxUnlock else TxWrite(isAck))) && next.base == tr.base && next.now.Shape()
    ensures next.now.gate == tr.now.gate.(tl := 1) && next.now.data == tr.now.data
  {
    hide Trace.At;
    next := PacketMoves(tr, TxLock(isAck), Go);
    next := PacketMoves(next, TxCheck(isAck), if refused then Fail else Go);
  }

  lemma UnlockMoves(tr: Trace) returns (next: Trace)
    requires tr.now.Shape() && tr.At(1, Tx(TxUnlock))
    ensures next.At(1, Tx(TxProbe(0))) && next.base == tr.base && next.now.Shape()
    ensures next.now.gate == tr.now.gate.(tl := FREE) && next.now.data == tr.now.data
  {
    hide Trace.At;
    next := PacketMoves(tr, TxUnlock, Go);
  }

  lemma AsleepMoves(tr: Trace) returns (next: Trace)
    requires tr.now.Shape() && tr.At(1, Tx(TxTalLock)) && tr.now.gate.tal == FREE
    ensures next.At(1, Tx(if tr.now.data.stale && tr.now.gate.se then TxMark else TxTalRelease))
    ensures next.base == tr.base && next.now.Shape()
    ensures next.now.gate == tr.now.gate.(tal := 1) && next.now.data == tr.now.data
  {
    hide Trace.At;
    next := PacketMoves(tr, TxTalLock, Go);
    next := PacketMoves(next, TxAsleep, Go);
  }

  lemma ShutMoves(tr: Trace) returns (next: Trace)
    requires tr.now.Shape() && tr.At(1, Tx(TxMark))
    ensures next.At(1, Tx(TxTalRelease)) && next.base == tr.base && next.now.Shape()
    ensures next.now.gate == tr.now.gate.(ack := true, ca := false) && next.now.data == tr.now.data
  {
    hide Trace.At;
    next := PacketMoves(tr, TxMark, Go);
    next := PacketMoves(next, TxShut(tr.now.gate.ack), Go);
  }

  /** The reads of update_tx_status that come before a lock is taken. */
  lemma StateMoves(tr: Trace, t: nat, id: Id, ret: Ret) returns (next: Trace)
    requires tr.now.Shape() && tr.At(t, Uts(UtsState, id, ret))
    ensures next.base == tr.base && next.now.gate == tr.now.gate && next.now.data == tr.now.data && next.now.Shape()
    ensures next.At(t, if tr.now.data.techs[id].drv.Removed? then Continue(ret) else Uts(UtsIntent, id, ret))
  {
    hide Trace.At, Continue;
    next := UtsMoves(tr, t, UtsState, id, ret);
  }

  lemma IntentMoves(tr: Trace, t: nat, id: Id, ret: Ret) returns (next: Trace)
    requires tr.now.Shape() && tr.At(t, Uts(UtsIntent, id, ret))
    ensures next.base == tr.base && next.now.gate == tr.now.gate && next.now.data == tr.now.data && next.now.Shape()
    ensures next.At(t, Uts(if tr.now.data.techs[id].intention then UtsGrantLock else UtsIdleLock, id, ret))
  {
    hide Trace.At;
    next := UtsMoves(tr, t, UtsIntent, id, ret);
  }

  lemma EntryScans(tr: Trace) returns (next: Trace)
    requires tr.now.Shape() && tr.At(0, Rx(EntryScan(0)))
    ensures next.At(0, if Wanted(tr.now.data.techs) then Rx(EntryOpen) else Ack(Alloc, ToRx))
    ensures next.base == tr.base && next.now.gate == tr.now.gate && next.now.data == tr.now.data && next.now.Shape()
  {
    hide Trace.At;
    next := RxMoves(tr, EntryScan(0));
    if !tr.now.data.techs[0].Wants() {
      next := RxMoves(next, EntryScan(1));
      if !tr.now.data.techs[1].Wants() {
        next := RxMoves(next, EntryScan(2));
      }
    }
  }

  lemma UtsScans(tr: Trace, t: nat, id: Id, ret: Ret) returns (next: Trace)
    requires tr.now.Shape() && tr.At(t, Uts(UtsScan(0), id, ret))
    ensures next.At(t, Ack(if Wanted(tr.now.data.techs) then Release else Alloc, ret))
    ensures next.base == tr.base && next.now.gate == tr.now.gate && next.now.data == tr.now.data && next.now.Shape()
  {
    hide Trace.At;
    next := UtsMoves(tr, t, UtsScan(0), id, ret);
    if !tr.now.data.techs[0].Wants() {
      next := UtsMoves(next, t, UtsScan(1), id, ret);
      if !tr.now.data.techs[1].Wants() {
        next := UtsMoves(next, t, UtsScan(2), id, ret);
      }
    }
  }
}
