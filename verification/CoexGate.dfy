/** The common transmit gate that three protocols share, as interleaved steps of the receive
    thread, the transmit thread and any number of protocol threads: sleep_entry_recvd,
    sleep_exit_recvd, update_tx_status, send_ulp_sleep_ack, send_pkt_to_coex and
    coex_pkt_processor.  Each step is one access to the shared state, or one lock operation. */
module CoexGate {
  import opened Protocols

  type Queue = q: nat | q < 5
  const COEX_Q: Queue := 0
  const BT_Q: Queue := 1
  const WLAN_Q: Queue := 2
  const VIP_Q: Queue := 3
  const ZIGB_Q: Queue := 4

  const SENTINEL: nat := 0xABCD
  const FREE: int := -1

  // ---------- where a thread is ----------

  /** Where update_tx_status and the acknowledgement return to. */
  datatype Ret = ToIdle | ToRx | ToRetry(q: Queue) | ToPs(id: Id)

  /** What an acknowledgement was built from: the token it carries, the token of the latest
      sleep entry, and whether a sleep exit was waiting for the lock at that time. */
  datatype Note = Note(token: nat, latest: nat, exitWaits: bool)

  /** Handling of the sleep notify and of a card ready. */
  datatype RxPc =
    | RxIdle
    | EntryLock | EntrySet | EntryScan(id: Id) | EntryOpen | EntryClear | EntryGrant(id: Id)
    | ExitLock | ExitSet | ExitOpen | ExitClear | ExitRelease | ExitGrant(id: Id)
    | CardGrant(id: Id)

  /** update_tx_status: for an intention the gate and a pending acknowledgement are checked,
      otherwise an acknowledgement may be due. */
  datatype UtsPc =
    | UtsState | UtsIntent
    | UtsGrantLock | UtsGate | UtsPending | UtsGrant
    | UtsIdleLock | UtsAsleep | UtsScan(k: Id)

  /** send_ulp_sleep_ack, and the release of the access lock behind it. */
  datatype AckPc = Alloc | Token | Mark(note: Note) | Put(note: Note) | Wake | Release

  /** send_pkt_to_coex. */
  datatype SendPc =
    | Idle
    | SendLock(id: Id, checked: bool) | SendAccess(id: Id) | SendGate(id: Id) | SendWrite(id: Id, checked: bool)
    | SendUnlock
    | Enqueue(q: Queue, isAck: bool) | SetEvent

  /** coex_transmit_thread and coex_pkt_processor. */
  datatype TxPc =
    | TxWait | TxReset | TxProbe(k: nat) | TxPs(id: Id) | TxDropIntent(id: Id) | TxDropAccess(id: Id)
    | TxClaim(q: Queue) | TxWant(q: Queue) | TxRetry(q: Queue) | TxFlag(q: Queue) | TxGrantWait(q: Queue)
    | TxDequeue(q: Queue) | TxLock(isAck: bool) | TxCheck(isAck: bool) | TxWrite(isAck: bool)
    | TxTalLock | TxAsleep | TxMark | TxShut(acked: bool) | TxTalRelease | TxUnlock

  datatype Pc =
    | Rx(rx: RxPc)
    | Uts(uts: UtsPc, id: Id, ret: Ret)
    | Ack(at: AckPc, ret: Ret)
    | Send(send: SendPc)
    | Tx(tx: TxPc)

  function Continue(ret: Ret): (pc: Pc) {
    match ret
    case ToIdle => Send(Idle)
    case ToRx => Rx(RxIdle)
    case ToRetry(q) => Tx(TxRetry(q))
    case ToPs(id) => if id == BT then Tx(TxPs(ZB)) else Tx(TxWait)
  }

  // ---------- the state ----------

  datatype Module = Removed | Inserted | Active

  /** What is known of one protocol: deregisterFlag says that it waits for a grant. */
  datatype Tech = Tech(drv: Module, intention: bool, access: bool, deregisterFlag: bool, psEnabled: bool) {
    predicate Wants() {
      drv.Active? && intention
    }

    predicate Waits() {
      deregisterFlag && drv.Active?
    }
  }

  /** sleep_entry_recvd, ulp_sleep_ack_sent and common_hal_tx_access; the holders of
      tx_access_lock and transmit_lock; and whether access was ever open. */
  datatype Shared = Shared(se: bool, ack: bool, ca: bool, tal: int, tl: int, everOpen: bool)

  datatype Opener = BySleepExit | BySleepEntry | ByCardReady

  /** What can be observed of a run: rounds of the transmit thread; sleep entries, and those for
      whose acknowledgement no buffer was to be had; openings and closings of the gate, and of a
      closing whether an acknowledgement was out already; direct writes for a protocol; grants, with
      the gate as it is then; acknowledgements and other packets queued; and of the transmit thread
      the packets it takes from the queues and those it sends, with its local flag as it was
      before. */
  datatype Obs =
    | Woke
    | Entered
    | Refused
    | Opened(opener: Opener)
    | Closed(acked: bool)
    | Wrote(id: Id, checked: bool)
    | Grant(id: Id, cardReady: bool, ca: bool, ack: bool)
    | AckQueued(note: Note, latest: nat)
    | Queued(q: Queue, isAck: bool)
    | Taken(q: Queue, isAck: bool)
    | Sent(isAck: bool, flag: bool)

  datatype Seen = Nothing | Saw(obs: Obs)

  function Record(log: seq<Obs>, seen: Seen): (r: seq<Obs>) {
    if seen.Nothing? then log else log + [seen.obs]
  }

  /** The sleep token, the protocols, the soft queues (of a packet it is known whether it is a
      sleep acknowledgement), the event of the transmit thread and its local flag; and as
      history the token of the latest sleep entry, whether a grant wait timed out, and the
      numbers of sleep entries and of queued acknowledgements. */
  datatype Data = Data(
    token: nat, techs: seq<Tech>, queues: seq<seq<bool>>, event: bool, stale: bool,
    latest: nat, timedOut: bool, entries: nat, acks: nat)
  {
    predicate Shape() {
      |techs| == 3 && |queues| == 5
    }

    /** The grant to a protocol that waits for one. */
    function WakeUp(id: Id): (d: Data)
      requires Shape()
      ensures d.Shape()
    {
      if techs[id].Waits() then SetTech(id, techs[id].(access := true, deregisterFlag := false)) else this
    }

    function SetTech(id: Id, tech: Tech): (d: Data)
      requires Shape()
      ensures d.Shape()
    {
      this.(techs := techs[id := tech])
    }

    function Append(q: Queue, isAck: bool): (d: Data)
      requires Shape()
      ensures d.Shape()
    {
      this.(queues := queues[q := queues[q] + [isAck]])
    }

    function Dequeue(q: Queue): (d: Data)
      requires Shape() && queues[q] != []
      ensures d.Shape()
    {
      this.(queues := queues[q := queues[q][1..]])
    }
  }

  /** The gate, where each thread is, the rest, and the observations.  Thread 0 receives and
      thread 1 transmits. */
  datatype State = State(gate: Shared, pcs: seq<Pc>, data: Data, log: seq<Obs>) {
    predicate Shape() {
      |pcs| >= 2 && data.Shape()
    }
  }

  /** The choices of a thread that are not determined by the state. */
  datatype Choice =
    | Go | Fail
    | NotifyEntry(token: nat) | NotifyExit | CardReady(id: Id)
    | Update(id: Id) | SendDirect(id: Id, checked: bool) | SendQueued(q: Queue, isAck: bool)

  /** What one step of a thread makes of the gate, of its own place, and of the rest, and what
      can be observed of it. */
  datatype Next = Next(gate: Shared, pc: Pc, data: Data, seen: Seen)

  function Quietly(g: Shared, pc: Pc, d: Data): (n: Next) {
    Next(g, pc, d, Nothing)
  }

  /** Waiting for a lock is to stay at the place before it. */
  function TakeTal(g: Shared, t: nat, before: Pc, after: Pc, d: Data): (n: Next) {
    if g.tal == FREE then Quietly(g.(tal := t), after, d) else Quietly(g, before, d)
  }

  function TakeTl(g: Shared, t: nat, before: Pc, after: Pc, d: Data): (n: Next) {
    if g.tl == FREE then Quietly(g.(tl := t), after, d) else Quietly(g, before, d)
  }

  function Open(g: Shared, pc: Pc, d: Data, opener: Opener): (n: Next) {
    Next(g.(ca := true, everOpen := true), pc, d, Saw(Opened(opener)))
  }

  /** One round of a loop that grants access. */
  function WakeUp(g: Shared, pc: Pc, d: Data, id: Id, cardReady: bool): (n: Next)
    requires d.Shape()
    ensures n.data.Shape()
  {
    Next(g, pc, d.WakeUp(id), if d.techs[id].Waits() then Saw(Grant(id, cardReady, g.ca, g.ack)) else Nothing)
  }

  // ---------- the receive thread ----------

  function RxStart(g: Shared, d: Data, c: Choice): (n: Next)
    requires d.Shape()
    ensures n.data.Shape()
  {
    match c
    case NotifyEntry(token) =>
      if token < 0x1000
      then Quietly(g, Rx(EntryLock), d.(token := token, latest := token, entries := d.entries + 1))
      else Quietly(g, Rx(RxIdle), d)
    case NotifyExit => Quietly(g, Rx(ExitLock), d.(token := SENTINEL))
    case CardReady(id) => Open(g, Rx(CardGrant(id)), d, ByCardReady)
    case _ => Quietly(g, Rx(RxIdle), d)
  }

  function RxStep(g: Shared, rx: RxPc, d: Data, c: Choice): (n: Next)
    requires d.Shape()
    ensures n.data.Shape()
  {
    match rx
    case RxIdle => RxStart(g, d, c)
    case EntryLock => TakeTal(g, 0, Rx(rx), Rx(EntrySet), d)
    case EntrySet => Next(g.(se := true), Rx(EntryScan(0)), d, Saw(Entered))
    case EntryScan(id) =>
      Quietly(g, if d.techs[id].Wants() then Rx(EntryOpen)
                 else if id < 2 then Rx(EntryScan(id + 1)) else Ack(Alloc, ToRx), d)
    case EntryOpen => Open(g, Rx(EntryClear), d, BySleepEntry)
    case EntryClear => Quietly(g.(ack := false), Rx(EntryGrant(0)), d)
    case EntryGrant(id) =>
      WakeUp(g, if id < 2 then Rx(EntryGrant(id + 1)) else Ack(Release, ToRx), d, id, false)
    case ExitLock => TakeTal(g, 0, Rx(rx), Rx(ExitSet), d)
    case ExitSet => Quietly(g.(se := false), Rx(ExitOpen), d)
    case ExitOpen => Open(g, Rx(ExitClear), d, BySleepExit)
    case ExitClear => Quietly(g.(ack := false), Rx(ExitRelease), d)
    case ExitRelease => Quietly(g.(tal := FREE), Rx(ExitGrant(0)), d)
    case ExitGrant(id) => WakeUp(g, Rx(if id < 2 then ExitGrant(id + 1) else RxIdle), d, id, false)
    case CardGrant(id) => WakeUp(g, Rx(RxIdle), d, id, true)
  }

  // ---------- update_tx_status and the acknowledgement ----------

  function UtsStep(g: Shared, t: nat, uts: UtsPc, id: Id, ret: Ret, d: Data): (n: Next)
    requires d.Shape()
    ensures n.data.Shape()
  {
    match uts
    case UtsState => Quietly(g, if d.techs[id].drv.Removed? then Continue(ret) else Uts(UtsIntent, id, ret), d)
    case UtsIntent => Quietly(g, Uts(if d.techs[id].intention then UtsGrantLock else UtsIdleLock, id, ret), d)
    case UtsGrantLock => TakeTal(g, t, Uts(uts, id, ret), Uts(UtsGate, id, ret), d)
    case UtsGate => Quietly(g, if g.ca then Uts(UtsPending, id, ret) else Ack(Release, ret), d)
    case UtsPending => Quietly(g, if g.ack then Ack(Release, ret) else Uts(UtsGrant, id, ret), d)
    case UtsGrant =>
      Next(g, Ack(Release, ret), d.SetTech(id, d.techs[id].(access := true)), Saw(Grant(id, false, g.ca, g.ack)))
    case UtsIdleLock => TakeTal(g, t, Uts(uts, id, ret), Uts(UtsAsleep, id, ret), d)
    case UtsAsleep => Quietly(g, if g.se && !g.ack then Uts(UtsScan(0), id, ret) else Ack(Release, ret), d)
    case UtsScan(k) =>
      Quietly(g, if d.techs[k].Wants() then Ack(Release, ret)
                 else if k < 2 then Uts(UtsScan(k + 1), id, ret) else Ack(Alloc, ret), d)
  }

  function AckStep(g: Shared, at: AckPc, ret: Ret, d: Data, c: Choice, exitWaits: bool): (n: Next)
    requires d.Shape()
    ensures n.data.Shape()
  {
    match at
    case Alloc =>
      if c.Fail? then Next(g, Ack(Release, ret), d, if ret == ToRx then Saw(Refused) else Nothing)
      else Quietly(g, Ack(Token, ret), d)
    case Token => Quietly(g, Ack(Mark(Note(d.token, d.latest, exitWaits)), ret), d)
    case Mark(note) => Quietly(g.(ack := true), Ack(Put(note), ret), d)
    case Put(note) =>
      Next(g, Ack(Wake, ret), d.Append(COEX_Q, true).(acks := d.acks + 1), Saw(AckQueued(note, d.latest)))
    case Wake => Quietly(g, Ack(Release, ret), d.(event := true))
    case Release => Quietly(g.(tal := FREE), Continue(ret), d)
  }

  // ---------- send_pkt_to_coex ----------

  /** On the WLAN and VIP queues the frame is written at once, in WiFi mode only if the protocol
      and the gate allow it; on the others it is queued. */
  function SendStep(g: Shared, t: nat, send: SendPc, d: Data, c: Choice): (n: Next)
    requires d.Shape()
    ensures n.data.Shape()
  {
    match send
    case Idle =>
      Quietly(g, match c
                 case Update(id) => Uts(UtsState, id, ToIdle)
                 case SendDirect(id, checked) => Send(SendLock(id, checked))
                 case SendQueued(q, isAck) => Send(Enqueue(q, isAck))
                 case _ => Send(Idle), d)
    case SendLock(id, checked) =>
      TakeTl(g, t, Send(send), Send(if checked then SendAccess(id) else SendWrite(id, false)), d)
    case SendAccess(id) => Quietly(g, Send(if d.techs[id].access && !c.Fail? then SendGate(id) else SendUnlock), d)
    case SendGate(id) => Quietly(g, Send(if g.ca then SendWrite(id, true) else SendUnlock), d)
    case SendWrite(id, checked) => Next(g, Send(SendUnlock), d, Saw(Wrote(id, checked)))
    case SendUnlock => Quietly(g.(tl := FREE), Send(Idle), d)
    case Enqueue(q, isAck) => Next(g, Send(SetEvent), d.Append(q, isAck), Saw(Queued(q, isAck)))
    case SetEvent => Quietly(g, Send(Idle), d.(event := true))
  }

  // ---------- the transmit thread ----------

  /** The queue that is probed k-th. */
  function Probed(k: nat): (q: Queue)
    requires k < 5
  {
    match k
    case 0 => VIP_Q
    case 1 => COEX_Q
    case 2 => BT_Q
    case 3 => ZIGB_Q
    case _ => WLAN_Q
  }

  /** How many queues are probed before q. */
  function Rank(q: Queue): (k: nat)
    ensures k < 5 && Probed(k) == q
  {
    match q
    case 0 => 1
    case 1 => 2
    case 2 => 4
    case 3 => 0
    case 4 => 3
  }

  function ProtocolOf(q: Queue): (id: Id) {
    if q == BT_Q then BT else ZB
  }

  /** After a probe: to the next queue, or to serve this one, for which Bluetooth and ZigBee
      need access. */
  function Probe(k: nat, d: Data): (tx: TxPc)
    requires k < 5 && d.Shape()
    ensures tx.TxProbe? || tx.TxClaim? || tx.TxDequeue?
  {
    var q := Probed(k);
    if d.queues[q] == [] then TxProbe(k + 1) else if q == BT_Q || q == ZIGB_Q then TxClaim(q) else TxDequeue(q)
  }

  predicate IsRound(tx: TxPc) {
    tx.TxWait? || tx.TxReset? || tx.TxProbe? || tx.TxPs? || tx.TxDropIntent? || tx.TxDropAccess? || tx.TxClaim?
    || tx.TxWant? || tx.TxRetry? || tx.TxFlag? || tx.TxGrantWait?
  }

  /** A round: wait, probe the queues, get access for the protocol of the queue that is served,
      and give up access when there is none.  The flag is cleared for a round of the packet
      processor, not for a packet. */
  function TxRound(g: Shared, tx: TxPc, d: Data, c: Choice): (n: Next)
    requires d.Shape()
    ensures n.data.Shape()
  {
    match tx
    case TxWait => Quietly(g, Tx(if d.event then TxReset else TxWait), d)
    case TxReset => Next(g, Tx(TxProbe(0)), d.(event := false, stale := false), Saw(Woke))
    case TxProbe(k) => Quietly(g, Tx(if k < 5 then Probe(k, d) else TxPs(BT)), d)
    case TxPs(id) => Quietly(g, if d.techs[id].psEnabled then Tx(TxDropIntent(id)) else Continue(ToPs(id)), d)
    case TxDropIntent(id) => Quietly(g, Tx(TxDropAccess(id)), d.SetTech(id, d.techs[id].(intention := false)))
    case TxDropAccess(id) => Quietly(g, Uts(UtsState, id, ToPs(id)), d.SetTech(id, d.techs[id].(access := false)))
    case TxClaim(q) => Quietly(g, Tx(if d.techs[ProtocolOf(q)].access then TxDequeue(q) else TxWant(q)), d)
    case TxWant(q) =>
      var id := ProtocolOf(q);
      Quietly(g, Uts(UtsState, id, ToRetry(q)), d.SetTech(id, d.techs[id].(intention := true)))
    case TxRetry(q) => Quietly(g, Tx(if d.techs[ProtocolOf(q)].access then TxDequeue(q) else TxFlag(q)), d)
    case TxFlag(q) =>
      var id := ProtocolOf(q);
      Quietly(g, Tx(TxGrantWait(q)), d.SetTech(id, d.techs[id].(deregisterFlag := true)))
    case TxGrantWait(q) =>
      if !d.techs[ProtocolOf(q)].deregisterFlag then Quietly(g, Tx(TxDequeue(q)), d)
      else if c.Fail? then Quietly(g, Tx(TxWait), d.(timedOut := true))
      else Quietly(g, Tx(tx), d)
    case _ => Quietly(g, Tx(tx), d)
  }

  /** The packet of the queue that is served. */
  function TxPacket(g: Shared, tx: TxPc, d: Data, c: Choice): (n: Next)
    requires d.Shape()
    ensures n.data.Shape()
  {
    match tx
    case TxDequeue(q) =>
      if d.queues[q] == [] then Quietly(g, Tx(TxWait), d)
      else Next(g, Tx(TxLock(d.queues[q][0])), d.Dequeue(q), Saw(Taken(q, d.queues[q][0])))
    case TxLock(isAck) => TakeTl(g, 1, Tx(tx), Tx(TxCheck(isAck)), d)
    case TxCheck(isAck) => Quietly(g, Tx(if c.Fail? then TxUnlock else TxWrite(isAck)), d)
    case TxWrite(isAck) => Next(g, Tx(TxTalLock), d.(stale := d.stale || isAck), Saw(Sent(isAck, d.stale)))
    case TxTalLock => TakeTal(g, 1, Tx(tx), Tx(TxAsleep), d)
    case TxAsleep => Quietly(g, Tx(if d.stale && g.se then TxMark else TxTalRelease), d)
    case TxMark => Quietly(g.(ack := true), Tx(TxShut(g.ack)), d)
    case TxShut(acked) => Next(g.(ca := false), Tx(TxTalRelease), d, Saw(Closed(acked)))
    case TxTalRelease => Quietly(g.(tal := FREE), Tx(TxUnlock), d)
    case TxUnlock => Quietly(g.(tl := FREE), Tx(TxProbe(0)), d)
    case _ => Quietly(g, Tx(tx), d)
  }

  function TxStep(g: Shared, tx: TxPc, d: Data, c: Choice): (n: Next)
    requires d.Shape()
    ensures n.data.Shape()
  {
    if IsRound(tx) then TxRound(g, tx, d, c) else TxPacket(g, tx, d, c)
  }

  // ---------- steps and runs ----------

  datatype Action = Run(thread: nat, choice: Choice) | Change(techs: seq<Tech>)

  /** The next step of a thread at pc; it stays where it is while it is blocked. */
  function PcStep(g: Shared, t: nat, pc: Pc, d: Data, c: Choice, exitWaits: bool): (n: Next)
    requires d.Shape()
    ensures n.data.Shape()
  {
    match pc
    case Rx(rx) => RxStep(g, rx, d, c)
    case Uts(uts, id, ret) => UtsStep(g, t, uts, id, ret, d)
    case Ack(at, ret) => AckStep(g, at, ret, d, c, exitWaits)
    case Send(send) => SendStep(g, t, send, d, c)
    case Tx(tx) => TxStep(g, tx, d, c)
  }

  function ThreadStep(s: State, t: nat, c: Choice): (n: Next)
    requires s.Shape() && t < |s.pcs|
  {
    PcStep(s.gate, t, s.pcs[t], s.data, c, s.pcs[0] == Rx(ExitLock))
  }

  /** Besides the steps above the protocols may change anything of theirs at any time, except
      that they do not give themselves access. */
  predicate ProtocolsMay(d: Data, techs: seq<Tech>)
    requires d.Shape()
  {
    |techs| == 3 && forall id :: 0 <= id < 3 && techs[id].access ==> d.techs[id].access
  }

  function Step(s: State, a: Action): (r: State)
    requires s.Shape()
    ensures r.Shape() && |r.pcs| == |s.pcs|
  {
    match a
    case Run(t, c) =>
      if t < |s.pcs| then
        var n := ThreadStep(s, t, c);
        State(n.gate, s.pcs[t := n.pc], n.data, Record(s.log, n.seen))
      else s
    case Change(techs) => if ProtocolsMay(s.data, techs) then s.(data := s.data.(techs := techs)) else s
  }

  /** At the start nothing is queued or locked, and access is not open. */
  ghost predicate Init(s: State) {
    && s.Shape() && s.gate == Shared(false, false, false, FREE, FREE, false)
    && s.pcs[0] == Rx(RxIdle) && s.pcs[1] == Tx(TxWait) && (forall t :: 2 <= t < |s.pcs| ==> s.pcs[t] == Send(Idle))
    && s.data == Data(0, s.data.techs, [[], [], [], [], []], false, s.data.stale, 0, false, 0, 0) && s.log == []
  }

  /** A run: the state after a sequence of actions. */
  function After(s: State, actions: seq<Action>): (r: State)
    requires s.Shape()
    ensures r.Shape()
  {
    if actions == [] then s
    else
      var before := After(s, actions[..|actions| - 1]);
      Step(before, actions[|actions| - 1])
  }
}
