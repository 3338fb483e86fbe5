/** The receive path from the packet interrupt to the protocol handlers, and the state in which
    it stops for good: onebox_read_pkt, deploy_packet_to_assets, panic_stop_all_activites, and
    the direct sends that this state refuses. */
module RxPath {
  import opened Bytes
  import opened HostTransfer
  import opened Options
  import opened Protocols

  const COEX_PKT: nat := 0
  const ZIGB_PKT: nat := 1
  const BT_PKT: nat := 2
  const WLAN_PKT: nat := 3

  const MAGIC_WORD: byte := 0x5A
  const BT_CARD_READY_IND: byte := 0x89
  const ZIGB_CARD_READY_IND: byte := 0xFF
  const DEFERRED_MAX: nat := 1000

  datatype Packet = Packet(kind: nat, data: seq<byte>)
  datatype Mode = Wifi | QspiFlashing | OtherMode

  /** The adapter fields that decide whether anything is received or sent, the packets that
      wait for deployment, and, as history, the calls of the protocol handlers and the number
      of WLAN and VIP frames written. */
  datatype State = State(stopped: bool, aboard: bool, cardReady: bool, fwActive: seq<bool>,
                         btDeregister: bool, deferred: seq<Packet>, handled: seq<Packet>, writes: nat) {
    predicate WellFormed() {
      |fwActive| == 3
    }

    /** The absorbing state: nothing is read or deployed, and no firmware is active. */
    predicate Panicked() {
      stopped && !aboard && !cardReady && fwActive == [false, false, false]
    }
  }

  function AllStopped(s: State): (r: State) {
    s.(stopped := true, aboard := false, cardReady := false, fwActive := [false, false, false])
  }

  // ---------- reading a transfer ----------

  /** What an interrupt brings: the interrupt status, the block register or the failure to read
      it, the outcome of the transfer, the receive buffer after it, how many packet buffers can
      be allocated, and the mode the driver is in. */
  datatype Transfer = Transfer(intStatus: byte, reg: Option<byte>, readOk: bool, mem: seq<byte>, buffers: nat,
                               mode: Mode, flashing: bool, taAggr: nat) {
    predicate WellFormed() {
      |mem| >= 0x2_0000
    }

    /** Bit 0 and the high nibble of the interrupt status. */
    function StatusBlocks(): (n: nat)
      ensures n < 32
    {
      intStatus % 2 + intStatus / 16 * 2
    }

    predicate RegisterFails() {
      StatusBlocks() == 0 && reg.None?
    }

    function Blocks(): (n: nat)
      ensures n < 32
    {
      if StatusBlocks() != 0 || reg.None? then StatusBlocks() else reg.value % 0x20
    }

    function Protocol(): (p: nat) {
      if StatusBlocks() != 0 || reg.None? then WLAN_PKT else reg.value / 0x20
    }

    predicate Unaggregated() {
      taAggr < 2 || Protocol() == BT_PKT || Protocol() == ZIGB_PKT
    }

    predicate Unbuffered() {
      Unaggregated() && buffers == 0
    }

    /** The protocol that the packets get: everything is for the coex layer while flashing. */
    function Kind(): (k: nat) {
      if flashing then COEX_PKT else Protocol()
    }

    function Cfg(sdio: bool): (c: Config) {
      Config(sdio, Kind() == WLAN_PKT, mode.Wifi? && !flashing)
    }

    /** For a frame that comes alone; while the flash is programmed over QSPI neither an extended
        descriptor nor a longest payload is known. */
    function SingleCfg(sdio: bool): (c: Config) {
      if mode.QspiFlashing? then Config(sdio, false, false) else Cfg(sdio)
    }
  }

  /** The checks on a transfer that holds one frame, which are fewer over USB and while the
      flash is programmed over QSPI. */
  predicate UnaggregatedOk(t: Transfer, sdio: bool)
    requires t.WellFormed()
  {
    var total, cfg := t.Blocks() * BLOCK, t.Cfg(sdio);
    var actual, offset := Word16(t.mem, 0), Word16(t.mem, 2);
    var length := LengthField(t.mem, offset);
    && actual >= 4 + FRAME_DESC_SZ && offset >= 4
    && (actual == total || actual + 4 + FRAME_DESC_SZ <= total)
    && (sdio ==> actual == cfg.UnitedLen(offset + length + FRAME_DESC_SZ))
    && (!t.mode.QspiFlashing?
        ==> (cfg.wlan ==> t.mem[offset + 4] <= length) && length <= cfg.MaxLength())
  }

  /** The packet of a frame that passed: the buffer without what is before the descriptor and
      behind the payload.  A pull past the end does nothing, and a trim never lengthens. */
  function UnaggregatedPacket(t: Transfer): (p: Packet)
    requires t.WellFormed()
  {
    var total, offset := t.Blocks() * BLOCK, Word16(t.mem, 2);
    var n := LengthField(t.mem, offset) + FRAME_DESC_SZ;
    var data := if offset <= total then t.mem[offset..total] else t.mem[..total];
    Packet(t.Kind(), if n <= |data| then data[..n] else data)
  }

  /** Over USB a firmware upgrade request on the WLAN protocol goes to the coex layer. */
  function Redirected(p: Packet, sdio: bool): (q: Packet) {
    if !sdio && p.kind == WLAN_PKT && Peek(p.data, 2) == RX_MISC_IND && Peek(p.data, 15) == FW_UPGRADE_REQ
    then p.(kind := COEX_PKT) else p
  }

  const RX_MISC_IND: byte := 0x0A
  const FW_UPGRADE_REQ: byte := 0

  /** A byte of a packet; what lies behind a short one is read as zero. */
  function Peek(data: seq<byte>, i: nat): (b: byte) {
    if i < |data| then data[i] else 0
  }

  function Packets(kind: nat, bodies: seq<seq<byte>>): (p: seq<Packet>) {
    seq(|bodies|, i requires 0 <= i < |bodies| => Packet(kind, bodies[i]))
  }

  // ---------- what the bus promises of a transfer ----------

  /** The transfer starts with a frame: the declared length and the offset of the descriptor, a
      gap, and a well-formed descriptor with its payload.  The frame takes the whole transfer, or
      leaves room for another one; on SDIO its declared length is the padded one. */
  predicate StartsWithFrame(t: Transfer, sdio: bool, declared: uint16, gap: seq<byte>, body: seq<byte>)
    requires t.WellFormed()
  {
    var total, length := t.Blocks() * BLOCK, 4 + |gap| + |body|;
    && 4 + |gap| < 0x1_0000 && length <= |t.mem|
    && Part(t.mem, 0, length) == Bytes16(declared) + Bytes16(4 + |gap|) + gap + body
    && declared >= 4 + FRAME_DESC_SZ && (declared == total || declared + 4 + FRAME_DESC_SZ <= total)
    && BodyWellFormed(body, t.SingleCfg(sdio))
    && (sdio ==> declared == t.SingleCfg(sdio).UnitedLen(length))
  }

  ghost predicate HoldsFrame(t: Transfer, sdio: bool)
    requires t.WellFormed()
  {
    exists declared: uint16, gap, body :: StartsWithFrame(t, sdio, declared, gap, body)
  }

  /** The transfer is a list of well-formed frames, or starts with more of them than there are
      buffers, so that the rest is never looked at. */
  ghost predicate HoldsFrames(t: Transfer, sdio: bool)
    requires t.WellFormed()
  {
    var total, cfg := t.Blocks() * BLOCK, t.Cfg(sdio);
    || (exists frames ::
          frames != [] && AllWellFormed(frames, cfg) && Layout(frames, cfg) == Part(t.mem, 0, total))
    || (exists frames ::
          |frames| == t.buffers + 1 && AllWellFormed(frames, cfg) && Leads(t.mem, 0, total, frames, cfg))
  }

  /** Whether the transfer breaks the rules of the bus: it has no blocks, it cannot be read, or
      its contents are not laid out as the format says.  A transfer for which there is no buffer
      is not read, and one for ZigBee is not looked at. */
  ghost predicate Violation(t: Transfer, sdio: bool)
    requires t.WellFormed()
  {
    || t.Blocks() == 0
    || (!t.Unbuffered() && !t.readOk)
    || (!t.Unbuffered() && t.Kind() != ZIGB_PKT
        && if t.Unaggregated() then !HoldsFrame(t, sdio) else !HoldsFrames(t, sdio))
  }

  /** onebox_read_pkt: what a transfer does to the state. */
  function Received(s: State, t: Transfer, sdio: bool): (r: State)
    requires t.WellFormed()
  {
    if t.RegisterFails() || s.stopped then s
    else if t.Blocks() == 0 then AllStopped(s)
    else if (t.Unaggregated() && t.buffers == 0) || !s.aboard then s
    else if !t.readOk then AllStopped(s)
    else Processed(s, t, sdio)
  }

  function Processed(s: State, t: Transfer, sdio: bool): (r: State)
    requires t.WellFormed()
  {
    if t.Kind() == ZIGB_PKT then s.(deferred := s.deferred + [Packet(ZIGB_PKT, t.mem[..t.Blocks() * BLOCK])])
    else if t.Unaggregated() then
      if !UnaggregatedOk(t, sdio) then AllStopped(s)
      else if |s.deferred| <= DEFERRED_MAX
      then s.(deferred := s.deferred + [Redirected(UnaggregatedPacket(t), sdio)]) else s
    else
      var p := Parse(t.mem, 0, t.Blocks() * BLOCK, t.Cfg(sdio));
      if t.buffers < |p.delivered| then s.(deferred := s.deferred + Packets(t.Kind(), p.delivered[..t.buffers]))
      else
        var q := s.(deferred := s.deferred + Packets(t.Kind(), p.delivered));
        if p.ok then q else AllStopped(q)
  }

  // ---------- deploying a packet ----------

  /** deploy_packet_to_assets, where active says which protocol modules are active. */
  function Deployed(s: State, p: Packet, active: seq<bool>): (r: State)
    requires s.WellFormed() && |active| == 3
  {
    var call := s.(handled := s.handled + [p]);
    if !s.aboard then s
    else if Peek(p.data, 1) / 0x10 == COEX_PKT || p.kind == COEX_PKT then call
    else if p.kind == BT_PKT then
      if !s.fwActive[BT] || s.btDeregister then
        if Peek(p.data, 14) == BT_CARD_READY_IND
        then s.(fwActive := s.fwActive[BT := true], btDeregister := false) else s
      else if active[BT] then call else s
    else if p.kind == WLAN_PKT then
      if !s.fwActive[WLAN] then
        if Peek(p.data, 2) == 0 && Peek(p.data, FRAME_DESC_SZ) == MAGIC_WORD
        then s.(fwActive := s.fwActive[WLAN := true]) else s
      else if active[WLAN] then call else s
    else if p.kind == ZIGB_PKT then
      if !s.fwActive[ZB] then
        if Peek(p.data, 15) == ZIGB_CARD_READY_IND then s.(fwActive := s.fwActive[ZB := true]) else s
      else if active[ZB] then call else s
    else s
  }

  /** The protocol module that a packet of a kind is for. */
  function ModuleOf(kind: nat): (id: Option<Id>) {
    if kind == BT_PKT then Some(BT) else if kind == WLAN_PKT then Some(WLAN)
    else if kind == ZIGB_PKT then Some(ZB) else None
  }

  predicate ForCoex(p: Packet) {
    Peek(p.data, 1) / 0x10 == COEX_PKT || p.kind == COEX_PKT
  }

  /** The packet with which the firmware of a protocol reports that it runs. */
  predicate ReportsReady(p: Packet, id: Id) {
    && !ForCoex(p) && ModuleOf(p.kind) == Some(id)
    && match id
       case 0 => Peek(p.data, 2) == 0 && Peek(p.data, FRAME_DESC_SZ) == MAGIC_WORD
       case 1 => Peek(p.data, 14) == BT_CARD_READY_IND
       case _ => Peek(p.data, 15) == ZIGB_CARD_READY_IND
  }

  /** The reports byte by byte. */
  lemma ReportBytes(p: Packet)
    ensures ForCoex(p) <==> Peek(p.data, 1) < 0x10 || p.kind == 0
    ensures ReportsReady(p, ZB) <==> p.kind == 1 && Peek(p.data, 1) >= 0x10 && Peek(p.data, 15) == 0xFF
    ensures ReportsReady(p, BT) <==> p.kind == 2 && Peek(p.data, 1) >= 0x10 && Peek(p.data, 14) == 0x89
    ensures ReportsReady(p, WLAN)
            <==> p.kind == 3 && Peek(p.data, 1) >= 0x10 && Peek(p.data, 2) == 0 && Peek(p.data, 16) == 0x5A
    ensures forall i: nat :: i < |p.data| ==> Peek(p.data, i) == p.data[i]
  {
  }

  /** A packet reaches a handler exactly when it is for the coex layer, or its firmware and its
      module are active and Bluetooth is not being deregistered. */
  lemma HandledExactly(s: State, p: Packet, active: seq<bool>)
    requires s.WellFormed() && |active| == 3
    ensures var id := ModuleOf(p.kind);
            var served := id.Some? && s.fwActive[id.value] && active[id.value] && (id == Some(BT) ==> !s.btDeregister);
            Deployed(s, p, active).handled
            == if s.aboard && (ForCoex(p) || served) then s.handled + [p] else s.handled
  {
  }

  /** A firmware becomes active exactly on its own report, and none becomes inactive. */
  lemma ActivatedExactly(s: State, p: Packet, active: seq<bool>, id: Id)
    requires s.WellFormed() && |active| == 3
    ensures var r := Deployed(s, p, active);
            |r.fwActive| == 3 && r.fwActive[id] == (s.fwActive[id] || (s.aboard && ReportsReady(p, id)))
  {
  }

  /** The report of the Bluetooth firmware ends a deregistration; nothing but that, the firmwares
      and the history changes. */
  lemma DeployedLeaves(s: State, p: Packet, active: seq<bool>)
    requires s.WellFormed() && |active| == 3
    ensures var r := Deployed(s, p, active);
            && r.btDeregister == (s.btDeregister && !(s.aboard && ReportsReady(p, BT)))
            && r == s.(fwActive := r.fwActive, btDeregister := r.btDeregister, handled := r.handled)
  {
  }

  // ---------- direct sends ----------

  /** The firmware that a transmit packet type belongs to. */
  function FirmwareOf(pktType: byte): (id: Option<Id>) {
    match pktType
    case 0 => Some(WLAN)
    case 1 => Some(ZB)
    case 2 => Some(BT)
    case 4 => Some(WLAN)
    case 5 => Some(WLAN)
    case _ => None
  }

  /** send_pkt_to_coex on the WLAN or the VIP queue, with the gate as it is read. */
  predicate MaySend(s: State, mode: Mode, flashing: bool, pktType: byte, access: seq<bool>, common: bool)
    requires s.WellFormed() && |access| == 3
  {
    var id := FirmwareOf(pktType);
    mode.Wifi? && !flashing ==> id.Some? && s.fwActive[id.value] && access[id.value] && common
  }

  // ---------- runs ----------

  datatype Event =
    | Read(transfer: Transfer)
    | Deploy(active: seq<bool>)
    | Send(mode: Mode, flashing: bool, pktType: byte, access: seq<bool>, common: bool)
  {
    predicate WellFormed() {
      match this
      case Read(t) => t.WellFormed()
      case Deploy(active) => |active| == 3
      case Send(_, _, _, access, _) => |access| == 3
    }

    predicate SendsOutsideWifi() {
      Send? && !(mode.Wifi? && !flashing)
    }
  }

  /** One call: a read, the deployment of the first deferred packet, or a send. */
  function Step(s: State, e: Event, sdio: bool): (r: State)
    requires s.WellFormed() && e.WellFormed()
    ensures r.WellFormed()
  {
    match e
    case Read(t) => Received(s, t, sdio)
    case Deploy(active) =>
      if s.deferred == [] then s else Deployed(s.(deferred := s.deferred[1..]), s.deferred[0], active)
    case Send(mode, flashing, pktType, access, common) =>
      if MaySend(s, mode, flashing, pktType, access, common) then s.(writes := s.writes + 1) else s
  }

  ghost predicate AllEventsWellFormed(events: seq<Event>) {
    forall i :: 0 <= i < |events| ==> events[i].WellFormed()
  }

  ghost function After(s: State, events: seq<Event>, sdio: bool): (r: State)
    requires s.WellFormed() && AllEventsWellFormed(events)
    ensures r.WellFormed()
  {
    if events == [] then s else Step(After(s, events[..|events| - 1], sdio), events[|events| - 1], sdio)
  }

  ghost function SendsOutside(events: seq<Event>): (n: nat) {
    if events == [] then 0
    else SendsOutside(events[..|events| - 1]) + (if events[|events| - 1].SendsOutsideWifi() then 1 else 0)
  }

  lemma SamePadding(t: Transfer, sdio: bool, n: nat)
    ensures t.SingleCfg(sdio).UnitedLen(n) == t.Cfg(sdio).UnitedLen(n)
  {
  }

  lemma FrameFound(t: Transfer, sdio: bool) returns (declared: uint16, gap: seq<byte>, body: seq<byte>)
    requires t.WellFormed() && UnaggregatedOk(t, sdio)
    ensures StartsWithFrame(t, sdio, declared, gap, body)
  {
    hide Config.UnitedLen, Word16, Bytes16, LengthField, Part;
    var offset := Word16(t.mem, 2);
    var n := LengthField(t.mem, offset) + FRAME_DESC_SZ;
    declared, gap, body := Word16(t.mem, 0), Part(t.mem, 4, offset - 4), Part(t.mem, offset, n);
    ReadWord(t.mem, offset, body, 0);
    ReadWord(t.mem, offset, body, 4);
    EqualLengthFields(t.mem, offset, body);
    Bytes16OfWord(t.mem, 0);
    Bytes16OfWord(t.mem, 2);
    PartJoin(t.mem, 0, 2, 2);
    PartJoin(t.mem, 0, 4, |gap|);
    PartJoin(t.mem, 0, offset, n);
    SamePadding(t, sdio, offset + n);
  }

  lemma FrameRead(t: Transfer, sdio: bool, declared: uint16, gap: seq<byte>, body: seq<byte>)
    requires t.WellFormed() && StartsWithFrame(t, sdio, declared, gap, body)
    ensures UnaggregatedOk(t, sdio)
    ensures Word16(t.mem, 2) == 4 + |gap| && LengthField(t.mem, 4 + |gap|) + FRAME_DESC_SZ == |body|
    ensures Part(t.mem, 4 + |gap|, |body|) == body
  {
    hide Config.UnitedLen, LengthField, Part, Word16, Bytes16;
    var head, offset := Bytes16(declared) + Bytes16(4 + |gap|), 4 + |gap|;
    HeaderWords(declared, offset);
    PartSplit(t.mem, 0, head + gap, body);
    PartSplit(t.mem, 0, head, gap);
    ReadWord(t.mem, 0, head, 0);
    ReadWord(t.mem, 0, head, 2);
    ReadWord(t.mem, offset, body, 0);
    ReadWord(t.mem, offset, body, 4);
    EqualLengthFields(t.mem, offset, body);
    SamePadding(t, sdio, offset + |body|);
  }

  lemma HeaderWords(a: uint16, b: uint16)
    ensures Word16(Bytes16(a) + Bytes16(b), 0) == a && Word16(Bytes16(a) + Bytes16(b), 2) == b
  {
    var head := Bytes16(a) + Bytes16(b);
    assert head[0] == Bytes16(a)[0] && head[1] == Bytes16(a)[1] && head[2] == Bytes16(b)[0] && head[3] == Bytes16(b)[1];
    assert Word16(head, 0) == Word16(Bytes16(a), 0) && Word16(head, 2) == Word16(Bytes16(b), 0);
  }

  /** The packet of such a frame is its descriptor and payload, provided they lie inside the
      transfer, which only SDIO guarantees. */
  lemma FrameIsDelivered(t: Transfer, sdio: bool, declared: uint16, gap: seq<byte>, body: seq<byte>)
    requires t.WellFormed() && StartsWithFrame(t, sdio, declared, gap, body)
    requires sdio || 4 + |gap| + |body| <= t.Blocks() * BLOCK
    ensures UnaggregatedPacket(t) == Packet(t.Kind(), body)
  {
    hide Config.UnitedLen, LengthField, Word16, Bytes16;
    FrameRead(t, sdio, declared, gap, body);
    var offset, total := 4 + |gap|, t.Blocks() * BLOCK;
    assert t.mem[offset..total][..|body|] == Part(t.mem, offset, |body|);
  }

  /** The checks on a frame that comes alone pass exactly when the transfer holds one. */
  lemma PassesExactlyFrames(t: Transfer, sdio: bool)
    requires t.WellFormed()
    ensures UnaggregatedOk(t, sdio) <==> HoldsFrame(t, sdio)
  {
    hide UnaggregatedOk, StartsWithFrame;
    if UnaggregatedOk(t, sdio) {
      var declared, gap, body := FrameFound(t, sdio);
    }
    if declared: uint16, gap: seq<byte>, body: seq<byte> :| StartsWithFrame(t, sdio, declared, gap, body) {
      FrameRead(t, sdio, declared, gap, body);
    }
  }

  /** The loop over an aggregated transfer ends in a panic exactly when the transfer does not
      hold frames as it should. */
  lemma FailsExactlyOnNoFrames(t: Transfer, sdio: bool)
    requires t.WellFormed()
    ensures var p := Parse(t.mem, 0, t.Blocks() * BLOCK, t.Cfg(sdio));
            !p.ok && |p.delivered| <= t.buffers <==> !HoldsFrames(t, sdio)
  {
    hide Parse, Layout, Leads, AllWellFormed;
    SucceedsExactlyOnLayouts(t.mem, t.Blocks() * BLOCK, t.Cfg(sdio));
    DeliversExactlyLeading(t.mem, t.Blocks() * BLOCK, t.Cfg(sdio), t.buffers + 1);
  }

  /** A read panics exactly on a violation, unless the driver has stopped, the card is away, or
      the block register cannot be read. */
  lemma PanicsExactlyOnViolation(s: State, t: Transfer, sdio: bool)
    requires s.WellFormed() && t.WellFormed() && !s.Panicked()
    ensures Received(s, t, sdio).Panicked()
            <==> !s.stopped && !t.RegisterFails() && (t.Blocks() == 0 || s.aboard) && Violation(t, sdio)
  {
    hide Parse, UnaggregatedOk, UnaggregatedPacket, HoldsFrame, HoldsFrames;
    PassesExactlyFrames(t, sdio);
    FailsExactlyOnNoFrames(t, sdio);
  }

  /** After a panic no run of reads and deployments calls a handler or activates a firmware,
      and every send in WiFi mode is refused. */
  lemma {:induction false} PanicIsAbsorbing(s: State, events: seq<Event>, sdio: bool)
    requires s.WellFormed() && s.Panicked() && AllEventsWellFormed(events)
    ensures var r := After(s, events, sdio);
            r.Panicked() && r.handled == s.handled && r.writes == s.writes + SendsOutside(events)
  {
    hide Processed;
    if events != [] {
      PanicIsAbsorbing(s, events[..|events| - 1], sdio);
    }
  }

  /** The k-th event of the run deploys the packet with which the firmware reports ready. */
  ghost predicate DeploysReport(s: State, events: seq<Event>, sdio: bool, k: nat, id: Id)
    requires s.WellFormed() && AllEventsWellFormed(events)
  {
    && k < |events| && events[k].Deploy?
    && var now := After(s, events[..k], sdio);
    && now.aboard && now.deferred != [] && ReportsReady(now.deferred[0], id)
  }

  lemma ReportsEarlier(s: State, events: seq<Event>, sdio: bool, k: nat, id: Id)
    requires s.WellFormed() && AllEventsWellFormed(events) && events != []
    requires DeploysReport(s, events[..|events| - 1], sdio, k, id)
    ensures DeploysReport(s, events, sdio, k, id)
  {
    assert events[..|events| - 1][..k] == events[..k];
  }

  /** In every run, a firmware that was not active and now is has reported ready. */
  lemma {:induction false} ActiveAfterReport(s: State, events: seq<Event>, sdio: bool, id: Id) returns (k: nat)
    requires s.WellFormed() && AllEventsWellFormed(events)
    requires !s.fwActive[id] && After(s, events, sdio).fwActive[id]
    ensures DeploysReport(s, events, sdio, k, id)
  {
    hide Processed, Deployed, ReportsReady;
    var n := |events| - 1;
    var before, last := After(s, events[..n], sdio), events[n];
    if before.fwActive[id] {
      k := ActiveAfterReport(s, events[..n], sdio, id);
      ReportsEarlier(s, events, sdio, k, id);
    } else {
      k := n;
      StepActivates(before, last, sdio, id);
    }
  }

  lemma StepActivates(s: State, e: Event, sdio: bool, id: Id)
    requires s.WellFormed() && e.WellFormed() && !s.fwActive[id] && Step(s, e, sdio).fwActive[id]
    ensures e.Deploy? && s.aboard && s.deferred != [] && ReportsReady(s.deferred[0], id)
  {
    hide Parse, UnaggregatedOk, UnaggregatedPacket, Deployed, ReportsReady;
    if e.Deploy? && s.deferred != [] {
      ActivatedExactly(s.(deferred := s.deferred[1..]), s.deferred[0], e.active, id);
    }
  }

  /** In every run from a state without an active firmware, a packet was handled for a protocol
      only if the firmware of that protocol had reported ready. */
  lemma {:induction false} HandledAfterReport(s: State, events: seq<Event>, sdio: bool, i: nat) returns (k: nat)
    requires s.WellFormed() && AllEventsWellFormed(events)
    requires s.fwActive == [false, false, false]
    requires |s.handled| <= i < |After(s, events, sdio).handled|
    requires !ForCoex(After(s, events, sdio).handled[i])
    ensures var id := ModuleOf(After(s, events, sdio).handled[i].kind);
            id.Some? && DeploysReport(s, events, sdio, k, id.value)
  {
    hide Processed, Deployed, ForCoex, ModuleOf, DeploysReport;
    var n := |events| - 1;
    var before := After(s, events[..n], sdio);
    StepHandles(before, events[n], sdio);
    if i < |before.handled| {
      k := HandledAfterReport(s, events[..n], sdio, i);
      ReportsEarlier(s, events, sdio, k, ModuleOf(before.handled[i].kind).value);
    } else {
      var id := ModuleOf(before.deferred[0].kind).value;
      k := ActiveAfterReport(s, events[..n], sdio, id);
      ReportsEarlier(s, events, sdio, k, id);
    }
  }

  /** What one call adds to the history is the packet that it deploys, for an active firmware. */
  lemma StepHandles(s: State, e: Event, sdio: bool)
    requires s.WellFormed() && e.WellFormed()
    ensures var r := Step(s, e, sdio);
            r.handled == s.handled
            || (&& s.deferred != [] && r.handled == s.handled + [s.deferred[0]]
                && (ForCoex(s.deferred[0])
                    || (ModuleOf(s.deferred[0].kind).Some? && s.fwActive[ModuleOf(s.deferred[0].kind).value])))
  {
    hide Parse, UnaggregatedOk, UnaggregatedPacket, Deployed, ForCoex, ModuleOf;
    if e.Deploy? && s.deferred != [] {
      HandledExactly(s.(deferred := s.deferred[1..]), s.deferred[0], e.active);
    }
  }

  // ---------- the code ----------

  class Adapter {
    const sdio: bool
    var stopCardWrite: nat
    var aboard: bool
    var cardReady: bool
    var fwActive: seq<bool>
    var btDeregister: bool
    var deferred: seq<Packet>
    ghost var handled: seq<Packet>
    ghost var writes: nat

    ghost function Abs(): (s: State)
      reads this
    {
      State(stopCardWrite == 2, aboard, cardReady, fwActive, btDeregister, deferred, handled, writes)
    }

    method PanicStopAll()
      requires Abs().WellFormed()
      modifies this
      ensures Abs() == AllStopped(old(Abs()))
    {
      cardReady := false;
      stopCardWrite := 2;
      aboard := false;
      fwActive := fwActive[WLAN := false];
      fwActive := fwActive[BT := false];
      fwActive := fwActive[ZB := false];
    }

    method ReadPkt(t: Transfer)
      requires Abs().WellFormed() && t.WellFormed()
      modifies this
      ensures Abs() == Received(old(Abs()), t, sdio)
    {
      hide Parse, UnaggregatedOk, UnaggregatedPacket, Processed;
      var blocks, protocol := t.StatusBlocks(), WLAN_PKT;
      if blocks == 0 {
        if t.reg.None? {
          return;
        }
        protocol := t.reg.value / 0x20;
        blocks := t.reg.value % 0x20;
      }
      if stopCardWrite == 2 {
        return;
      }
      if blocks == 0 {
        stopCardWrite := 2;
        PanicStopAll();
        return;
      }
      var unaggregated := t.taAggr < 2 || protocol == BT_PKT || protocol == ZIGB_PKT;
      if unaggregated && t.buffers == 0 {
        return;
      }
      if !aboard {
        return;
      }
      if !t.readOk {
        PanicStopAll();
        return;
      }
      ProcessTransfer(t);
    }

    method ProcessTransfer(t: Transfer)
      requires Abs().WellFormed() && t.WellFormed()
      modifies this
      ensures Abs() == Processed(old(Abs()), t, sdio)
    {
      hide Parse, UnaggregatedOk, UnaggregatedPacket;
      var n := t.Blocks() * BLOCK;
      if t.Kind() == ZIGB_PKT {
        deferred := deferred + [Packet(ZIGB_PKT, t.mem[..n])];
      } else if t.Unaggregated() {
        if !UnaggregatedOk(t, sdio) {
          PanicStopAll();
        } else if |deferred| <= DEFERRED_MAX {
          deferred := deferred + [Redirected(UnaggregatedPacket(t), sdio)];
        }
      } else {
        var status, bodies := ProcessAggregated(t.mem, n, t.Cfg(sdio), t.buffers);
        deferred := deferred + Packets(t.Kind(), bodies);
        if status.Panic? {
          PanicStopAll();
        }
      }
    }

    /** Deploys the first packet that waits for the deferred work. */
    method DeployOne(active: seq<bool>)
      requires Abs().WellFormed() && |active| == 3 && deferred != []
      modifies this
      ensures Abs() == Step(old(Abs()), Deploy(active), sdio)
    {
      var p := deferred[0];
      deferred := deferred[1..];
      if !aboard {
        return;
      }
      var kind := if Peek(p.data, 1) / 0x10 == COEX_PKT then COEX_PKT else p.kind;
      var call := false;
      match kind {
        case 0 => call := true;
        case 1 =>
          if !fwActive[ZB] {
            if Peek(p.data, 15) == ZIGB_CARD_READY_IND {
              fwActive := fwActive[ZB := true];
            }
          } else {
            call := active[ZB];
          }
        case 2 =>
          if !fwActive[BT] || btDeregister {
            if Peek(p.data, 14) == BT_CARD_READY_IND {
              fwActive, btDeregister := fwActive[BT := true], false;
            }
          } else {
            call := active[BT];
          }
        case 3 =>
          if !fwActive[WLAN] {
            if Peek(p.data, 2) == 0 && Peek(p.data, FRAME_DESC_SZ) == MAGIC_WORD {
              fwActive := fwActive[WLAN := true];
            }
          } else {
            call := active[WLAN];
          }
        case _ =>
      }
      if call {
        handled := handled + [p];
      }
    }

    method SendDirect(mode: Mode, flashing: bool, pktType: byte, access: seq<bool>, common: bool)
      returns (written: bool)
      requires Abs().WellFormed() && |access| == 3
      modifies this
      ensures Abs() == Step(old(Abs()), Send(mode, flashing, pktType, access, common), sdio)
      ensures written == (writes == old(writes) + 1)
      ensures mode != Wifi || flashing ==> written
      ensures mode == Wifi && !flashing && pktType in {0, 4, 5}
              ==> written == (common && old(fwActive)[WLAN] && access[WLAN])
      ensures mode == Wifi && !flashing && pktType == 1 ==> written == (common && old(fwActive)[ZB] && access[ZB])
      ensures mode == Wifi && !flashing && pktType == 2 ==> written == (common && old(fwActive)[BT] && access[BT])
      ensures mode == Wifi && !flashing && pktType !in {0, 1, 2, 4, 5} ==> !written
    {
      written := false;
      if mode == Wifi && !flashing {
        var id := FirmwareOf(pktType);
        if id.None? {
          return;
        } else if !fwActive[id.value] {
          return;
        } else if !access[id.value] || !common {
          return;
        }
      }
      writes := writes + 1;
      written := true;
    }
  }
}
