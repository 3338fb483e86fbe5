# Redpine WLAN/BT/ZigBee host driver: verified core

This project models the parts of the OneBox host driver whose state and arithmetic are worth a
proof, and proves what they promise. `dafny verify dfyconfig.toml` checks all of it.

* **The coexistence gate** (`CoexGate`, `GateInvariant`, `GateRuns`, `GateTokens`,
  `GateWakeups`, `GateClosings`, `GateEntries`, `GateFrames`, `GateQueues`, `GateAccess`,
  `GateRounds`, `GateWitness`, `GateCode`). Three protocols share one radio; the firmware asks to sleep and the host
  acknowledges only if nobody wants to transmit. `CoexGate` is a machine of the receive thread,
  the transmit thread and any number of protocol threads; each step is one access to shared
  state or one lock operation: `RxStep` takes sleep entry, sleep exit and card ready handling
  apart, `UtsStep` and `AckStep` `update_tx_status` and `send_ulp_sleep_ack`, `SendStep`
  `send_pkt_to_coex`, and `TxStep` the transmit thread with its packet processor. The
  invariants are proved inductively for every interleaving, by what each place in the code
  relies on and what each step guarantees to the others. `GateCode` is the code itself, as
  methods on the shared fields; each method that runs without interruption is shown to take
  exactly the steps of the machine. Two habits of the code are kept: a sleep exit grants access
  after it released the lock, and the flag that an acknowledgement was sent outlives its packet
  within a round of the packet processor.
* **The host transfer parser** (`HostTransfer`), **the receive path with its panic state**
  (`RxPath`), and what that queues and in which order it is deployed (`RxQueueing`).
* **Firmware loading**: the two block loaders (`Loader`), the ping-pong handshake with the
  secondary bootloader (`Bootloader`), the load through it (`SblLoad`), and burning an image
  into serial flash with pipelined confirms and verification (`Flash`, `FlashHost`).
* **The windowed file pager** of the configuration dialog (`Pager`): a 10 KiB window agrees
  with the whole file, for any sequence of keys.
* **The 32-bit ones'-complement checksum** (`Checksum`), the algebra of section 2 of RFC 1071
  with 32-bit words.
* **The Bluetooth BER ring** (`BerRing`) against a queue.

`Bytes` holds C integers and little-endian words, `FlashLimits` and `Protocols` the constants
that several modules share, and `Options` the optional value.

Assumptions. Memory is little-endian. Registers, transfers, timers, allocation and the other
side of the bus may do anything (nondeterministic choices or parameters). In `Bootloader` the
answers of the bus to register accesses are any finite list, and the timer may run out at each.
In the gate, reading the two fields of one protocol in a scan is one step, and the protocols may
change their own fields at any time, except that they do not give themselves access. In
`FlashHost` the receive thread confirms frames between any two statements of the flashing
thread, each confirm in one step. In `HostTransfer` memory behind the receive buffer is
readable as far as the descriptor that is loaded before check 4.

What the proofs showed about the code:

* An acknowledgement carries the sentinel token 0xABCD instead of the entry's token exactly
  when it is built while a sleep exit waits for the access lock (`GateRuns.AcksCarryToken`),
  and that can happen (`GateWitness.SentinelCanLeave`).
* The gate can close with no acknowledgement queued since the latest sleep entry, and then stays
  closed until a sleep exit, a contested entry or a card ready. There are three ways, and no
  other (`GateEntries.ClosedUnacknowledgedExactly`): `ulp_sleep_ack_sent` is clear, as the local
  flag outlives its packet (`GateWitness.StaleFlagClosesGate`) or an acknowledgement is sent late
  (`GateWitness.OldAckClosesGate`); or the entry found no buffer
  (`GateWitness.RefusedEntryClosesGate`); or the gate was closed for that entry before
  (`GateWitness.SecondClosing`). When the flag is clear at a closing is exact as well
  (`GateClosings.ClosedWithFlagClearExactly`).
* The count of confirmed flash writes is an unsigned char that is never reset. A first burn
  succeeds only with all frames confirmed, and never with 256 or more; the size limit of
  400 KiB keeps the driver at 100. A burn that starts with a count of 1 succeeds with its last
  frame unconfirmed, and one that starts with more never succeeds (`FlashHost.LeavesOnTime`),
  unless confirms of an earlier burn come late: then success is sure to leave nothing
  unconfirmed exactly if count and late confirms make 256 (`FlashHost.LeavesNothingExactly`,
  `FlashHost.UncleanEndsEarly`).
* The sum of start address and size is a 32-bit one in the checks before a burn and before an
  upgrade, so an image whose end wraps around passes them (`FlashHost.LoadAllowedExactly`,
  `FlashHost.WrappedStartAllowed`, `Bootloader.Host.Acceptable`).
* A Bluetooth or ZigBee queue can be served without access: a thread that waited for a grant goes
  on when its wait flag is cleared, also if a disconnect of the card cleared it
  (`GateAccess.ServedHadAccess`).
* A BER packet of 1030 to 1032 bytes is delivered with one or two bytes overwritten by the
  packet count (`BerRing.ReplyIntactExactly`), and a longer one blocks the ring until it is
  armed again (`BerRing.TooLongBlocks`). Arming does not reset the number of waiting packets,
  so the ring is good for another run exactly if it was drained (`BerRing.Ring.Arm`).
* A load goes on as if the CRC check had passed exactly when no reply to it was taken that says
  it failed (`SblLoad.Sbl.CheckCrcCmd`): also if the check was never asked for
  (`SblLoad.StartsWithoutCheck`), or answered with another byte (`SblLoad.StartsOnOtherReply`).
* Going back no lines behind the end of a file steps past it, and going back twice there
  without fetching a line counts one line too many (`Pager.Window.BackLines`). No key does so in
  a dialog with text rows; without them the End key does (`Pager.Window.PressEnd`).

## Model

| member | source | states |
|---|---|---|
| `GateInvariant.RunsKeepInv` | source/host/common_hal/osi/onebox_common_tx.c:374-420 | in every state of every run of any number of threads: who holds which lock, which thread is where, and what each may rely on at its place |
| `GateInvariant.GateWhenUnlocked` | source/host/common_hal/osi/onebox_common_pwr_mngr.c:168-229 | whenever the access lock is free: an acknowledgement implies that sleep was asked for, and once access was open a closed gate implies both |
| `GateInvariant.GateOpenAtWrite` | source/host/common_hal/osi/onebox_common_tx.c:151-198 | at the instant of a checked WLAN or VIP write the gate is still open, although it was read without the access lock; what the writer has seen of its protocol's access is `GateAccess.CheckedWriteHadAccess` |
| `GateInvariant.GateOpenAtGrant` | source/host/common_hal/osi/onebox_common_pwr_mngr.c:206-229 | at every grant of a sleep exit, a contested entry and `update_tx_status` the gate is open and no acknowledgement is out |
| `GateAccess.CheckedWriteHadAccess` | source/host/common_hal/osi/onebox_common_tx.c:151-198 | over whole runs: a checked WLAN or VIP frame is written for a protocol that had access at a time since which its thread has held the transmit lock, and with the gate open |
| `GateAccess.ServedHadAccess` | source/host/common_hal/osi/onebox_common_tx.c:325-366 | over whole runs: before the transmit thread takes a Bluetooth or ZigBee packet, the last thing it did was to find that the protocol has access, or need no longer wait for it |
| `GateAccess.AccessWasGranted` | source/host/common_hal/osi/onebox_common_pwr_mngr.c:168-323 | over whole runs: a protocol that had no access and now has it was granted it |
| `GateAccess.GrantGivesAccess` | source/host/common_hal/osi/onebox_common_pwr_mngr.c:168-323 | over whole runs: after every grant its protocol has access |
| `GateRounds.ClosedInAckRound` | source/host/common_hal/osi/onebox_common_tx.c:296-411 | over whole runs: an acknowledgement was sent before each closing and in the same round of the transmit thread, of whichever entry |
| `GateInvariant.LocksExclude` | source/host/common_hal/osi/onebox_common_tx.c:374-420 | neither lock is ever held by two threads |
| `GateInvariant.StepKeepsInv` | source/host/common_hal/osi/onebox_common_pwr_mngr.c:168-323 | any step of any thread, and any change the protocols make meanwhile, keeps the invariant |
| `GateInvariant.OthersUndisturbed` | source/host/common_hal/osi/onebox_common_pwr_mngr.c:168-323 | a step that keeps to its guarantees leaves every other thread what it relies on |
| `GateRuns.NoWriteWhileClosed` | source/host/common_hal/osi/onebox_common_tx.c:392-411 | over whole runs: between a closing of the gate and a checked WLAN or VIP write there is an opening |
| `GateRuns.GrantsWhileOpen` | source/host/common_hal/osi/onebox_common_pwr_mngr.c:182-194 | over whole runs: every grant outside of card ready handling was made with the gate open and no acknowledgement out |
| `GateRuns.AcksCarryToken` | source/host/common_hal/osi/onebox_common_pwr_mngr.c:139-145 | over whole runs: an acknowledgement carries the latest entry's token, or the sentinel, and the sentinel if and only if a sleep exit was waiting for the lock |
| `GateRuns.AcksWithinEntries` | source/host/common_hal/osi/onebox_common_pwr_mngr.c:168-199 | over whole runs no more acknowledgements are queued than sleep entries were received |
| `GateRuns.RunsObserved` | source/host/common_hal/osi/onebox_common_rx.c:92-122 | every observation of every run is one that the state of the gate allowed then, and the gate is as the observations say |
| `GateRuns.StepCredit` | source/host/common_hal/osi/onebox_common_pwr_mngr.c:300-317 | a step never makes the acknowledgements that are owed or allowed exceed the entries received |
| `GateClosings.ClosedWithFlagClearExactly` | source/host/common_hal/osi/onebox_common_tx.c:369-411 | over whole runs: the gate closes with the acknowledgement flag clear if and only if the last of the acknowledgements queued, the closings, and the openings by an exit or a contested entry before it is such an opening, or there is none |
| `GateEntries.ClosedUnacknowledgedExactly` | source/host/common_hal/osi/onebox_common_tx.c:369-411 | over whole runs, at a closing: there was a sleep entry, and no acknowledgement was queued since the latest if and only if the flag was clear, or that entry found no buffer and none was queued after it, or the gate had been closed for that entry before; equally, if and only if the last answer to an entry was a contest or a missing buffer |
| `GateEntries.RunsAnswer` | source/host/common_hal/osi/onebox_common_pwr_mngr.c:114-229 | in every state of every run: an entry is contested or refused only before it is answered, an acknowledgement goes only to a sleeping firmware, and the gate closes only after an answer |
| `GateFrames.NoWriteFromPacketOn` | source/host/common_hal/osi/onebox_common_tx.c:374-420 | over whole runs: a closing follows a packet of the transmit thread with no other frame between, and from that packet on no checked WLAN or VIP frame is written before an opening |
| `GateClosings.RunsKeepClosings` | source/host/common_hal/osi/onebox_common_pwr_mngr.c:136-229 | in every state of every run each closing recorded whether the acknowledgement flag was set as the earlier observations say, and so is the flag now |
| `GateTokens.AcksCarryLatestToken` | source/host/common_hal/osi/onebox_common_rx.c:100-118 | when no other thread moves while a notify waits for the lock, every acknowledgement carries the latest token, below 0x1000 and never the sentinel |
| `GateWakeups.NoLostWakeup` | source/host/common_hal/osi/onebox_common_tx.c:511-541 | in runs without a timed-out grant wait, a queue that is not empty means a set event, a thread about to set it, or a probe of that queue still to come |
| `GateWakeups.SleepsOnlyWhenIdle` | source/host/common_hal/osi/onebox_common_tx.c:266-274 | so when the transmit thread sleeps with its event clear and nobody about to set it, every queue is empty |
| `GateWakeups.RunsKeepWake` | source/host/common_hal/osi/onebox_common_tx.c:305-327 | the wake-up invariant holds in every state of every run, and the queue that is being served still holds its packet |
| `GateWitness.SentinelCanLeave` | source/host/common_hal/osi/onebox_common_pwr_mngr.c:136-149 | there is a run in which an acknowledgement with the sentinel token is queued |
| `GateWitness.StaleFlagClosesGate` | source/host/common_hal/osi/onebox_common_tx.c:302-411 | a run that ends in a contested entry, an ordinary packet sent with the local flag already set, and a closing with the shared flag clear: of two entries one was acknowledged, and nothing waits in the queue |
| `GateWitness.OldAckClosesGate` | source/host/common_hal/osi/onebox_common_tx.c:302-411 | the same with a clear local flag: the packet is the late acknowledgement of the entry before the exit |
| `GateWitness.RefusedEntryClosesGate` | source/host/common_hal/osi/onebox_common_pwr_mngr.c:114-199 | a run with no exit between two entries, of which the second finds no buffer: the gate closes behind the acknowledgement of the first, with the shared flag set |
| `GateWitness.SecondClosing` | source/host/common_hal/osi/onebox_common_tx.c:302-411 | a run in which the gate is closed twice for one contested entry, the second time with the shared flag set by the first |
| `GateCode.Moves` | source/host/common_hal/osi/onebox_common_pwr_mngr.c:168-323 | a thread that runs alone takes exactly the steps of the machine |
| `GateCode.Assets.ProtocolTxAccess` | source/host/common_hal/osi/onebox_common_pwr_mngr.c:27-36 | tells whether any active protocol wants to transmit |
| `GateCode.Assets.SendUlpSleepAck` | source/host/common_hal/osi/onebox_common_pwr_mngr.c:114-157 | queues one acknowledgement and sets flag and event, or changes nothing when no buffer is to be had; the steps are the machine's |
| `GateCode.Assets.SleepEntryRecvd` | source/host/common_hal/osi/onebox_common_pwr_mngr.c:168-199 | opens the gate, clears the flag and grants access to exactly those that wait if a protocol wants to transmit; otherwise acknowledges, or leaves flag, event and queues alone when no buffer is to be had |
| `GateCode.Assets.SleepExitRecvd` | source/host/common_hal/osi/onebox_common_pwr_mngr.c:206-229 | ends sleep, opens the gate, clears the flag, and then grants access to exactly those that wait |
| `GateCode.Assets.WakeUps` | source/host/common_hal/osi/onebox_common_pwr_mngr.c:219-227 | grants access to exactly the active protocols that wait, and to no other |
| `GateCode.Assets.UpdateTxStatus` | source/host/common_hal/osi/onebox_common_pwr_mngr.c:241-323 | grants access iff the gate is open and no acknowledgement out; without an intention acknowledges iff asleep, not yet acknowledged and nobody wants to transmit |
| `GateCode.Assets.ProcessUlpSleepNotify` | source/host/common_hal/osi/onebox_common_rx.c:92-122 | tells entry from exit by bit 0 and takes the token from the upper twelve bits; the gate, the flag, the grants and the queue are then as the entry or the exit leaves them |
| `GateCode.Assets.GetQueueNum` | source/host/common_hal/osi/onebox_common_tx.c:511-541 | returns the first queue that is not empty in the order VIP, coex, Bluetooth, ZigBee, WLAN |
| `GateCode.Assets.DequeuePkt` | source/host/common_hal/osi/onebox_common_tx.c:489-503 | takes the first packet of the queue and no other |
| `GateCode.Assets.SendPacket` | source/host/common_hal/osi/onebox_common_tx.c:369-427 | sends the first packet; the gate closes behind it iff it was not refused, the flag is set by it or an earlier one, and sleep was asked for |
| `GateCode.Assets.ClaimAccess` | source/host/common_hal/osi/onebox_common_tx.c:325-341 | gets access when the protocol had it or gate and flag allow it; alone it otherwise times out, with the request for a grant left behind |
| `GateCode.Assets.GiveUpAccess` | source/host/common_hal/osi/onebox_common_tx.c:309-320 | drops intention and access of one protocol that saves power, and of no other, and acknowledges if and only if sleep was asked for, not yet acknowledged, nobody wants to transmit and a buffer is to be had |
| `GateCode.Assets.CoexPktProcessor` | source/host/common_hal/osi/onebox_common_tx.c:296-430 | writes the packets that are not refused in the order VIP, coex, Bluetooth, ZigBee, WLAN, until nothing is queued but acknowledgements with the event set and the power-saving protocols have given up access; or until a Bluetooth or ZigBee protocol has asked for access and not got it, and then the rest is still queued |
| `GateCode.Assets.TransmitTurn` | source/host/common_hal/osi/onebox_common_tx.c:266-274 | the same for a turn of the thread whose event is set: the event is reset before the queues are looked at |
| `GateCode.Assets.SendDirectly` | source/host/common_hal/osi/onebox_common_tx.c:127-198 | writes the frame if and only if, in WiFi mode, the firmware is active, the protocol has access and the gate is open |
| `GateCode.Assets.SendQueued` | source/host/common_hal/osi/onebox_common_tx.c:141-149 | appends the packet to its queue and sets the event |
| `GateCode.Assets.CardReadyRecvd` | source/host/common_hal/osi/onebox_common_rx.c:148-170 | opens the gate, and grants access to the one protocol that reported if and only if it waits and its module is active |
| `GateCode.InOrderIs` | source/host/common_hal/osi/onebox_common_tx.c:511-541 | the order in which packets are served is all of VIP, then coex, Bluetooth, ZigBee and WLAN |
| `GateCode.KeptInOrder` | source/host/common_hal/osi/onebox_common_tx.c:369-392 | a packet is written if and only if it is not refused, and packets keep their order |
| `HostTransfer.CheckFrame` | source/host/common_hal/osi/onebox_common_rx.c:569-664 | the interlocking checks on one frame; an accepted one is not empty and fits in what is left of the transfer; that those are the frames of the format is `AcceptedFrame` and `FrameAccepted`, byte by byte `WellFormedExactly` |
| `HostTransfer.ProcessAggregated` | source/host/common_hal/osi/onebox_common_rx.c:549-714 | delivers, panics or runs out of buffers exactly as the frame-by-frame parse says, and the remaining length never wraps |
| `HostTransfer.LayoutIsDelivered` | source/host/common_hal/osi/onebox_common_rx.c:598-625 | any non-empty list of well-formed frames laid out back to back is delivered exactly and in order |
| `HostTransfer.DeliveredIsTiled` | source/host/common_hal/osi/onebox_common_rx.c:626-700 | success means that the transfer is tiled exactly by well-formed frames, whose payloads are what was delivered |
| `HostTransfer.SucceedsExactlyOnLayouts` | source/host/common_hal/osi/onebox_common_rx.c:568-714 | the loop succeeds if and only if the transfer is such a layout |
| `HostTransfer.DeliversExactlyLeading` | source/host/common_hal/osi/onebox_common_rx.c:568-714 | the loop delivers m frames at least if and only if the transfer starts with m well-formed frames, whatever follows them |
| `HostTransfer.LeadingAreDelivered` | source/host/common_hal/osi/onebox_common_rx.c:598-700 | the frames that a transfer starts with are delivered exactly and in order, also when a later one fails |
| `HostTransfer.AtMostOneFramePerBlock` | source/host/common_hal/osi/onebox_common_rx.c:631-635 | over SDIO a successful transfer holds at least one and at most as many frames as it has blocks of 256 bytes |
| `HostTransfer.FrameAccepted` | source/host/common_hal/osi/onebox_common_rx.c:569-664 | a well-formed frame passes every check when nothing or room for another frame follows it |
| `HostTransfer.AcceptedFrame` | source/host/common_hal/osi/onebox_common_rx.c:569-664 | a frame that passes every check is a well-formed frame of the format |
| `HostTransfer.WellFormedExactly` | source/host/common_hal/osi/onebox_common_rx.c:549-664 | a frame is well formed if and only if, byte by byte: the descriptor says the payload's length in twelve bits, at most 2304 or 4096, an extended descriptor is no longer than that, and the padding is what is missing to a whole block of 256 bytes on SDIO or a whole word on USB |
| `HostTransfer.EncodedBytes` | source/host/common_hal/osi/onebox_common_rx.c:598-625 | a frame starts with its padded length and the offset of its descriptor, low byte first |
| `HostTransfer.SmallFramesFillBlocks` | source/host/common_hal/osi/onebox_common_rx.c:631-700 | over SDIO any k well-formed frames that fit in a block each take exactly k blocks and are delivered |
| `RxPath.PanicsExactlyOnViolation` | source/host/common_hal/osi/onebox_common_rx.c:1040-1127 | a read panics if and only if the driver has not stopped, the block register could be read, and the transfer has no blocks, cannot be read, or does not hold frames of the format: a list of them, more of them than there are buffers, or one that comes alone |
| `RxPath.PassesExactlyFrames` | source/host/common_hal/osi/onebox_common_rx.c:1040-1127 | the checks on a frame that comes alone pass if and only if the transfer starts with a frame of the format, on SDIO with its padded length |
| `RxPath.FrameIsDelivered` | source/host/common_hal/osi/onebox_common_rx.c:1040-1127 | the packet of such a frame is its descriptor and payload |
| `RxPath.FailsExactlyOnNoFrames` | source/host/common_hal/osi/onebox_common_rx.c:1128-1149 | an aggregated transfer ends in a panic if and only if it is neither a list of well-formed frames nor starts with more of them than there are buffers |
| `RxPath.HandledAfterReport` | source/host/common_hal/osi/onebox_common_rx.c:736-915 | over whole runs from a state without active firmware: no packet is handled for a protocol before the card-ready packet of that protocol was deployed |
| `RxPath.ActiveAfterReport` | source/host/common_hal/osi/onebox_common_rx.c:736-915 | over whole runs: a firmware that was inactive and now is active had its card-ready packet deployed, with the card there |
| `RxPath.HandledExactly` | source/host/common_hal/osi/onebox_common_rx.c:736-915 | a deployment hands the packet over, and only that one, if and only if it is for the coex layer, or its firmware and module are active and Bluetooth is not being deregistered |
| `RxPath.ActivatedExactly` | source/host/common_hal/osi/onebox_common_rx.c:736-915 | a deployment makes a firmware active if and only if the packet is that protocol's card-ready packet, and none inactive |
| `RxPath.DeployedLeaves` | source/host/common_hal/osi/onebox_common_rx.c:736-915 | the card-ready packet of Bluetooth ends its deregistration, and a deployment changes nothing but that, the firmwares and the history |
| `RxPath.PanicIsAbsorbing` | source/host/common_hal/osi/onebox_common_rx.c:340-363 | after a panic no run of reads and deployments calls a handler or activates a firmware, and in WiFi mode every WLAN or VIP send is refused |
| `RxPath.Adapter.PanicStopAll` | source/host/common_hal/osi/onebox_common_rx.c:340-363 | stops writes, detaches the card and makes every firmware inactive |
| `RxPath.Adapter.ReadPkt` | source/host/common_hal/osi/onebox_common_rx.c:989-1152 | reads a transfer with the outcome of the specification, block count and protocol from the interrupt status or the register; what that queues is `RxQueueing` |
| `RxQueueing.ReadFrames` | source/host/common_hal/osi/onebox_common_rx.c:989-1152 | a read of an aggregated transfer that is a list of well-formed frames, with buffers for them, appends exactly their bodies to the queue, one packet each and in order, and changes nothing else |
| `RxQueueing.ReadQueuesLayout` | source/host/common_hal/osi/onebox_common_rx.c:1128-1149 | the same for the specification of the read |
| `RxQueueing.ReadQueuesLeading` | source/host/common_hal/osi/onebox_common_rx.c:687-693 | when the buffers run out, as many of the leading frames are queued as there were buffers, and the driver goes on |
| `RxQueueing.ReadQueuesBeforePanic` | source/host/common_hal/osi/onebox_common_rx.c:1128-1149 | when a frame fails, exactly the well-formed frames in front of it are queued and the driver stops |
| `RxQueueing.ReadQueuesFrame` | source/host/common_hal/osi/onebox_common_rx.c:1040-1127 | a frame that comes alone is queued as one packet, its descriptor and payload, unless more than 1000 wait |
| `RxQueueing.ReadQueuesZigbee` | source/host/common_hal/osi/onebox_common_rx.c:1040-1127 | a transfer for ZigBee is queued whole |
| `RxQueueing.BlocksAndProtocol` | source/host/common_hal/osi/onebox_common_rx.c:1005-1032 | the number of blocks is bit 0 and the high nibble of the interrupt status, or the low five bits of the register below the protocol |
| `RxQueueing.QueueKeepsOrder` | source/host/common_hal/osi/onebox_common_rx.c:926-975 | over whole runs: what was queued is what was deployed followed by what waits, once each and in order |
| `RxQueueing.HandledInOrder` | source/host/common_hal/osi/onebox_common_rx.c:736-915 | over whole runs: what was handled is a subsequence of what was deployed |
| `RxPath.Adapter.ProcessTransfer` | source/host/common_hal/osi/onebox_common_rx.c:1128-1149 | queues the packets of a transfer for deployment, or panics, as the specification says; what that queues is `RxQueueing.ReadQueuesLayout` and the lemmas beside it |
| `RxPath.Adapter.SendDirect` | source/host/common_hal/osi/onebox_common_tx.c:150-198 | outside of WiFi mode or while flashing writes every frame, and otherwise one of WLAN, VIP or EAPOL, ZigBee or Bluetooth if and only if that firmware is active, has access and the gate is open |
| `Flash.BurnGivesImage` | source/host/common_hal/osi/onebox_flashing.c:469-519 | whatever the flash held, the frames of an image at a sector-aligned start leave the image in place, erase the rest of its last sector and change nothing else |
| `Flash.BurnedStep` | source/host/common_hal/osi/onebox_flashing.c:476-518 | each frame keeps: the image so far, all bits set up to the end of its last sector, everything else as before |
| `Flash.ChunkInSector` | source/host/common_hal/osi/onebox_flashing.c:483-489 | the erase flag is set exactly on the chunks that begin a sector |
| `Flash.ErasesFromHere` | source/host/common_hal/osi/onebox_flashing.c:483-489 | with a sector-aligned start the sector that is erased begins at the frame's own offset |
| `Flash.SectorsOfImage` | source/host/common_hal/osi/onebox_flashing.c:469-480 | the sectors begun by all the frames are those the image reaches into, and no more |
| `Flash.ApplyFrame` | source/host/common_hal/osi/onebox_flashing.c:492-516 | the offsets never wrap for an image inside the 32-bit address space |
| `FlashHost.Burner.TriggerAutoFlashBurn` | source/host/common_hal/osi/onebox_flashing.c:456-531 | succeeds if and only if no frame was refused and no wait timed out; success means all frames sent, fewer than 256, and as many unconfirmed as the count and the late confirms at the start determine; from a clean start none, and the flash is as after all of them |
| `FlashHost.Burner.SendChunk` | source/host/common_hal/osi/onebox_flashing.c:476-518 | sends the frame of its chunk, none out of order, within the bound on unconfirmed frames that the count and the late confirms at the start allow |
| `FlashHost.Burner.Throttle` | source/host/common_hal/osi/onebox_flashing.c:498-509 | returns only when so few frames are unconfirmed, or fails; the difference of the counts is unsigned |
| `FlashHost.Burner.AwaitConfirms` | source/host/common_hal/osi/onebox_flashing.c:520-528 | ends in success only with fewer than 256 frames, and as many unconfirmed as were late and as the count was ahead at the start, modulo 256 |
| `FlashHost.ExitsExactly` | source/host/common_hal/osi/onebox_flashing.c:520-528 | the closing loop ends if and only if there are fewer than 256 frames and, modulo 256, as many are unconfirmed as were late and as the count was ahead |
| `FlashHost.LeavesNothingExactly` | source/host/common_hal/osi/onebox_flashing.c:464-531 | success is possible and leaves nothing unconfirmed if and only if the count is 0 and no confirm late, or the count is at least 2 and makes 256 with the number of late ones |
| `FlashHost.UncleanEndsEarly` | source/host/common_hal/osi/onebox_flashing.c:520-528 | from any other start from which success is possible a burn of one frame ends before all are confirmed |
| `FlashHost.LeavesOnTime` | source/host/common_hal/osi/onebox_flashing.c:464-531 | with no late confirms a success leaves exactly as many unconfirmed as the count at the start, and there is none from a count of two or more |
| `FlashHost.PassesUnwaited` | source/host/common_hal/osi/onebox_flashing.c:498-509 | no wait follows a send only if that many frames are unconfirmed, or one more, or the count has wrapped around |
| `FlashHost.StaleCountEndsBurn` | source/host/common_hal/osi/onebox_flashing.c:498-528 | from a count of 1 a burn of one frame neither waits nor holds at the end before that frame is confirmed |
| `FlashHost.Burner.ConfirmWrite` | source/host/common_hal/osi/onebox_common_rx.c:239-245 | a confirm counts one frame, modulo 256, and sets the event |
| `FlashHost.Burner.AnswerRead` | source/host/common_hal/osi/onebox_common_rx.c:246-262 | an answer of the length that was asked for lands in the receive buffer and sets the event |
| `FlashHost.Burner.VerifyFlashContent` | source/host/common_hal/osi/onebox_flashing.c:533-627 | with no frame unconfirmed and every read answered, succeeds if and only if the flash holds the image over the whole range; success means that every read was answered |
| `FlashHost.Burner.CompareChunk` | source/host/common_hal/osi/onebox_flashing.c:571-624 | with no frame unconfirmed and the read answered, a chunk passes if and only if what the device returned for it equals the image there |
| `FlashHost.Burner.AutoLoadFlashContent` | source/host/common_hal/osi/onebox_flashing.c:1130-1216 | nothing is sent unless size and start are allowed, and no frame lies in the first sector or beyond the flash unless start and size wrap around; success from a clean start means that the image was burned and verified; an allowed image inside the flash then succeeds if and only if nothing was refused and no wait timed out |
| `FlashHost.LoadAllowedExactly` | source/host/common_hal/osi/onebox_flashing.c:1158-1179 | allowed are images of at most 400 KiB with a sector-aligned start above the first sector, whose end is inside the flash or wraps around 32 bits |
| `FlashHost.WrappedStartAllowed` | source/host/common_hal/osi/onebox_flashing.c:1176-1179 | a start close to the end of the address space that is allowed |
| `FlashHost.FramesInFlash` | source/host/common_hal/osi/onebox_flashing.c:483-516 | unless that wraps, each frame of an allowed burn lies behind the first sector and inside the flash, at the start plus 4096 bytes for each before it |
| `FlashHost.BurnsBehindEarlier` | source/host/common_hal/osi/onebox_flashing.c:456-531 | late frames of an earlier burn do not keep this one's image from being in place |
| `FlashHost.NextChunk` | source/host/common_hal/osi/onebox_flashing.c:515-516 | the running 32-bit offset and remaining size agree with the chunk index |
| `Bootloader.HandedCoverImage` | source/host/common_hal/osi/onebox_flashing.c:1071-1105 | what the announced buffers held at that moment, one behind the other, starts with the part of the image that they cover |
| `Bootloader.PiecesInTurn` | source/host/common_hal/osi/onebox_flashing.c:1077-1112 | the k-th buffer handed over is PONG for even k and PING for odd, and holds the k-th 4096 bytes of the image, and each but the first was offered by the latest reply |
| `Bootloader.AnnouncedInTurn` | source/host/common_hal/osi/onebox_flashing.c:1077-1112 | the commands that announce them are `O` and `I` in turn |
| `Bootloader.Host.BlWriteCmd` | source/host/common_hal/osi/onebox_common_devops.c:169-245 | writes the command only when the input register was seen free and clears the output register only when it held a reply; success, reply, timer and what is written are those of the register accesses that the bus answers, and the bootloader is handed what the announced buffer holds at that moment |
| `Bootloader.ReplyTaken` | source/host/common_hal/osi/onebox_common_devops.c:169-245 | a reply is taken if and only if the first valid answer of the output register carries it, behind a command written at the first free answer of the input register, all before the timer runs out, whatever was expected |
| `Bootloader.WrittenWhenFree` | source/host/common_hal/osi/onebox_common_devops.c:169-205 | a command is written if and only if an access finds no valid mark in the input register, in time and before any fails, and the write behind it succeeds |
| `Bootloader.ExchangeMeaning` | source/host/common_hal/osi/onebox_common_devops.c:169-245 | success means that the command was written and the expected reply taken, for the commands that have one |
| `Bootloader.Host.BlCmd` | source/host/common_hal/osi/onebox_common_devops.c:123-143 | the same from a fresh timer; a success leaves the timer off |
| `Bootloader.Host.LoadBuffer` | source/host/common_hal/osi/onebox_common_devops.c:266-270 | a buffer is written only before the first announcement or when the latest reply offered it; it succeeds if and only if no transfer failed, and then the data is there and all other memory as it was |
| `Bootloader.Host.PingPongWrite` | source/host/common_hal/osi/onebox_common_devops.c:247-285 | succeeds if and only if no transfer and no exchange failed; then the buffer holds the data and nothing else changed, it held them when it was announced, and the other one was offered |
| `Bootloader.Host.SendPiece` | source/host/common_hal/osi/onebox_flashing.c:1093-1112 | the k-th piece is in the buffer that was offered when that is announced, and the next buffer is offered after it |
| `Bootloader.Host.SendPieces` | source/host/common_hal/osi/onebox_flashing.c:1077-1117 | the pieces alternate between the buffers from PONG on; unless a transfer or an exchange fails, what the buffers held when announced concatenates to the image, each announced in turn |
| `Bootloader.Host.AutoFwUpgrade` | source/host/common_hal/osi/onebox_flashing.c:1022-1128 | succeeds if and only if the image is acceptable and no transfer and no exchange failed; an image that is not acceptable sends nothing; success means that the buffers held the whole image when announced, in order, then end of file, and the bootloader's success |
| `Bootloader.Host.Acceptable` | source/host/common_hal/osi/onebox_flashing.c:1035-1064 | acceptable are images of at most 400 KiB with a sector-aligned start at or above the minimum, whose end is inside the flash, or wraps around 32 bits and is inside then |
| `SblLoad.Sbl.WriteBlHeader` | source/host/common_hal/osi/onebox_common_devops.c:293-341 | succeeds if and only if no transfer failed; then the header of the image is in the PING buffer and nothing else changed |
| `SblLoad.HeaderFields` | source/host/common_hal/osi/onebox_common_devops.c:300-318 | the header word by word: zero, the coex mode, and the image's words at 20, 16 and 8, of which the second is the flash start address |
| `SblLoad.Sbl.RpsImageHeader` | source/host/common_hal/osi/onebox_common_devops.c:499-507 | in both modes that start from flash the header is in the PING buffer when the check is asked for; success is decided by the transfers, the exchanges and the reply to the check |
| `SblLoad.Sbl.LoadTaInstructions` | source/host/common_hal/osi/onebox_common_devops.c:65-122 | the program memory is loaded at its base, padded to whole words |
| `SblLoad.Sbl.PollingModeCmd` | source/host/common_hal/osi/onebox_common_devops.c:535-562 | polling is followed by the load of the hosted firmware, or by the program memory and the jump to it, by mode; from flash it succeeds if and only if both commands do |
| `SblLoad.Sbl.FwUpgrade` | source/host/common_hal/osi/onebox_common_devops.c:564-576 | succeeds if and only if the image is acceptable and no transfer and no exchange failed; then the buffers held the whole image when announced and its load was commanded |
| `SblLoad.Sbl.CheckCrcCmd` | source/host/common_hal/osi/onebox_common_devops.c:508-526 | the command behind the check is the upgrade if and only if the reply was taken and says failed; on any other reply, or none, a load from flash succeeds if and only if polling and load do |
| `SblLoad.StartsWithoutCheck` | source/host/common_hal/osi/onebox_common_devops.c:508-526 | accesses of the bus for which the firmware starts although the check was never asked for |
| `SblLoad.StartsOnOtherReply` | source/host/common_hal/osi/onebox_common_devops.c:508-526 | accesses for which it starts on a reply that is neither pass nor fail |
| `SblLoad.Sbl.BurnBootloader` | source/host/common_hal/osi/onebox_common_devops.c:578-612 | succeeds if and only if the image is acceptable and no transfer, exchange or master read failed; then the buffers held the whole bootloader image when announced, and the automatic read mode is restored |
| `SblLoad.Sbl.LoadFwThruSbl` | source/host/common_hal/osi/onebox_common_devops.c:408-649 | by mode and by the reply to the check, exactly when a load succeeds, which commands it has given and in which order, and what it has loaded; whenever the check was asked for, whether or not the load succeeds, the PING buffer held the header of the image; the timer is off at every end |
| `SblLoad.LoadFirmware` | source/host/common_hal/osi/onebox_common_devops.c:408-649 | the same for a driver that is set up for a device, with no precondition on its state: the header that was checked is given field by field |
| `Loader.Device.MasterAccessMsword` | source/host/common_hal/osi/onebox_sdio_devops.c:291-325 | succeeds if and only if no write failed, and then the window register holds the word |
| `Loader.Device.SdioLoadDataMasterWrite` | source/host/common_hal/osi/onebox_sdio_devops.c:31-107 | succeeds if and only if no transfer failed, and leaves exactly the image at the base and nothing else changed; every transfer went through the window of its address; a failure leaves a prefix |
| `Loader.Device.UsbLoadDataMasterWrite` | source/host/common_hal/osi/onebox_usb_devops.c:36-89 | succeeds if and only if no transfer failed, and leaves exactly the image at the base and nothing else changed: the same memory as over SDIO |
| `Loader.LoadedExactly` | source/host/common_hal/osi/onebox_usb_devops.c:36-89 | what is left is meant byte by byte: the image in its range and the former memory everywhere else |
| `Loader.Device.FollowWindow` | source/host/common_hal/osi/onebox_sdio_devops.c:67-79 | the window register follows the address across a 64 KiB boundary |
| `Loader.Device.SdioTransfer` | source/host/common_hal/osi/onebox_sdio_devops.c:54-64 | a transfer through the window stores at the full address |
| `Loader.AlignedBlockFits` | source/host/common_hal/osi/onebox_sdio_devops.c:50-81 | a block at an aligned address does not cross the end of its window |
| `Loader.AlignedBelow` | source/host/common_hal/osi/onebox_sdio_devops.c:50-81 | the same for any multiple of a block size that divides the window |
| `Pager.Window.GetLine` | source/host/config/lxdialog/textbox.c:489-535 | returns the line at the cursor, cut to 2048 characters, moves to the next line start across any number of refills, and sets the end flag exactly behind the last line |
| `Pager.Window.ScanLineEnd` | source/host/config/lxdialog/textbox.c:495-524 | the scan stops at the newline or the end of the file, and has copied what it passed |
| `Pager.Window.BackLines` | source/host/config/lxdialog/textbox.c:327-435 | goes back exactly n line starts from the cursor, which the end flag puts one line further, or to the start of the file across any number of refills, and never meets its internal error; with the end flag and n = 0 it goes one character past the position |
| `Pager.Window.BackToNewline` | source/host/config/lxdialog/textbox.c:391-433 | finds the newline before the position, or the start of the file |
| `Pager.Window.SlideBack` | source/host/config/lxdialog/textbox.c:339-382 | slides the window back and keeps the position |
| `Pager.Window.ReadAt` | source/host/config/lxdialog/textbox.c:505-514 | after a refill the buffer agrees with the file and the position is kept |
| `Pager.Window.TakePage` | source/host/config/lxdialog/textbox.c:440-454 | fetches the rows of a page and counts them up to the end of the file |
| `Pager.Window.Press` | source/host/config/lxdialog/textbox.c:136-314 | every key leaves the screen, the flags and the page length in agreement with the page from its new first line |
| `Pager.Window.PressHome` | source/host/config/lxdialog/textbox.c:145-177 | shows the first page |
| `Pager.Window.PressEnd` | source/host/config/lxdialog/textbox.c:178-210 | shows the last page; in a dialog without text rows the cursor goes one character past the end of the file |
| `Pager.Window.PressUp` | source/host/config/lxdialog/textbox.c:211-245 | shows the page one line up, its first row printed and the others scrolled |
| `Pager.Window.PressDown` | source/host/config/lxdialog/textbox.c:257-271 | shows the page one line down, its last row printed and the others scrolled |
| `Pager.Window.Run` | source/host/config/lxdialog/textbox.c:134-320 | the same for any sequence of keys |
| `Pager.KeysUndone` | source/host/config/lxdialog/textbox.c:211-314 | away from the ends of the file, down and up, and page down and page up, undo each other |
| `Pager.KeysStop` | source/host/config/lxdialog/textbox.c:145-314 | at the first page the keys that go back do nothing, and at the last one, which ends with the last line, those that go on |
| `Pager.PagesFollow` | source/host/config/lxdialog/textbox.c:272-293 | after n page downs from the start the first row is line n times the height, so that every line is shown in its turn |
| `Pager.LinesJoin` | source/host/config/lxdialog/textbox.c:489-535 | the lines with their newlines, one behind the other, are the file, and no newline is inside a line |
| `Pager.Window.constructor` | source/host/config/lxdialog/textbox.c:45-135 | the first page is shown; a dialog of at most four rows shows nothing |
| `Pager.Window.PageAndBack` | source/host/config/lxdialog/textbox.c:294-311 | a page printed from any line start, and going back by its length, end at that line start, passed the end of the file or not and whatever the flags were |
| `Pager.Window.BackOverPage` | source/host/config/lxdialog/textbox.c:211-311 | going back by the page length and n lines more ends n lines above the page that is shown |
| `Pager.StartIsUnique` | source/host/config/lxdialog/textbox.c:327-435 | a line start is the start of the line whose number is the count of newlines before it |
| `Pager.StartNumbers` | source/host/config/lxdialog/textbox.c:489-535 | line c starts behind exactly c newlines, and behind the last line there is only the end |
| `Pager.LastLineEnds` | source/host/config/lxdialog/textbox.c:515-519 | only the last line ends without a newline |
| `Checksum.EndAroundAdd` | source/host/common_hal/osi/checksum_onescompliment.c:20-29 | the sum modulo 2^32 with the carry added back, which never overflows |
| `Checksum.Accumulate` | source/host/common_hal/osi/checksum_onescompliment.c:20-29 | the step as it is written adds with end-around carry |
| `Checksum.ChecksumAddition` | source/host/common_hal/osi/checksum_onescompliment.c:4-47 | for every buffer, length and previous sum: 0 if the total is 0, and otherwise 1 + (total - 1) mod (2^32 - 1) |
| `Checksum.Checksum32Bit` | source/host/common_hal/osi/checksum_onescompliment.c:49-65 | the complement of that for the total of all scatter elements |
| `Checksum.MaskedWord` | source/host/common_hal/osi/checksum_onescompliment.c:34-38 | masking the last word reads its remaining bytes alone |
| `Checksum.ReorderScatters` | source/host/common_hal/osi/checksum_onescompliment.c:56-64 | the checksum does not depend on the order of the scatter elements |
| `Checksum.SplitScatter` | source/host/common_hal/osi/checksum_onescompliment.c:56-64 | nor on cutting one of them after a multiple of four bytes |
| `Checksum.AppendedChecksumVerifies` | source/host/common_hal/osi/checksum_onescompliment.c:49-65 | data followed by its checksum word sums to 0 |
| `Checksum.CollisionExactly` | source/host/common_hal/osi/checksum_onescompliment.c:16-65 | replacing one aligned word goes unnoticed if and only if the words are 0 and 0xFFFFFFFF and the rest of the sum is not 0 |
| `Bytes.Bytes32` | source/host/common_hal/osi/checksum_onescompliment.c:20-20 | a 32-bit word written least significant byte first reads back |
| `Bytes.WrapAround` | source/host/common_hal/osi/onebox_flashing.c:515-515 | the 32-bit sums and differences are those modulo 2^32 |
| `BerRing.DeliveredInOrder` | source/host/bt/osi_bt/onebox_bt.c:363-454 | after arming a drained ring, deliveries are the accepted packets once each, in order, with sequence bytes from 0 on, and what is left is the queue |
| `BerRing.TooLongBlocks` | source/host/bt/osi_bt/onebox_bt.c:404-409 | once a packet over 1032 bytes is in front nothing is delivered any more |
| `BerRing.ReplyIntactExactly` | source/host/bt/osi_bt/onebox_bt.c:411-416 | a reply carries its packet unchanged if and only if the packet has at most 1029 bytes or the count happens to equal the bytes it overwrites |
| `BerRing.Ring.Arm` | source/host/bt/osi_bt/onebox_bt.c:363-377 | arming empties the slots that the new packets may take and keeps the number of those waiting: the ring is ready for the new run if and only if it was drained |
| `BerRing.ArmingEndsExactly` | source/host/bt/osi_bt/onebox_bt.c:363-377 | the loop that arms the ring, with an index of eight bits, ends if and only if the count is at most 255 |
| `BerRing.Ring.Receive` | source/host/bt/osi_bt/onebox_bt_rx.c:940-981 | the ring takes the packet that the queue takes, and drops none |
| `BerRing.Ring.Fetch` | source/host/bt/osi_bt/onebox_bt.c:378-454 | a packet is delivered if and only if one waits and has at most 1032 bytes; the reply has its length twice, the sequence byte, and the packet up to its 1029th byte; a refused one uses up a sequence byte |
| `BerRing.ReplySays` | source/host/bt/osi_bt/onebox_bt.c:398-416 | a reply is its length, the sequence byte, the length again and the packet, except that the count of packets overwrites the 1030th and 1031st byte |
| `BerRing.FetchAll` | source/host/bt/osi_bt/onebox_bt.c:363-454 | for any run from arming on: the i-th reply sent has sequence byte i and the i-th accepted packet, unchanged up to 1029 bytes |
| `BerRing.AcceptedAreFirst` | source/host/bt/osi_bt/onebox_bt_rx.c:940-981 | the accepted packets are the first that came, as many as were armed for |
| `BerRing.Ring.FillReply` | source/host/bt/include/linux/bt_common.h:287-291 | the reply's bytes after all the stores into its structure, which is said byte by byte by `BerRing.ReplySays` |
| `BerRing.FrontOccupied` | source/host/bt/osi_bt/onebox_bt.c:418-426 | freeing the slot in front keeps the used slots the cyclic range from the pop index |

## Left out

- SblLoad.Sbl.BurnBootloader: reading the calibration data, and the verification by master reads that follows the burn, are one unknown outcome each, as master reads go to code that is not part of this model.
- SblLoad.Sbl.LoadFwThruSbl: which file is opened for which mode, the version numbers copied from it, and a file that cannot be opened are not modelled.
- GateCode.Assets.CoexPktProcessor: runs without interruption; the wait for a grant then ends by its timeout. Everything that comes between its statements is in the machine, `CoexGate`. That no packet is lost or overtaken in a queue then is `GateQueues.QueuesKeepOrder`.
- GateWakeups.NoLostWakeup: says nothing about runs in which a Bluetooth or ZigBee grant wait times out; the code then leaves the packet queued until the next event.
- CoexGate.RxStep: a card ready is only the opening of the gate and one grant, which the code makes without looking at the acknowledgement; the state machine of the common HAL before it is left out.
- CoexGate.TxPacket: the counters of packets sent and dropped, and the contents of packets other than whether one is a sleep acknowledgement, are left out.
- Pager.Window.Press: of a dialog of at most four rows, which shows no text, only the first page and the End key are modelled, as that key leaves the file; nor is horizontal cutting of rows, nor a failed read or seek, on which the program exits.
- BerRing.Ring.Arm: has no run for a count above 255, for which the loop does not end (`BerRing.ArmingEndsExactly`); left out is also what a ring that was not drained does after it was armed again.
- BerRing.Ring.Receive: a packet longer than the 1035 bytes allocated for it is left out.
- RxPath.Adapter.ReadPkt: the acknowledgement of the interrupt and its possible deregistration after a stop change no modelled state.
- RxPath.Adapter.DeployOne: what the coex handler does with a packet is the subject of the gate and the flash modules; firmware versions and addresses copied from a card ready are left out.
- HostTransfer.ProcessAggregated: the build that defers packets to a work queue is modelled, not the one that deploys them in the interrupt.
- Loader.Device.SdioLoadDataMasterWrite: an address range that leaves the 32-bit space or the device memory is left out.
- FlashHost.Burner.VerifyFlashContent: the master read mode, and addresses that wrap around 32 bits, are left out.
- Manual flashing, calibration data and QSPI boot parameters are variations of the same loops.
- `GPIO_HANDSHAKE` builds, USB suspend, `set_ios` and the interrupt handlers are hardware timing.
- Sockets, ioctl, netlink, the other dialog boxes, LMP and HCI decoding and region tables are I/O or table lookups.
- Liveness (a grant or a confirm that comes in the end) is not claimed; the code bounds these waits by timeouts.
