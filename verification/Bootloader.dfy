/** The ping-pong handshake with the secondary bootloader: bl_write_cmd, bl_cmd,
    ping_pong_write and auto_fw_upgrade. */
module Bootloader {
  import opened Bytes
  import opened FlashLimits
  import opened Loader
  import opened Options

  const PING_BUFFER_ADDRESS: uint32 := 0x19000
  const PONG_BUFFER_ADDRESS: uint32 := 0x1a000
  const REGIN_VALID: int := 0xA
  const REGIN_INPUT: int := 0xA0
  const REGOUT_VALID: int := 0xAB
  const REGOUT_INVALID: int := 0x54       // the complement of 0xAB in one byte
  const CHECK_CRC: byte := 0x4B           // 'K'
  const LOAD_HOSTED_FW: byte := 0x41      // 'A'
  const JUMP_TO_ZERO_PC: byte := 0x4A     // 'J'
  const EOF_REACHED: byte := 0x45         // 'E'
  const FW_LOADING_SUCCESSFUL: byte := 0x53 // 'S'
  const PING_VALID: byte := 0x49          // 'I'
  const PONG_VALID: byte := 0x4F          // 'O'
  const PING_AVAIL: byte := 0x49          // 'I'
  const PONG_AVAIL: byte := 0x4F          // 'O'

  datatype Buffer = Ping | Pong {
    function Address(): (a: uint32) {
      if Ping? then PING_BUFFER_ADDRESS else PONG_BUFFER_ADDRESS
    }

    /** The reply that offers this buffer to the host. */
    function Offer(): (r: byte) {
      if Ping? then PING_AVAIL else PONG_AVAIL
    }

    /** The command that announces this buffer to the bootloader. */
    function Announce(): (c: byte) {
      if Ping? then PING_VALID else PONG_VALID
    }

    function Other(): (b: Buffer) {
      if Ping? then Pong else Ping
    }
  }

  // ---------- one exchange ----------

  /** What the bus makes of one register access: whether it succeeds, what a read returns, and
      whether the command timer has run out when it is over. */
  datatype Access = Access(ok: bool, val: uint16, expires: bool)

  datatype Register = Input | Output {
    /** The input register takes a command, and the output register holds a reply. */
    predicate Ready(val: uint16) {
      if Input? then val / 0x1000 != REGIN_VALID else val / 0x100 == REGOUT_VALID
    }
  }

  /** The next access; a bus with no more answers fails. */
  function Next(script: seq<Access>): (a: Access) {
    if script == [] then Access(false, 0, false) else script[0]
  }

  function Later(script: seq<Access>): (rest: seq<Access>) {
    if script == [] then [] else script[1..]
  }

  /** Where reading a register over and over ends: the value that was ready, if the reads
      succeed and the timer does not run out before it, and the accesses left. */
  datatype Polled = Polled(val: Option<uint16>, rest: seq<Access>, expired: bool)

  function Poll(script: seq<Access>, expired: bool, register: Register): (p: Polled)
    ensures p.val.Some? ==> !p.expired && register.Ready(p.val.value)
    decreases |script|
  {
    var a := Next(script);
    if expired then Polled(None, script, true)
    else if script == [] || !a.ok || a.expires then Polled(None, Later(script), a.expires)
    else if register.Ready(a.val) then Polled(Some(a.val), Later(script), false)
    else Poll(Later(script), false, register)
  }

  predicate HasReply(cmd: byte) {
    cmd != LOAD_HOSTED_FW && cmd != JUMP_TO_ZERO_PC
  }

  /** One command: whether it succeeded, whether it reached the input register, the reply that
      was taken, and the accesses left. */
  datatype Outcome = Outcome(ok: bool, written: bool, reply: Option<byte>, rest: seq<Access>, expired: bool)

  function Exchanged(script: seq<Access>, expired: bool, cmd: byte, expResp: byte): (o: Outcome) {
    var free := Poll(script, expired, Input);
    var write := Next(free.rest);
    if free.val.None? then Outcome(false, false, None, free.rest, free.expired)
    else if !write.ok || !HasReply(cmd) then Outcome(write.ok, write.ok, None, Later(free.rest), write.expires)
    else Answered(Later(free.rest), write.expires, expResp)
  }

  /** The part behind the command: the reply is taken, and the output register cleared. */
  function Answered(script: seq<Access>, expired: bool, expResp: byte): (o: Outcome)
    ensures o.written
  {
    var full := Poll(script, expired, Output);
    var clear := Next(full.rest);
    if full.val.None? then Outcome(false, true, None, full.rest, full.expired)
    else
      var reply := full.val.value % 0x100;
      Outcome(clear.ok && reply == expResp, true, Some(reply), Later(full.rest), clear.expires)
  }

  /** n accesses that succeed in time and find the register not ready. */
  predicate Busy(script: seq<Access>, n: nat, register: Register) {
    n <= |script| && forall i :: 0 <= i < n ==> script[i].ok && !script[i].expires && !register.Ready(script[i].val)
  }

  /** The n-th access is the first that finds the register ready, in time. */
  predicate ReadyAt(script: seq<Access>, n: nat, register: Register) {
    n < |script| && Busy(script, n, register) && script[n].ok && !script[n].expires && register.Ready(script[n].val)
  }

  /** Polling ends with a value exactly at the first access that finds one in time. */
  lemma {:induction false} PollFinds(script: seq<Access>, register: Register, n: nat)
    requires ReadyAt(script, n, register)
    ensures Poll(script, false, register) == Polled(Some(script[n].val), script[n + 1..], false)
  {
    if n > 0 {
      PollFinds(script[1..], register, n - 1);
      assert script[1..][n..] == script[n + 1..];
    }
  }

  lemma {:induction false} PollFound(script: seq<Access>, register: Register) returns (n: nat)
    requires Poll(script, false, register).val.Some?
    ensures ReadyAt(script, n, register)
  {
    n := 0;
    if !register.Ready(script[0].val) {
      var m := PollFound(script[1..], register);
      n := m + 1;
      forall i | 0 <= i < n
        ensures script[i].ok && !script[i].expires && !register.Ready(script[i].val)
      {
        assert i > 0 ==> script[i] == script[1..][i - 1];
      }
    }
  }

  predicate InTime(script: seq<Access>, n: nat) {
    n <= |script| && forall k :: 0 <= k < n ==> script[k].ok && !script[k].expires
  }

  /** All in time, the n-th access is the first that finds the input register free: no valid mark
      in the upper four bits. */
  predicate FreeAt(script: seq<Access>, n: nat) {
    && InTime(script, n + 1) && script[n].val / 0x1000 != 0xA
    && forall k {:trigger script[k]} :: 0 <= k < n ==> script[k].val / 0x1000 == 0xA
  }

  /** All in time, the n-th access is the first that finds a valid mark in the output register's
      upper byte, and the lower one is b. */
  predicate AnswerAt(script: seq<Access>, n: nat, b: byte) {
    && InTime(script, n + 1) && script[n].val == b + 0x100 * 0xAB
    && forall k {:trigger script[k]} :: 0 <= k < n ==> script[k].val / 0x100 != 0xAB
  }

  /** The command is written at the access behind the i-th, which finds the input register free,
      and the reply b is read at the j-th behind that. */
  predicate RepliesAt(script: seq<Access>, i: nat, j: nat, b: byte) {
    && FreeAt(script, i) && i + 1 < |script| && script[i + 1].ok && !script[i + 1].expires
    && AnswerAt(script[i + 2..], j, b)
  }

  lemma FreeExactly(script: seq<Access>, n: nat)
    ensures FreeAt(script, n) <==> ReadyAt(script, n, Input)
  {
  }

  lemma AnswerExactly(script: seq<Access>, n: nat, b: byte)
    ensures AnswerAt(script, n, b) <==> ReadyAt(script, n, Output) && script[n].val % 0x100 == b
  {
  }

  lemma ReplyFound(script: seq<Access>, cmd: byte, expResp: byte) returns (i: nat, j: nat)
    requires Exchanged(script, false, cmd, expResp).reply.Some?
    ensures RepliesAt(script, i, j, Exchanged(script, false, cmd, expResp).reply.value)
  {
    hide Busy, InTime;
    i := PollFound(script, Input);
    PollFinds(script, Input, i);
    FreeExactly(script, i);
    assert Later(script[i + 1..]) == script[i + 2..];
    j := PollFound(script[i + 2..], Output);
    PollFinds(script[i + 2..], Output, j);
    AnswerExactly(script[i + 2..], j, Exchanged(script, false, cmd, expResp).reply.value);
  }

  lemma ReplyFinds(script: seq<Access>, cmd: byte, expResp: byte, i: nat, j: nat, b: byte)
    requires HasReply(cmd) && RepliesAt(script, i, j, b)
    ensures Exchanged(script, false, cmd, expResp).reply == Some(b)
  {
    hide Busy, Poll, InTime;
    FreeExactly(script, i);
    PollFinds(script, Input, i);
    assert Later(script[i + 1..]) == script[i + 2..];
    AnswerExactly(script[i + 2..], j, b);
    PollFinds(script[i + 2..], Output, j);
  }

  /** A command is written exactly when an access finds the input register free, in time and before
      any fails, and the write behind it succeeds. */
  lemma WrittenWhenFree(script: seq<Access>, cmd: byte, expResp: byte)
    ensures Exchanged(script, false, cmd, expResp).written
            <==> exists i: nat :: FreeAt(script, i) && i + 1 < |script| && script[i + 1].ok
  {
    hide Busy, InTime, FreeAt;
    if Exchanged(script, false, cmd, expResp).written {
      var i := PollFound(script, Input);
      PollFinds(script, Input, i);
      FreeExactly(script, i);
    }
    if i: nat :| FreeAt(script, i) && i + 1 < |script| && script[i + 1].ok {
      FreeExactly(script, i);
      PollFinds(script, Input, i);
    }
  }

  /** A reply is taken exactly when the first answer of the output register carries it, all in
      time, whatever was expected and even if the output register cannot be cleared. */
  lemma ReplyTaken(script: seq<Access>, cmd: byte, expResp: byte, b: byte)
    requires HasReply(cmd)
    ensures Exchanged(script, false, cmd, expResp).reply == Some(b)
            <==> exists i: nat, j: nat :: RepliesAt(script, i, j, b)
  {
    hide Exchanged, RepliesAt, InTime;
    if Exchanged(script, false, cmd, expResp).reply == Some(b) {
      var i, j := ReplyFound(script, cmd, expResp);
    }
    if i: nat, j: nat :| RepliesAt(script, i, j, b) {
      ReplyFinds(script, cmd, expResp, i, j, b);
    }
  }

  // ---------- the pieces of an image ----------

  /** A buffer that was announced: which one, what the device memory held there when the
      command was written, and the reply that was the latest one then. */
  datatype Handed = Handed(buffer: Buffer, held: seq<byte>, latestReply: byte)

  function PieceEnd(image: seq<byte>, k: nat): (e: nat) {
    Min((k + 1) * FLASH_WRITE_CHUNK_SIZE, |image|)
  }

  /** The k-th piece of the image. */
  function Piece(image: seq<byte>, k: nat): (p: seq<byte>)
    requires k * FLASH_WRITE_CHUNK_SIZE <= |image|
  {
    image[k * FLASH_WRITE_CHUNK_SIZE..PieceEnd(image, k)]
  }

  /** The buffer of the k-th piece: PONG first, then alternating. */
  function BufferOf(k: nat): (b: Buffer) {
    if k % 2 == 1 then Ping else Pong
  }

  /** The commands that announce the first n pieces. */
  function Announcements(n: nat): (c: seq<byte>) {
    if n == 0 then [] else Announcements(n - 1) + [BufferOf(n - 1).Announce()]
  }

  /** The announced buffer held the k-th piece, and after the first one it had been offered. */
  predicate HandedPiece(image: seq<byte>, h: Handed, k: nat) {
    && k * FLASH_WRITE_CHUNK_SIZE < |image|
    && h.buffer == BufferOf(k) && |h.held| == FLASH_WRITE_CHUNK_SIZE && Piece(image, k) <= h.held
    && (k > 0 ==> h.latestReply == h.buffer.Offer())
  }

  /** The pieces that were handed over: 4096 bytes each up to the last one, PONG and PING in turn. */
  lemma PiecesInTurn(image: seq<byte>, handed: seq<Handed>)
    requires Handshaken(image, handed)
    ensures forall k :: 0 <= k < |handed| ==>
              && handed[k].buffer == (if k % 2 == 0 then Pong else Ping)
              && |handed[k].held| == 4096 && 4096 * k < |image|
              && image[4096 * k..if 4096 * k + 4096 <= |image| then 4096 * k + 4096 else |image|] <= handed[k].held
              && (k > 0 ==> handed[k].latestReply == if k % 2 == 0 then 0x4F else 0x49)
  {
    forall k | 0 <= k < |handed|
      ensures HandedPiece(image, handed[k], k)
    {
    }
  }

  /** The commands that announce them. */
  lemma {:induction false} AnnouncedInTurn(n: nat)
    ensures |Announcements(n)| == n
    ensures forall k :: 0 <= k < n ==> Announcements(n)[k] == if k % 2 == 0 then 0x4F else 0x49
  {
    if n > 0 {
      AnnouncedInTurn(n - 1);
    }
  }

  predicate Handshaken(image: seq<byte>, handed: seq<Handed>) {
    forall k :: 0 <= k < |handed| ==> HandedPiece(image, handed[k], k)
  }

  /** What a command hands over, if it announces a buffer. */
  function HandedBy(cmd: byte, memory: seq<byte>, latestReply: byte): (h: seq<Handed>)
    requires PONG_BUFFER_ADDRESS + FLASH_WRITE_CHUNK_SIZE <= |memory|
    ensures cmd == 0x49 ==> h == [Handed(Ping, memory[0x19000..0x1a000], latestReply)]
    ensures cmd == 0x4F ==> h == [Handed(Pong, memory[0x1a000..0x1b000], latestReply)]
    ensures cmd != 0x49 && cmd != 0x4F ==> h == []
  {
    if cmd == PING_VALID then [HandedNow(Ping, memory, latestReply)]
    else if cmd == PONG_VALID then [HandedNow(Pong, memory, latestReply)]
    else []
  }

  function HandedNow(buffer: Buffer, memory: seq<byte>, latestReply: byte): (h: Handed)
    requires PONG_BUFFER_ADDRESS + FLASH_WRITE_CHUNK_SIZE <= |memory|
    ensures |h.held| == FLASH_WRITE_CHUNK_SIZE
  {
    Handed(buffer, memory[buffer.Address()..buffer.Address() + FLASH_WRITE_CHUNK_SIZE], latestReply)
  }

  const HEADER_SIZE: nat := 20

  /** What a command makes the bootloader check: the header in the PING buffer. */
  function CheckedBy(cmd: byte, memory: seq<byte>): (h: seq<seq<byte>>)
    requires PONG_BUFFER_ADDRESS + FLASH_WRITE_CHUNK_SIZE <= |memory|
  {
    if cmd == CHECK_CRC then [memory[PING_BUFFER_ADDRESS..PING_BUFFER_ADDRESS + HEADER_SIZE]] else []
  }

  /** What the buffers held, one behind the other. */
  function Concat(handed: seq<Handed>): (s: seq<byte>) {
    if handed == [] then [] else Concat(handed[..|handed| - 1]) + handed[|handed| - 1].held
  }

  /** Enough buffers for the image, and together they held it; behind its end is what was left
      in the last one. */
  predicate Delivered(image: seq<byte>, handed: seq<Handed>) {
    && image <= Concat(handed)
    && (|handed| - 1) * FLASH_WRITE_CHUNK_SIZE < |image| <= |handed| * FLASH_WRITE_CHUNK_SIZE
  }

  /** The buffers held the part of the image that they cover. */
  lemma {:induction false} HandedCoverImage(image: seq<byte>, handed: seq<Handed>)
    requires Handshaken(image, handed)
    ensures |Concat(handed)| == |handed| * FLASH_WRITE_CHUNK_SIZE
    ensures image[..Min(|handed| * FLASH_WRITE_CHUNK_SIZE, |image|)] <= Concat(handed)
  {
    if handed != [] {
      var n := |handed| - 1;
      var last, covered := handed[n], n * FLASH_WRITE_CHUNK_SIZE;
      assert HandedPiece(image, last, n);
      HandedCoverImage(image, handed[..n]);
      PieceBehind(image, n, Concat(handed[..n]), last.held);
    }
  }

  lemma PieceBehind(image: seq<byte>, n: nat, front: seq<byte>, held: seq<byte>)
    requires n * FLASH_WRITE_CHUNK_SIZE < |image| && front == image[..n * FLASH_WRITE_CHUNK_SIZE]
    requires Piece(image, n) <= held
    ensures image[..PieceEnd(image, n)] <= front + held
  {
    assert image[..PieceEnd(image, n)] == front + Piece(image, n);
  }

  lemma HandshakenNone(image: seq<byte>)
    ensures Handshaken(image, [])
  {
  }

  lemma HandshakenMore(image: seq<byte>, handed: seq<Handed>, h: Handed)
    requires Handshaken(image, handed) && HandedPiece(image, h, |handed|)
    ensures Handshaken(image, handed + [h])
  {
  }

  /** The flash start address in the image's header. */
  function StartAddress(image: seq<byte>): (a: uint32)
    requires FLASHING_START_ADDRESS + 4 <= |image|
  {
    var word := image[FLASHING_START_ADDRESS..FLASHING_START_ADDRESS + 4];
    LittleOfFour(word);
    Little(word)
  }

  // ---------- the code ----------

  /** The host side of the handshake, on a bus that answers its register accesses as the script
      says. */
  class Host {
    const device: Device
    const usb: bool
    const blockSize: uint32
    const flashCapacity: uint32
    const minStart: uint32         // FLASH_SECTOR_SIZE or FW_IMAGE_MIN_ADDRESS, by mode
    const sectorSize: uint32
    const coexMode: nat            // a small number, or-ed into the input mark
    var script: seq<Access>        // the register accesses to come
    var blTimerExpired: bool
    var timerPending: bool
    ghost var regin: uint16        // what the registers held when they were last read
    ghost var regout: uint16
    ghost var commands: seq<byte>  // the commands written
    ghost var latestReply: byte
    ghost var handed: seq<Handed>
    ghost var headers: seq<seq<byte>>  // the headers that were to be checked
    ghost var failures: nat            // the exchanges and master reads that failed

    constructor (device: Device, usb: bool, blockSize: uint32, flashCapacity: uint32, minStart: uint32,
                 sectorSize: uint32, coexMode: nat, script: seq<Access>)
      requires coexMode < 0x10
      ensures this.device == device && this.usb == usb && this.blockSize == blockSize
      ensures this.flashCapacity == flashCapacity && this.minStart == minStart && this.sectorSize == sectorSize
      ensures this.coexMode == coexMode
      ensures this.script == script && handed == [] && headers == [] && commands == [] && TimerOff()
      ensures failures == 0
    {
      this.coexMode, regin, regout, commands := coexMode, 0xA000, 0, [];
      this.device, this.usb, this.blockSize := device, usb, blockSize;
      this.flashCapacity, this.minStart, this.sectorSize := flashCapacity, minStart, sectorSize;
      this.script, blTimerExpired, timerPending, latestReply := script, false, false, 0;
      handed, headers, failures := [], [], 0;
    }

    /** What the block loaders demand of the configured block size. */
    ghost predicate Configured()
      reads this, device
    {
      && 0 < blockSize <= 256 && sectorSize > 0 && coexMode < 0x10
      && Aligned(WINDOW, blockSize) && Aligned(PING_BUFFER_ADDRESS, blockSize)
      && Aligned(PONG_BUFFER_ADDRESS, blockSize)
      && PONG_BUFFER_ADDRESS + FLASH_WRITE_CHUNK_SIZE <= |device.memory| <= 0x1_0000_0000
    }

    predicate TimerOff()
      reads this
    {
      !blTimerExpired && !timerPending
    }

    method StartTimer()
      modifies this`blTimerExpired, this`timerPending
      ensures !blTimerExpired && timerPending
    {
      blTimerExpired := false;
      timerPending := true;
    }

    method StopTimer()
      modifies this`blTimerExpired, this`timerPending
      ensures TimerOff()
    {
      blTimerExpired := false;
      if timerPending {
        timerPending := false;
      }
    }

    /** One register access, during which the timer may run out. */
    method TakeAccess() returns (a: Access)
      modifies this`script, this`blTimerExpired, this`timerPending
      ensures a == Next(old(script)) && script == Later(old(script))
      ensures blTimerExpired == (old(blTimerExpired) || a.expires)
    {
      if script == [] {
        a := Access(false, 0, false);
      } else {
        a := script[0];
        script := script[1..];
      }
      if a.expires {
        blTimerExpired, timerPending := true, false;
      }
    }

    /** onebox_master_reg_read of two bytes of SWBL_REGIN or SWBL_REGOUT, until it is ready. */
    method PollRegister(register: Register) returns (ok: bool, val: uint16)
      modifies this`script, this`blTimerExpired, this`timerPending, this`regin, this`regout
      ensures var p := Poll(old(script), old(blTimerExpired), register);
              && ok == p.val.Some? && (ok ==> val == p.val.value)
              && script == p.rest && blTimerExpired == p.expired
      ensures ok ==> register.Ready(val) && (register.Input? ==> regin == val) && (register.Output? ==> regout == val)
    {
      ok, val := false, 0;
      while !blTimerExpired
        invariant Poll(script, blTimerExpired, register) == Poll(old(script), old(blTimerExpired), register)
        decreases !blTimerExpired, |script|
      {
        ghost var before := script;
        var a := TakeAccess();
        ok, val := a.ok, a.val;
        if !ok {
          return;
        }
        match register {
          case Input => regin := val;
          case Output => regout := val;
        }
        if register.Ready(val) {
          break;
        }
      }
      if blTimerExpired {
        ok := false;
      }
    }

    /** onebox_master_reg_write to SWBL_REGIN, which must have been seen free.  The bootloader
        takes an announced buffer as it is at that moment. */
    method WriteRegin(cmd: byte, mark: byte) returns (ok: bool)
      requires Configured()
      requires regin / 0x1000 != REGIN_VALID && mark / 0x10 == REGIN_VALID
      modifies this`script, this`blTimerExpired, this`timerPending, this`regin, this`commands, this`handed,
               this`headers
      ensures ok == Next(old(script)).ok && script == Later(old(script))
      ensures blTimerExpired == (old(blTimerExpired) || Next(old(script)).expires)
      ensures commands == if ok then old(commands) + [cmd] else old(commands)
      ensures handed == if ok then old(handed) + HandedBy(cmd, device.memory, latestReply) else old(handed)
      ensures headers == if ok then old(headers) + CheckedBy(cmd, device.memory) else old(headers)
    {
      var a := TakeAccess();
      ok := a.ok;
      if ok {
        regin, commands := cmd + 0x100 * (mark as int), commands + [cmd];
        handed, headers := handed + HandedBy(cmd, device.memory, latestReply), headers + CheckedBy(cmd, device.memory);
      }
    }

    /** onebox_master_reg_write to SWBL_REGOUT, which must have held a reply; it no longer
        does. */
    method WriteRegout(cmd: byte, mark: byte) returns (ok: bool)
      requires regout / 0x100 == REGOUT_VALID && mark != REGOUT_VALID
      modifies this`script, this`blTimerExpired, this`timerPending, this`regout
      ensures ok == Next(old(script)).ok && script == Later(old(script))
      ensures blTimerExpired == (old(blTimerExpired) || Next(old(script)).expires)
    {
      var a := TakeAccess();
      ok := a.ok;
      if ok {
        regout := cmd + 0x100 * (mark as int);
      }
    }

    /** What an exchange leaves: the commands, the buffers announced, and the latest reply. */
    twostate predicate Leaves(o: Outcome, cmd: byte)
      requires Configured()
      reads this, device
    {
      && commands == (if o.written then old(commands) + [cmd] else old(commands))
      && handed == (if o.written then old(handed) + HandedBy(cmd, device.memory, old(latestReply)) else old(handed))
      && headers == (if o.written then old(headers) + CheckedBy(cmd, device.memory) else old(headers))
      && latestReply == (if o.reply.Some? then o.reply.value else old(latestReply))
      && script == o.rest
    }

    twostate predicate Follows(o: Outcome, cmd: byte)
      requires Configured()
      reads this, device
    {
      Leaves(o, cmd) && failures == old(failures) + if o.ok then 0 else 1
    }

    /** One exchange; a failure is counted. */
    method BlWriteCmd(cmd: byte, expResp: byte) returns (ok: bool, cmdResp: uint16)
      requires Configured()
      modifies this
      ensures Configured()
      ensures var o := Exchanged(old(script), old(blTimerExpired), cmd, expResp);
              && ok == o.ok && Follows(o, cmd) && blTimerExpired == o.expired
              && cmdResp == if o.reply.Some? then o.reply.value + 0x100 * REGOUT_VALID else 0
      ensures cmd != PING_VALID && cmd != PONG_VALID ==> handed == old(handed)
      ensures cmd != CHECK_CRC ==> headers == old(headers)
    {
      hide Poll, Aligned, Exchanged;
      ok, cmdResp := Exchange(cmd, expResp);
      if !ok {
        failures := failures + 1;
      }
    }

    /** Writes a command once the input register is free, and waits for its reply, which it
        takes back from the output register.  The two commands without a reply return as soon
        as they are written. */
    method Exchange(cmd: byte, expResp: byte) returns (ok: bool, cmdResp: uint16)
      requires Configured()
      modifies this
      ensures Configured()
      ensures var o := Exchanged(old(script), old(blTimerExpired), cmd, expResp);
              && ok == o.ok && Leaves(o, cmd) && blTimerExpired == o.expired
              && cmdResp == if o.reply.Some? then o.reply.value + 0x100 * REGOUT_VALID else 0
      ensures cmd != PING_VALID && cmd != PONG_VALID ==> handed == old(handed)
      ensures cmd != CHECK_CRC ==> headers == old(headers)
      ensures failures == old(failures)
    {
      hide Poll, Aligned, Answered;
      var val: uint16;
      cmdResp := 0;
      ok, val := PollRegister(Input);
      if !ok {
        return;
      }
      ok := WriteRegin(cmd, REGIN_INPUT + coexMode);
      if !ok || cmd == LOAD_HOSTED_FW || cmd == JUMP_TO_ZERO_PC {
        return;
      }
      ok, cmdResp := TakeReply(cmd, expResp);
    }

    /** The part behind the command. */
    method TakeReply(cmd: byte, expResp: byte) returns (ok: bool, cmdResp: uint16)
      modifies this`script, this`blTimerExpired, this`timerPending, this`regin, this`regout, this`latestReply
      ensures var o := Answered(old(script), old(blTimerExpired), expResp);
              && ok == o.ok && script == o.rest && blTimerExpired == o.expired
              && latestReply == (if o.reply.Some? then o.reply.value else old(latestReply))
              && cmdResp == if o.reply.Some? then o.reply.value + 0x100 * REGOUT_VALID else 0
    {
      hide Poll;
      var val: uint16;
      cmdResp := 0;
      ok, val := PollRegister(Output);
      if !ok {
        return;
      }
      cmdResp := val;
      var output := cmdResp % 0x100;
      latestReply := output;
      ok := WriteRegout(cmd, REGOUT_INVALID);
      if ok {
        ok := output == expResp;
      }
    }

    /** Master reads outside of the exchanges; a failure is counted. */
    method ReadByMaster() returns (ok: bool)
      requires Configured()
      modifies this`failures
      ensures Configured()
      ensures ok == (failures == old(failures)) && old(failures) <= failures
    {
      ok := *;
      if !ok {
        failures := failures + 1;
      }
    }

    /** The same with the timer, which a success stops. */
    method BlCmd(cmd: byte, expResp: byte) returns (ok: bool)
      requires Configured()
      modifies this
      ensures Configured()
      ensures var o := Exchanged(old(script), false, cmd, expResp);
              ok == o.ok && Follows(o, cmd)
      ensures cmd != PING_VALID && cmd != PONG_VALID ==> handed == old(handed)
      ensures cmd != CHECK_CRC ==> headers == old(headers)
      ensures ok ==> TimerOff()
    {
      StartTimer();
      var resp;
      ok, resp := BlWriteCmd(cmd, expResp);
      if ok {
        StopTimer();
      }
    }

    /** A buffer is written only when no piece has been handed over yet, or the latest reply
        offered it. */
    method LoadBuffer(buffer: Buffer, data: seq<byte>) returns (ok: bool)
      requires Configured() && |data| <= FLASH_WRITE_CHUNK_SIZE
      requires handed == [] || latestReply == buffer.Offer()
      modifies device
      ensures Configured()
      ensures ok ==> Loaded(old(device.memory), device.memory, buffer.Address(), data, |data|)
      ensures ok == (device.faults == old(device.faults)) && old(device.faults) <= device.faults
    {
      ghost var stored, count;
      if usb {
        ok, stored := device.UsbLoadDataMasterWrite(buffer.Address(), |data|, blockSize, data);
      } else {
        ok, stored, count := device.SdioLoadDataMasterWrite(buffer.Address(), |data|, blockSize, data);
      }
    }

    /** Fills one buffer, announces it, and waits for the offer of the other one. */
    method PingPongWrite(buffer: Buffer, data: seq<byte>) returns (ok: bool)
      requires Configured() && |data| <= FLASH_WRITE_CHUNK_SIZE
      requires handed == [] || latestReply == buffer.Offer()
      modifies this, device
      ensures Configured()
      ensures ok ==> Loaded(old(device.memory), device.memory, buffer.Address(), data, |data|)
      ensures ok ==> latestReply == buffer.Other().Offer() && commands == old(commands) + [buffer.Announce()]
                     && TimerOff()
      ensures old(commands) <= commands && headers == old(headers)
      ensures ok == (device.faults == old(device.faults) && failures == old(failures))
      ensures old(device.faults) <= device.faults && old(failures) <= failures
      ensures handed == old(handed) + [HandedNow(buffer, device.memory, old(latestReply))]
              || (!ok && handed == old(handed))
      ensures handed != old(handed) ==> data <= HandedNow(buffer, device.memory, old(latestReply)).held
    {
      var cmdReq, cmdResp;
      if buffer.Ping? {
        cmdReq, cmdResp := PING_VALID, PONG_AVAIL;
      } else {
        cmdReq, cmdResp := PONG_VALID, PING_AVAIL;
      }
      ok := LoadBuffer(buffer, data);
      if !ok {
        return;
      }
      HeldAfterLoad(old(device.memory), device.memory, buffer.Address(), data);
      hide Exchanged, Write, Aligned, Loaded;
      ExchangeMeaning(script, cmdReq, cmdResp);
      ok := BlCmd(cmdReq, cmdResp);
      if !ok {
        StopTimer();
      }
    }

    /** The checks made before anything is sent.  The sum of start and size is a 32-bit one, so
        that a start close to the end of the address space passes as well. */
    predicate Acceptable(image: seq<byte>): (a: bool)
      requires FLASHING_START_ADDRESS + 4 <= |image| < 0x1_0000_0000 && sectorSize > 0
      ensures var start := Little(image[16..20]);
              a <==> && |image| <= 409600 && start >= minStart && start % sectorSize == 0
                     && (start + |image| <= flashCapacity || 0 <= start + |image| - 0x1_0000_0000 <= flashCapacity)
    {
      var start := StartAddress(image);
      && |image| <= MAX_FLASH_FILE_SIZE
      && start >= minStart
      && start % sectorSize == 0
      && Add32(start, |image|) <= flashCapacity
    }

    /** Sends the kk-th piece of the image. */
    method SendPiece(image: seq<byte>, kk: nat, contentSize: nat) returns (ok: bool)
      requires Configured() && Handshaken(image, handed) && |handed| == kk
      requires 0 < contentSize && PieceEnd(image, kk) == kk * FLASH_WRITE_CHUNK_SIZE + contentSize
      requires kk > 0 ==> latestReply == BufferOf(kk).Offer()
      modifies this, device
      ensures Configured() && Handshaken(image, handed) && old(commands) <= commands
      ensures headers == old(headers)
      ensures ok == (device.faults == old(device.faults) && failures == old(failures))
      ensures old(device.faults) <= device.faults && old(failures) <= failures
      ensures ok ==> |handed| == kk + 1 && latestReply == BufferOf(kk + 1).Offer()
                     && commands == old(commands) + [BufferOf(kk).Announce()] && TimerOff()
    {
      hide Configured, Handshaken, Loaded;
      ghost var earlier := handed;
      var from := kk * FLASH_WRITE_CHUNK_SIZE;
      ok := PingPongWrite(BufferOf(kk), image[from..from + contentSize]);
      if handed != earlier {
        HandshakenMore(image, earlier, handed[kk]);
      }
    }

    method SendPieces(image: seq<byte>) returns (ok: bool)
      requires Configured() && handed == [] && TimerOff()
      modifies this, device
      ensures Configured() && Handshaken(image, handed) && old(commands) <= commands
      ensures headers == old(headers)
      ensures ok == (device.faults == old(device.faults) && failures == old(failures))
      ensures old(device.faults) <= device.faults && old(failures) <= failures
      ensures ok ==> Delivered(image, handed) && commands == old(commands) + Announcements(|handed|) && TimerOff()
    {
      var numFlash := |image| / FLASH_WRITE_CHUNK_SIZE;
      var kk := 0;
      hide Configured, HandedPiece, BufferOf, Buffer.Offer, Buffer.Announce, TimerOff;
      while kk <= numFlash
        invariant 0 <= kk <= numFlash + 1 && |handed| == kk
        invariant Configured() && Handshaken(image, handed) && commands == old(commands) + Announcements(kk)
        invariant kk > 0 ==> latestReply == BufferOf(kk).Offer()
        invariant kk == numFlash + 1 ==> |image| % FLASH_WRITE_CHUNK_SIZE != 0
        invariant TimerOff() && headers == old(headers)
        invariant device.faults == old(device.faults) && failures == old(failures)
      {
        var contentSize := FLASH_WRITE_CHUNK_SIZE;
        if kk == numFlash {
          contentSize := |image| % FLASH_WRITE_CHUNK_SIZE;
          if contentSize == 0 {
            break;
          }
        }
        ok := SendPiece(image, kk, contentSize);
        if !ok {
          return;
        }
        kk := kk + 1;
      }
      ok := true;
      HandedCoverImage(image, handed);
      assert image[..|image|] == image;
    }

    method AutoFwUpgrade(image: seq<byte>) returns (ok: bool)
      requires Configured() && handed == [] && TimerOff()
      requires FLASHING_START_ADDRESS + 4 <= |image| < 0x1_0000_0000
      modifies this, device
      ensures Configured() && Handshaken(image, handed) && old(commands) <= commands
      ensures headers == old(headers)
      ensures ok == (Acceptable(image) && device.faults == old(device.faults) && failures == old(failures))
      ensures old(device.faults) <= device.faults && old(failures) <= failures
      ensures !Acceptable(image) ==> !ok && handed == [] && commands == old(commands)
      ensures commands != old(commands)
              ==> Little(image[16..20]) >= minStart && Little(image[16..20]) % sectorSize == 0 && |image| <= 409600
      ensures ok ==> Delivered(image, handed) && latestReply == FW_LOADING_SUCCESSFUL && TimerOff()
      ensures ok ==> commands == old(commands) + Announcements(|handed|) + [EOF_REACHED]
    {
      ok := Acceptable(image);
      if !ok {
        return;
      }
      hide Configured, Delivered, Handshaken, Acceptable, Exchanged, Announcements;
      ok := SendPieces(image);
      if !ok {
        return;
      }
      ExchangeMeaning(script, EOF_REACHED, FW_LOADING_SUCCESSFUL);
      ok := BlCmd(EOF_REACHED, FW_LOADING_SUCCESSFUL);
      if !ok {
        StopTimer();
      }
    }
  }

  /** A success means that the command was written and, if it has a reply, that the expected
      one was taken. */
  lemma ExchangeMeaning(script: seq<Access>, cmd: byte, expResp: byte)
    ensures var o := Exchanged(script, false, cmd, expResp);
            && (o.ok ==> o.written && o.reply == if HasReply(cmd) then Some(expResp) else None)
            && (o.reply.Some? ==> o.written)
  {
    hide Poll;
  }

  /** The memory at the address of a load starts with what was loaded. */
  lemma HeldAfterLoad(before: seq<byte>, now: seq<byte>, address: nat, data: seq<byte>)
    requires Loaded(before, now, address, data, |data|) && |data| <= FLASH_WRITE_CHUNK_SIZE
    requires address + FLASH_WRITE_CHUNK_SIZE <= |before|
    ensures data <= now[address..address + FLASH_WRITE_CHUNK_SIZE]
  {
    assert data[..|data|] == data;
    assert now[address..address + FLASH_WRITE_CHUNK_SIZE][..|data|] == data;
  }
}
