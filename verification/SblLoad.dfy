/** Starting the firmware through the secondary bootloader: load_fw_thru_sbl, write_bl_header
    and load_fw.  Every label of the source is a method, and every goto a call of the next. */
module SblLoad {
  import opened Bytes
  import opened FlashLimits
  import opened Loader
  import opened Bootloader
  import opened Options

  const CONFIG_AUTO_READ_MODE: byte := 0x52 // 'R'
  const POLLING_MODE: byte := 0x50          // 'P'
  const BURN_HOSTED_FW: byte := 0x42        // 'B'
  const BURN_BL: byte := 0x23               // '#'
  const SEND_RPS_FILE: byte := 0x32         // '2'
  const LOADING_INITIATED: byte := 0x31     // '1'
  const CMD_PASS: byte := 0xAA
  const CMD_FAIL: byte := 0xCC
  const PMEM_ADDRESS: uint32 := 0
  const SECTOR_SIZE: uint32 := 4096
  const FW_IMAGE_MIN_ADDRESS: uint32 := 68 * 1024

  datatype Mode = FullFlash | FlashRam | FullRam | OtherMode

  /** The header that tells the bootloader which image to check. */
  function BlHeader(image: seq<byte>, coexMode: nat): (h: seq<byte>)
    requires |image| >= 24 && coexMode < 0x10
    ensures |h| == 20
  {
    Bytes32(0) + Bytes32(coexMode) + image[20..24] + image[16..20] + image[8..12]
  }

  /** The header field by field: no flags, the image number, and of the image its checksum, its
      flash address and its length. */
  predicate HeaderFor(h: seq<byte>, image: seq<byte>, coexMode: nat)
    requires |image| >= 24
  {
    && |h| == 20 && Little(h[..4]) == 0 && Little(h[4..8]) == coexMode
    && h[8..12] == image[20..24] && h[12..16] == image[16..20] && h[16..20] == image[8..12]
    && Little(h[12..16]) == StartAddress(image)
  }

  lemma HeaderFields(image: seq<byte>, coexMode: nat)
    requires |image| >= 24 && coexMode < 0x10
    ensures HeaderFor(BlHeader(image, coexMode), image, coexMode)
  {
    var h := BlHeader(image, coexMode);
    assert h[..4] == Bytes32(0) && h[4..8] == Bytes32(coexMode);
    hide Bytes32;
    assert h[8..12] == image[20..24] && h[12..16] == image[16..20] && h[16..20] == image[8..12];
  }

  /** The header that the bootloader was asked to check, if it was asked, is that of the image. */
  predicate ChecksHeader(before: seq<seq<byte>>, now: seq<seq<byte>>, image: seq<byte>, coexMode: nat)
    requires |image| >= 24
  {
    now == before || (|now| == |before| + 1 && before <= now && HeaderFor(now[|before|], image, coexMode))
  }

  function PaddedTo4(n: nat): (p: nat)
    ensures n <= p < n + 4
  {
    if n % 4 == 0 then n else n + (4 - n % 4)
  }

  /** Polling mode, and then the hosted firmware, are accepted by the bootloader. */
  predicate StartsFromFlash(script: seq<Access>) {
    var polling := Exchanged(script, false, POLLING_MODE, CMD_PASS);
    polling.ok && Exchanged(polling.rest, false, LOAD_HOSTED_FW, LOADING_INITIATED).ok
  }

  /** The exchange that asks for the check of the image in flash. */
  function Check(script: seq<Access>): (o: Outcome) {
    Exchanged(script, false, CHECK_CRC, CMD_PASS)
  }

  /** The commands of a load that succeeds, from the check on. */
  function StartCommands(check: Outcome, fromFlash: bool, pieces: nat): (c: seq<byte>) {
    (if check.written then [CHECK_CRC] else [])
    + if check.reply == Some(CMD_FAIL)
      then [BURN_HOSTED_FW] + Announcements(pieces) + [EOF_REACHED, LOAD_HOSTED_FW]
      else [POLLING_MODE, if fromFlash then LOAD_HOSTED_FW else JUMP_TO_ZERO_PC]
  }

  lemma StartBehindCheck(before: seq<byte>, check: Outcome, fromFlash: bool, pieces: nat)
    ensures var checked := before + if check.written then [CHECK_CRC] else [];
            before + StartCommands(check, fromFlash, pieces)
            == if check.reply == Some(CMD_FAIL)
               then checked + [BURN_HOSTED_FW] + Announcements(pieces) + [EOF_REACHED, LOAD_HOSTED_FW]
               else checked + [POLLING_MODE, if fromFlash then LOAD_HOSTED_FW else JUMP_TO_ZERO_PC]
  {
  }

  /** A bus on which every register access succeeds in time: the commands are taken at once,
      and polling mode is answered with success. */
  function GoodStart(): (script: seq<Access>) {
    var free := Access(true, 0, false);
    [free, free, Access(true, 0xAB00 + CMD_PASS, false), free, free, free]
  }

  /** The firmware starts from flash although the check was not even asked for, because the
      input register could not be read. */
  lemma StartsWithoutCheck()
    ensures var check := Check([Access(false, 0, false)] + GoodStart());
            !check.ok && !check.written && check.reply == None && StartsFromFlash(check.rest)
  {
    PollsOnce(GoodStart());
  }

  /** An exchange in which the command is taken at once, and answered with the byte 0. */
  lemma OtherReply(script: seq<Access>, later: seq<Access>)
    requires var free := Access(true, 0, false);
             script == [free, free, Access(true, 0xAB00, false), free] + later
    ensures Check(script) == Outcome(false, true, Some(0), later, false)
  {
    PollFinds(script, Input, 0);
    assert script[1..][1..] == script[2..] && script[2..][1..][1..] == later;
    PollFinds(script[2..], Output, 0);
    hide Poll;
  }

  /** The same when the check is answered with a byte that is neither pass nor fail. */
  lemma StartsOnOtherReply()
    ensures var free := Access(true, 0, false);
            var check := Check([free, free, Access(true, 0xAB00, false), free] + GoodStart());
            !check.ok && check.reply == Some(0) && StartsFromFlash(check.rest)
  {
    hide Check, StartsFromFlash, GoodStart;
    var free := Access(true, 0, false);
    OtherReply([free, free, Access(true, 0xAB00, false), free] + GoodStart(), GoodStart());
    PollsOnce(GoodStart());
  }

  lemma PollsOnce(script: seq<Access>)
    requires script == GoodStart()
    ensures StartsFromFlash(script)
  {
    var polling := Exchanged(script, false, POLLING_MODE, CMD_PASS);
    assert polling.rest == script[4..];
  }

  class Sbl {
    const host: Host
    const mode: Mode
    const burning: bool         // the bootloader itself is to be burned

    constructor (host: Host, mode: Mode, burning: bool)
      ensures this.host == host && this.mode == mode && this.burning == burning
    {
      this.host, this.mode, this.burning := host, mode, burning;
    }

    ghost predicate Ready()
      reads this, host, host.device
    {
      host.Configured()
    }

    /** write_bl_header. */
    method WriteBlHeader(image: seq<byte>) returns (ok: bool)
      requires Ready() && |image| >= 24
      modifies host.device
      ensures Ready()
      ensures ok == (host.device.faults == old(host.device.faults)) && old(host.device.faults) <= host.device.faults
      ensures ok ==> host.device.memory
                     == WithHeader(old(host.device.memory), image)
    {
      var header := BlHeader(image, host.coexMode);
      ghost var stored;
      if host.usb {
        ok, stored := host.device.TaWriteMultiple(PING_BUFFER_ADDRESS, header);
      } else {
        ok := host.device.MasterAccessMsword(PING_BUFFER_ADDRESS / WINDOW);
        if ok {
          ok, stored := host.device.WriteMultiple(SD_REQUEST_MASTER + PING_BUFFER_ADDRESS % WINDOW, header);
        }
      }
      assert ok ==> header[..stored] == header;
    }

    /** load_fw of the program memory, padded to whole words with what follows the file in its
        buffer. */
    method LoadTaInstructions(pmem: seq<byte>, size: nat) returns (ok: bool)
      requires Ready() && PaddedTo4(size) <= |pmem| && PaddedTo4(size) <= |host.device.memory|
      requires PaddedTo4(size) < 0x1_0000_0000
      modifies host.device
      ensures Ready()
      ensures ok == (host.device.faults == old(host.device.faults)) && old(host.device.faults) <= host.device.faults
      ensures ok ==> Loaded(old(host.device.memory), host.device.memory, PMEM_ADDRESS, pmem, PaddedTo4(size))
    {
      var instructionsSz := size;
      if instructionsSz % 4 != 0 {
        instructionsSz := instructionsSz + (4 - instructionsSz % 4);
      }
      ghost var stored, count;
      if host.usb {
        ok, stored := host.device.UsbLoadDataMasterWrite(PMEM_ADDRESS, instructionsSz, host.blockSize, pmem);
      } else {
        ok, stored, count := host.device.SdioLoadDataMasterWrite(PMEM_ADDRESS, instructionsSz, host.blockSize, pmem);
      }
    }

    method LoadImageCmd() returns (ok: bool)
      requires Ready()
      modifies host
      ensures Ready() && host.handed == old(host.handed) && host.headers == old(host.headers)
              && old(host.commands) <= host.commands
      ensures ok == (host.failures == old(host.failures)) && old(host.failures) <= host.failures
      ensures ok == Exchanged(old(host.script), false, LOAD_HOSTED_FW, LOADING_INITIATED).ok
      ensures ok ==> host.commands == old(host.commands) + [LOAD_HOSTED_FW] && host.TimerOff()
    {
      hide Exchanged;
      ExchangeMeaning(host.script, LOAD_HOSTED_FW, LOADING_INITIATED);
      ok := host.BlCmd(LOAD_HOSTED_FW, LOADING_INITIATED);
    }

    method JumpToZero() returns (ok: bool)
      requires Ready()
      modifies host
      ensures Ready() && host.handed == old(host.handed) && host.headers == old(host.headers)
              && old(host.commands) <= host.commands
      ensures ok == (host.failures == old(host.failures)) && old(host.failures) <= host.failures
      ensures ok ==> host.commands == old(host.commands) + [JUMP_TO_ZERO_PC] && host.TimerOff()
    {
      hide Exchanged;
      ExchangeMeaning(host.script, JUMP_TO_ZERO_PC, CMD_PASS);
      ok := host.BlCmd(JUMP_TO_ZERO_PC, CMD_PASS);
    }

    method LoadPmemdata(pmem: seq<byte>, size: nat) returns (ok: bool)
      requires Ready() && PaddedTo4(size) <= |pmem| && PaddedTo4(size) <= |host.device.memory|
      requires PaddedTo4(size) < 0x1_0000_0000
      modifies host, host.device
      ensures Ready() && host.handed == old(host.handed) && host.headers == old(host.headers)
              && old(host.commands) <= host.commands
      ensures ok == (host.device.faults == old(host.device.faults) && host.failures == old(host.failures))
      ensures old(host.device.faults) <= host.device.faults && old(host.failures) <= host.failures
      ensures ok ==> host.commands == old(host.commands) + [JUMP_TO_ZERO_PC] && host.TimerOff()
      ensures ok ==> Loaded(old(host.device.memory), host.device.memory, PMEM_ADDRESS, pmem, PaddedTo4(size))
    {
      ok := LoadTaInstructions(pmem, size);
      if ok {
        ok := JumpToZero();
      }
    }

    method PollingModeCmd(pmem: seq<byte>, size: nat) returns (ok: bool)
      requires Ready() && PaddedTo4(size) <= |pmem| && PaddedTo4(size) <= |host.device.memory|
      requires PaddedTo4(size) < 0x1_0000_0000
      modifies host, host.device
      ensures Ready() && host.handed == old(host.handed) && host.headers == old(host.headers)
              && old(host.commands) <= host.commands
      ensures ok == (host.device.faults == old(host.device.faults) && host.failures == old(host.failures))
      ensures old(host.device.faults) <= host.device.faults && old(host.failures) <= host.failures
      ensures mode.FullFlash? ==> ok == StartsFromFlash(old(host.script))
      ensures ok ==> host.TimerOff()
      ensures ok && mode.FullFlash? ==> host.commands == old(host.commands) + [POLLING_MODE, LOAD_HOSTED_FW]
      ensures |host.commands| > |old(host.commands)| ==> host.commands[|old(host.commands)|] == POLLING_MODE
      ensures ok && !mode.FullFlash?
              ==> host.commands == old(host.commands) + [POLLING_MODE, JUMP_TO_ZERO_PC]
                  && Loaded(old(host.device.memory), host.device.memory, PMEM_ADDRESS, pmem, PaddedTo4(size))
    {
      hide Exchanged, Loaded, Aligned;
      ExchangeMeaning(host.script, POLLING_MODE, CMD_PASS);
      ok := host.BlCmd(POLLING_MODE, CMD_PASS);
      if !ok {
        return;
      }
      if mode == FullFlash {
        ok := LoadImageCmd();
      } else {
        ok := LoadPmemdata(pmem, size);
      }
    }

    /** The image goes to flash, and is started from there.  When that fails the automatic read
        mode is restored, and the load fails. */
    method FwUpgrade(image: seq<byte>) returns (ok: bool)
      requires Ready() && host.handed == [] && !burning
      requires FLASHING_START_ADDRESS + 4 <= |image| < 0x1_0000_0000
      modifies host, host.device
      ensures Ready() && Handshaken(image, host.handed) && old(host.commands) <= host.commands
      ensures host.headers == old(host.headers)
      ensures ok == (host.Acceptable(image) && host.device.faults == old(host.device.faults)
                     && host.failures == old(host.failures))
      ensures old(host.device.faults) <= host.device.faults && old(host.failures) <= host.failures
      ensures |host.commands| > |old(host.commands)| ==> host.commands[|old(host.commands)|] == BURN_HOSTED_FW
      ensures ok ==> Delivered(image, host.handed) && host.TimerOff()
                     && host.commands == old(host.commands) + [BURN_HOSTED_FW] + Announcements(|host.handed|)
                                         + [EOF_REACHED, LOAD_HOSTED_FW]
    {
      hide Delivered, Handshaken, Announcements, Host.Acceptable, Exchanged, Host.Configured;
      HandshakenNone(image);
      ExchangeMeaning(host.script, BURN_HOSTED_FW, SEND_RPS_FILE);
      ok := host.BlCmd(BURN_HOSTED_FW, SEND_RPS_FILE);
      if !ok {
        return;
      }
      ok := host.AutoFwUpgrade(image);
      if ok {
        ok := LoadImageCmd();
      } else {
        ok := AutoReadModeCmd();
      }
    }

    /** What happens after the command is the verification of a burned bootloader; on any other
        path the load has failed. */
    method AutoReadModeCmd() returns (ok: bool)
      requires Ready()
      modifies host
      ensures Ready() && host.handed == old(host.handed) && host.headers == old(host.headers)
              && old(host.commands) <= host.commands
      ensures old(host.failures) <= host.failures && ok == (burning && host.failures == old(host.failures))
      ensures ok ==> host.commands == old(host.commands) + [CONFIG_AUTO_READ_MODE] && host.TimerOff()
    {
      hide Exchanged;
      ExchangeMeaning(host.script, CONFIG_AUTO_READ_MODE, CMD_PASS);
      ok := host.BlCmd(CONFIG_AUTO_READ_MODE, CMD_PASS);
      if !ok {
        return;
      }
      if burning {
        ok := host.ReadByMaster();
      } else {
        ok := false;
      }
    }

    /** The exchange, and what is made of it. */
    method AskForCheck() returns (failed: bool)
      requires Ready()
      modifies host
      ensures Ready() && host.TimerOff() && host.handed == old(host.handed)
      ensures var check := Check(old(host.script));
              && host.commands == old(host.commands) + (if check.written then [CHECK_CRC] else [])
              && host.headers
                 == old(host.headers) + (if check.written then CheckedBy(CHECK_CRC, host.device.memory) else [])
              && host.script == check.rest && failed == (check.reply == Some(CMD_FAIL))
              && host.failures == old(host.failures) + if check.ok then 0 else 1
    {
      hide Exchanged, Aligned;
      var ok, regoutVal;
      host.StartTimer();
      ok, regoutVal := host.BlWriteCmd(CHECK_CRC, CMD_PASS);
      ExchangeMeaning(old(host.script), CHECK_CRC, CMD_PASS);
      failed := false;
      if !ok {
        host.StopTimer();
        failed := regoutVal % 0x100 == CMD_FAIL;
      }
      host.StopTimer();
    }

    /** The bootloader checks the image in flash.  Only the reply that the check failed leads to
        an upgrade; on any other reply, and without one, the load goes on as if the check had
        passed. */
    method CheckCrcCmd(image: seq<byte>, pmem: seq<byte>, size: nat) returns (ok: bool)
      requires Ready() && host.handed == [] && !burning && (mode.FullFlash? || mode.FlashRam?)
      requires FLASHING_START_ADDRESS + 4 <= |image| < 0x1_0000_0000
      requires PaddedTo4(size) <= |pmem| && PaddedTo4(size) <= |host.device.memory|
      requires PaddedTo4(size) < 0x1_0000_0000
      modifies host, host.device
      ensures Ready() && Handshaken(image, host.handed)
      ensures var check := Check(old(host.script));
              Follows(old(host.commands), host.commands, check)
              && (check.reply != Some(CMD_FAIL) ==> host.handed == [])
              && (mode.FullFlash? && check.reply != Some(CMD_FAIL) ==> ok == StartsFromFlash(check.rest))
      ensures var check := Check(old(host.script));
              && host.headers == old(host.headers)
                                 + (if check.written then CheckedBy(CHECK_CRC, old(host.device.memory)) else [])
              && ok == ((check.reply == Some(CMD_FAIL) ==> host.Acceptable(image))
                        && host.device.faults == old(host.device.faults)
                        && host.failures == old(host.failures) + if check.ok then 0 else 1)
      ensures ok ==> Started(image, pmem, size, old(host.commands), old(host.device.memory), Check(old(host.script)))
    {
      hide Check, Exchanged, Loaded, Delivered, Handshaken, Announcements, Host.Configured, StartsFromFlash,
           StartCommands;
      HandshakenNone(image);
      var failed := AskForCheck();
      if failed {
        ok := FwUpgrade(image);
        StartBehindCheck(old(host.commands), Check(old(host.script)), mode.FullFlash?, |host.handed|);
        return;
      }
      StartBehindCheck(old(host.commands), Check(old(host.script)), mode.FullFlash?, 0);
      ok := PollingModeCmd(pmem, size);
    }

    /** The command behind the check, if there is one, depends on its reply alone. */
    predicate Follows(before: seq<byte>, after: seq<byte>, check: Outcome) {
      var checked := before + if check.written then [CHECK_CRC] else [];
      && checked <= after
      && (|after| > |checked|
          ==> after[|checked|] == if check.reply == Some(CMD_FAIL) then BURN_HOSTED_FW else POLLING_MODE)
    }

    /** What a load that succeeds has done from the check on. */
    ghost predicate Started(image: seq<byte>, pmem: seq<byte>, size: nat, before: seq<byte>, memory: seq<byte>,
                            check: Outcome)
      reads this, host, host.device
    {
      && host.TimerOff()
      && host.commands == before + StartCommands(check, mode.FullFlash?, |host.handed|)
      && (check.reply == Some(CMD_FAIL) ==> Delivered(image, host.handed))
      && (check.reply != Some(CMD_FAIL) && mode.FlashRam?
          ==> Loaded(memory, host.device.memory, PMEM_ADDRESS, pmem, PaddedTo4(size)))
    }

    /** The bootloader is replaced: its calibration data are read before, and verified after. */
    method BurnBootloader(image: seq<byte>) returns (ok: bool)
      requires Ready() && host.handed == [] && burning
      requires FLASHING_START_ADDRESS + 4 <= |image| < 0x1_0000_0000
      modifies host, host.device
      ensures Ready() && Handshaken(image, host.handed) && host.headers == old(host.headers)
      ensures ok == (host.Acceptable(image) && host.device.faults == old(host.device.faults)
                     && host.failures == old(host.failures))
      ensures ok ==> Delivered(image, host.handed) && host.TimerOff()
                     && host.commands == old(host.commands) + [BURN_BL] + Announcements(|host.handed|)
                                         + [EOF_REACHED, CONFIG_AUTO_READ_MODE]
    {
      hide Delivered, Handshaken, Announcements, Host.Acceptable, Exchanged, Host.Configured;
      HandshakenNone(image);
      ok := host.ReadByMaster();
      if !ok {
        return;
      }
      ExchangeMeaning(host.script, BURN_BL, SEND_RPS_FILE);
      ok := host.BlCmd(BURN_BL, SEND_RPS_FILE);
      if !ok {
        return;
      }
      ok := host.AutoFwUpgrade(image);
      if ok {
        ok := AutoReadModeCmd();
      }
    }

    /** load_fw_thru_sbl, with the files that it opens.  The timer never outlives the load. */
    method LoadFwThruSbl(capacity: int, image: seq<byte>, bootloader: seq<byte>, pmem: seq<byte>, size: nat)
      returns (ok: bool)
      requires Ready() && host.handed == []
      requires FLASHING_START_ADDRESS + 8 <= |image| < 0x1_0000_0000
      requires FLASHING_START_ADDRESS + 4 <= |bootloader| < 0x1_0000_0000
      requires PaddedTo4(size) <= |pmem| && PaddedTo4(size) <= |host.device.memory|
      requires PaddedTo4(size) < 0x1_0000_0000
      modifies host, host.device
      ensures host.TimerOff() && Handshaken(if burning then bootloader else image, host.handed)
      ensures if burning || mode.FullRam? || mode.OtherMode? then host.headers == old(host.headers)
              else ChecksHeader(old(host.headers), host.headers, image, host.coexMode)
      ensures !burning && mode.FullRam?
              ==> ok == (capacity > 0 && host.device.faults == old(host.device.faults)
                         && host.failures == old(host.failures))
      ensures !burning && (mode.FullFlash? || mode.FlashRam?)
              ==> var auto := AutoRead(old(host.script));
                  ok == (capacity > 0 && auto.ok
                         && StartSucceeds(image, Check(auto.rest), old(host.failures), old(host.device.faults)))
      ensures burning
              ==> ok == (capacity > 0 && host.Acceptable(bootloader) && host.device.faults == old(host.device.faults)
                         && host.failures == old(host.failures))
      ensures capacity <= 0 || (!burning && mode.OtherMode?) ==> !ok
      ensures ok && burning
              ==> Delivered(bootloader, host.handed)
                  && host.commands == old(host.commands) + [CONFIG_AUTO_READ_MODE] + [BURN_BL]
                                      + Announcements(|host.handed|) + [EOF_REACHED, CONFIG_AUTO_READ_MODE]
      ensures ok && !burning && mode.FullRam?
              ==> host.commands == old(host.commands) + [CONFIG_AUTO_READ_MODE] + [POLLING_MODE, JUMP_TO_ZERO_PC]
                  && Loaded(old(host.device.memory), host.device.memory, PMEM_ADDRESS, pmem, PaddedTo4(size))
      ensures ok && !burning && !mode.FullRam?
              ==> var check := Check(AutoRead(old(host.script)).rest);
                  && |host.headers| == |old(host.headers)| + (if check.written then 1 else 0)
                  && Started(image, pmem, size, old(host.commands) + [CONFIG_AUTO_READ_MODE],
                             WithHeader(old(host.device.memory), image), check)
    {
      hide Exchanged, Check, Loaded, Delivered, Handshaken, Announcements, Host.Configured, StartCommands, WithHeader,
           Host.Acceptable, HeaderFor;
      HandshakenNone(image);
      HandshakenNone(bootloader);
      ExchangeMeaning(host.script, CONFIG_AUTO_READ_MODE, CMD_PASS);
      ok := host.BlCmd(CONFIG_AUTO_READ_MODE, CMD_PASS);
      if ok && capacity > 0 {
        ok := LoadByMode(image, bootloader, pmem, size);
      } else {
        ok := false;
      }
      if !ok {
        host.StopTimer();
      }
    }

    /** RPS_IMAGE_HEADER: the header is written before its image is checked. */
    method RpsImageHeader(image: seq<byte>, pmem: seq<byte>, size: nat) returns (ok: bool)
      requires Ready() && host.handed == [] && !burning && (mode.FullFlash? || mode.FlashRam?)
      requires FLASHING_START_ADDRESS + 8 <= |image| < 0x1_0000_0000
      requires PaddedTo4(size) <= |pmem| && PaddedTo4(size) <= |host.device.memory|
      requires PaddedTo4(size) < 0x1_0000_0000
      modifies host, host.device
      ensures Handshaken(image, host.handed) && ChecksHeader(old(host.headers), host.headers, image, host.coexMode)
      ensures ok == StartSucceeds(image, Check(old(host.script)), old(host.failures), old(host.device.faults))
      ensures ok
              ==> && |host.headers| == |old(host.headers)| + (if Check(old(host.script)).written then 1 else 0)
                  && Started(image, pmem, size, old(host.commands), WithHeader(old(host.device.memory), image),
                             Check(old(host.script)))
    {
      hide Exchanged, Check, Loaded, Delivered, Handshaken, Announcements, Aligned, StartCommands, WithHeader,
           HeaderFor, Host.Acceptable;
      HandshakenNone(image);
      ok := WriteBlHeader(image);
      if ok {
        HeaderInMemory(old(host.device.memory), image);
        ok := CheckCrcCmd(image, pmem, size);
      }
    }

    lemma HeaderInMemory(memory: seq<byte>, image: seq<byte>)
      requires host.coexMode < 0x10 && |image| >= 24 && PONG_BUFFER_ADDRESS + FLASH_WRITE_CHUNK_SIZE <= |memory|
      ensures var h := CheckedBy(CHECK_CRC, WithHeader(memory, image));
              |h| == 1 && HeaderFor(h[0], image, host.coexMode)
    {
      var m, h := WithHeader(memory, image), BlHeader(image, host.coexMode);
      HeaderFields(image, host.coexMode);
      hide BlHeader, HeaderFor;
      assert m[PING_BUFFER_ADDRESS..PING_BUFFER_ADDRESS + HEADER_SIZE] == h;
    }

    /** No transfer failed and no exchange but the check, and the image was accepted if the reply
        made it necessary. */
    ghost predicate StartSucceeds(image: seq<byte>, check: Outcome, failures: nat, faults: nat)
      requires FLASHING_START_ADDRESS + 4 <= |image| < 0x1_0000_0000 && host.sectorSize > 0
      reads this, host, host.device
    {
      && (check.reply == Some(CMD_FAIL) ==> host.Acceptable(image))
      && host.failures == failures + (if check.ok then 0 else 1) && host.device.faults == faults
    }

    /** The jump to the first label, by mode. */
    method LoadByMode(image: seq<byte>, bootloader: seq<byte>, pmem: seq<byte>, size: nat) returns (ok: bool)
      requires Ready() && host.handed == []
      requires FLASHING_START_ADDRESS + 8 <= |image| < 0x1_0000_0000
      requires FLASHING_START_ADDRESS + 4 <= |bootloader| < 0x1_0000_0000
      requires PaddedTo4(size) <= |pmem| && PaddedTo4(size) <= |host.device.memory|
      requires PaddedTo4(size) < 0x1_0000_0000
      modifies host, host.device
      ensures Handshaken(if burning then bootloader else image, host.handed)
      ensures if burning || mode.FullRam? || mode.OtherMode? then host.headers == old(host.headers)
              else ChecksHeader(old(host.headers), host.headers, image, host.coexMode)
      ensures ok ==> host.TimerOff() && (burning || !mode.OtherMode?)
      ensures burning
              ==> ok == (host.Acceptable(bootloader) && host.device.faults == old(host.device.faults)
                         && host.failures == old(host.failures))
      ensures !burning && mode.FullRam?
              ==> ok == (host.device.faults == old(host.device.faults) && host.failures == old(host.failures))
      ensures !burning && (mode.FullFlash? || mode.FlashRam?)
              ==> ok == StartSucceeds(image, Check(old(host.script)), old(host.failures), old(host.device.faults))
      ensures ok && burning
              ==> Delivered(bootloader, host.handed)
                  && host.commands == old(host.commands) + [BURN_BL] + Announcements(|host.handed|)
                                      + [EOF_REACHED, CONFIG_AUTO_READ_MODE]
      ensures ok && !burning && mode.FullRam?
              ==> host.commands == old(host.commands) + [POLLING_MODE, JUMP_TO_ZERO_PC]
                  && Loaded(old(host.device.memory), host.device.memory, PMEM_ADDRESS, pmem, PaddedTo4(size))
      ensures ok && !burning && !mode.FullRam?
              ==> && |host.headers| == |old(host.headers)| + (if Check(old(host.script)).written then 1 else 0)
                  && Started(image, pmem, size, old(host.commands), WithHeader(old(host.device.memory), image),
                             Check(old(host.script)))
    {
      hide Exchanged, Check, Loaded, Delivered, Handshaken, Announcements, Host.Configured, StartCommands, WithHeader,
           Host.Acceptable, ChecksHeader;
      HandshakenNone(image);
      HandshakenNone(bootloader);
      if burning {
        ok := BurnBootloader(bootloader);
      } else if mode == FullFlash || mode == FlashRam {
        ok := RpsImageHeader(image, pmem, size);
      } else if mode == FullRam {
        ok := PollingModeCmd(pmem, size);
      } else {
        ok := false;
      }
    }

    /** The exchange that sets the automatic read mode. */
    function AutoRead(script: seq<Access>): (o: Outcome) {
      Exchanged(script, false, CONFIG_AUTO_READ_MODE, CMD_PASS)
    }

    function WithHeader(memory: seq<byte>, image: seq<byte>): (m: seq<byte>)
      requires host.coexMode < 0x10 && |image| >= 24 && PING_BUFFER_ADDRESS + 20 <= |memory|
      ensures |m| == |memory|
    {
      Write(memory, PING_BUFFER_ADDRESS, BlHeader(image, host.coexMode))
    }
  }

  /** A driver that is set up for a device with 256-byte blocks starts its firmware. */
  method LoadFirmware(memory: seq<byte>, usb: bool, flashCapacity: uint32, coexMode: nat, mode: Mode, burning: bool,
                      script: seq<Access>, image: seq<byte>, bootloader: seq<byte>, pmem: seq<byte>, size: nat)
    returns (ok: bool, device: Device, host: Host)
    requires PONG_BUFFER_ADDRESS + FLASH_WRITE_CHUNK_SIZE <= |memory| <= 0x1_0000_0000 && coexMode < 0x10
    requires FLASHING_START_ADDRESS + 8 <= |image| < 0x1_0000_0000
    requires FLASHING_START_ADDRESS + 4 <= |bootloader| < 0x1_0000_0000
    requires PaddedTo4(size) <= |pmem| && PaddedTo4(size) <= |memory| && PaddedTo4(size) < 0x1_0000_0000
    ensures fresh(device) && fresh(host) && host.device == device && host.TimerOff()
    ensures !burning && mode.FullRam? ==> ok == (flashCapacity > 0 && device.faults == 0 && host.failures == 0)
    ensures host.sectorSize == SECTOR_SIZE && host.flashCapacity == flashCapacity
    ensures host.minStart == if burning then SECTOR_SIZE else FW_IMAGE_MIN_ADDRESS
    ensures burning
            ==> ok == (flashCapacity > 0 && host.Acceptable(bootloader) && device.faults == 0 && host.failures == 0)
    ensures !burning && (mode.FullFlash? || mode.FlashRam?)
            ==> var auto := Exchanged(script, false, CONFIG_AUTO_READ_MODE, CMD_PASS);
                ok == (flashCapacity > 0 && auto.ok
                       && (Check(auto.rest).reply == Some(CMD_FAIL) ==> host.Acceptable(image))
                       && host.failures == (if Check(auto.rest).ok then 0 else 1) && device.faults == 0)
    ensures !burning && (mode.FullFlash? || mode.FlashRam?)
            ==> host.headers == [] || (|host.headers| == 1 && HeaderFor(host.headers[0], image, coexMode))
    ensures ok && burning
            ==> Delivered(bootloader, host.handed)
                && host.commands == [CONFIG_AUTO_READ_MODE, BURN_BL] + Announcements(|host.handed|)
                                    + [EOF_REACHED, CONFIG_AUTO_READ_MODE]
    ensures ok && !burning && mode.FullRam?
            ==> host.commands == [CONFIG_AUTO_READ_MODE, POLLING_MODE, JUMP_TO_ZERO_PC]
                && Loaded(memory, device.memory, PMEM_ADDRESS, pmem, PaddedTo4(size))
    ensures ok && !burning && !mode.FullRam?
            ==> var check := Check(Exchanged(script, false, CONFIG_AUTO_READ_MODE, CMD_PASS).rest);
                && host.commands == [CONFIG_AUTO_READ_MODE]
                                    + StartCommands(check, mode.FullFlash?, |host.handed|)
                && (check.reply == Some(CMD_FAIL) ==> Delivered(image, host.handed))
  {
    hide Exchanged, Delivered, Handshaken, Announcements, StartCommands, Loaded, Write, BlHeader, PaddedTo4, HeaderFor,
         Host.Acceptable;
    device := new Device(memory);
    var minStart := if burning then SECTOR_SIZE else FW_IMAGE_MIN_ADDRESS;
    host := new Host(device, usb, 256, flashCapacity, minStart, SECTOR_SIZE, coexMode, script);
    var sbl := new Sbl(host, mode, burning);
    ok := sbl.LoadFwThruSbl(flashCapacity, image, bootloader, pmem, size);
  }
}
