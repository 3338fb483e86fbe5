/** The host side of flashing, for one burn.  The count of confirms is never reset, so a burn
    starts with what earlier ones have left in it, and confirms of frames of an earlier one may
    come late.  The receive thread handles confirms between any two
    statements of the flashing thread, so every method below calls Interfere wherever the
    two threads share state. */
module FlashHost {
  import opened Bytes
  import opened FlashLimits
  import opened Flash

  class Burner {
    const sector: nat                // FLASH_SECTOR_SIZE
    const readChunk: nat             // USB_ or SDIO_FLASH_READ_CHUNK_SIZE
    const startCount: byte           // the count before the burn
    const earlier: seq<Frame>        // the frames that the device had not confirmed then
    var eepromCfmCount: byte         // an unsigned char in the adapter, never reset
    var flashEvent: bool
    var dataRcv: seq<bv8>            // what the latest read confirm brought
    // The device: the flash, the frames of this burn sent to it, how many it has confirmed
    // since, the earlier ones first, and the read it has not answered.
    var flash: seq<bv8>
    var frames: seq<Frame>
    var confirmed: nat
    var pendingRead: bool
    var readOffset: nat
    var readLength: nat
    ghost const initial: seq<bv8>
    ghost var peak: nat              // the most frames ever unconfirmed at once
    ghost var failures: nat          // frames and reads refused by the bus, and waits that timed out

    constructor (flash: seq<bv8>, sector: nat, readChunk: nat, startCount: byte, earlier: seq<Frame>)
      requires sector > 0
      ensures Valid() && this.flash == flash == initial && this.sector == sector && this.readChunk == readChunk
      ensures this.startCount == startCount && this.earlier == earlier
      ensures frames == [] && confirmed == 0 && !pendingRead && peak == |earlier|
    {
      this.flash, this.initial, this.sector, this.readChunk := flash, flash, sector, readChunk;
      this.startCount, this.earlier := startCount, earlier;
      frames, confirmed, eepromCfmCount, flashEvent, dataRcv := [], 0, startCount, false, [];
      pendingRead, readOffset, readLength, peak, failures := false, 0, 0, |earlier|, 0;
    }

    /** The device applies frames in order; each confirm counts one, modulo 256. */
    ghost predicate Valid()
      reads this
    {
      && sector > 0 && confirmed <= |earlier| + |frames| && eepromCfmCount == CountAfter(startCount, confirmed)
      && flash == ApplyAll(initial, sector, (earlier + frames)[..confirmed])
      && |earlier| + |frames| - confirmed <= peak
    }

    ghost function Unconfirmed(): (n: int)
      reads this
    {
      |earlier| + |frames| - confirmed
    }

    /** The most that may be unconfirmed between two sends. */
    ghost function Bound(): (n: nat)
      reads this
    {
      Ahead(startCount, |earlier|)
    }

    /** One EEPROM_WRITE confirm, handled as one step. */
    method ConfirmWrite()
      requires Valid() && confirmed < |earlier| + |frames|
      modifies this`flash, this`confirmed, this`eepromCfmCount, this`flashEvent
      ensures Valid() && confirmed == old(confirmed) + 1 && flashEvent
    {
      var sent := earlier + frames;
      assert sent[..confirmed + 1][..confirmed] == sent[..confirmed];
      flash := Apply(flash, sector, sent[confirmed]);
      confirmed := confirmed + 1;
      eepromCfmCount := (eepromCfmCount + 1) % 256;
      flashEvent := true;
    }

    /** What the receive thread may do between two statements: any number of confirms, each
        for a frame that was sent. */
    method Interfere()
      requires Valid()
      modifies this`flash, this`confirmed, this`eepromCfmCount, this`flashEvent
      ensures Valid() && old(confirmed) <= confirmed
      ensures flashEvent <==> old(flashEvent) || confirmed > old(confirmed)
      ensures confirmed == old(confirmed) ==> flash == old(flash)
    {
      var n: nat := *;
      var was := flashEvent;
      while n > 0 && confirmed < |earlier| + |frames|
        invariant Valid() && old(confirmed) <= confirmed
        invariant flashEvent <==> was || confirmed > old(confirmed)
        invariant confirmed == old(confirmed) ==> flash == old(flash)
      {
        ConfirmWrite();
        n := n - 1;
      }
    }

    /** auto_flash_write: the frame is on its way, or nothing was sent. */
    method SendFrame(f: Frame) returns (ok: bool)
      requires Valid()
      requires Unconfirmed() <= Bound() && peak <= Bound() + 1
      modifies this`frames, this`peak, this`failures
      ensures ok == (failures == old(failures)) && old(failures) <= failures
      ensures Valid() && peak <= Bound() + 1
      ensures frames == if ok then old(frames) + [f] else old(frames)
    {
      ok := *;
      if ok {
        assert (earlier + (frames + [f]))[..confirmed] == (earlier + frames)[..confirmed];
        frames := frames + [f];
        if peak < |earlier| + |frames| - confirmed {
          peak := |earlier| + |frames| - confirmed;
        }
      } else {
        failures := failures + 1;
      }
    }

    /** Waits until the event is set or the time is up. */
    method WaitEvent() returns (status: bool)
      requires Valid()
      modifies this`flash, this`confirmed, this`eepromCfmCount, this`flashEvent, this`failures
      ensures status == (failures == old(failures)) && old(failures) <= failures
      ensures Valid() && old(confirmed) <= confirmed
      ensures status ==> old(flashEvent) || confirmed > old(confirmed)
      ensures confirmed == old(confirmed) ==> flash == old(flash)
    {
      if flashEvent {
        return true;
      }
      Interfere();
      status := flashEvent;
      if !status {
        failures := failures + 1;
      }
    }

    /** Sends one frame, then waits if the counts differ by two or more. */
    method SendAndThrottle(f: Frame, idx: uint32) returns (ok: bool)
      requires Valid() && |frames| == idx < 0xFFFF_FFFF
      requires Unconfirmed() <= Bound() && peak <= Bound() + 1
      modifies this`flash, this`frames, this`peak, this`confirmed, this`eepromCfmCount, this`flashEvent, this`failures
      ensures ok == (failures == old(failures)) && old(failures) <= failures
      ensures Valid() && (frames == old(frames) || frames == old(frames) + [f])
      ensures peak <= Bound() + 1
      ensures ok ==> frames == old(frames) + [f] && Unconfirmed() <= Bound()
    {
      ok := SendFrame(f);
      if ok {
        Interfere();
        flashEvent := false;
        ok := Throttle(idx + 1);
      }
    }

    /** With sent frames on their way and the event just reset, waits unless the counts, as
        unsigned 32-bit numbers, differ by less than two. */
    method Throttle(sent: uint32) returns (ok: bool)
      requires Valid() && |frames| == sent && Unconfirmed() <= Bound() + 1 && !flashEvent
      modifies this`flash, this`confirmed, this`eepromCfmCount, this`flashEvent, this`failures
      ensures ok == (failures == old(failures)) && old(failures) <= failures
      ensures Valid() && (ok ==> Unconfirmed() <= Bound())
    {
      ok := true;
      Interfere();
      PassesUnwaited(startCount, |earlier|, confirmed, sent);
      if Sub32(sent, eepromCfmCount) >= 2 {
        Interfere();
        ok := WaitEvent();
      }
    }

    method SendChunk(image: seq<bv8>, ghost start: uint32, idx: uint32, eepromOffset: uint32, instructionsSz: nat)
      returns (ok: bool, chunkSize: nat)
      requires Valid() && SectorSize(sector) && idx < FrameCount(|image|) && |image| < 0x1_0000_0000
      requires instructionsSz == |image| - idx * FLASH_WRITE_CHUNK_SIZE && eepromOffset == OffsetAt(start, idx)
      requires |frames| == idx && Unconfirmed() <= Bound() && peak <= Bound() + 1
      requires frames == Frames(start, image, sector, idx)
      modifies this`flash, this`frames, this`peak, this`confirmed, this`eepromCfmCount, this`flashEvent, this`failures
      ensures ok == (failures == old(failures)) && old(failures) <= failures
      ensures Valid() && peak <= Bound() + 1
      ensures |frames| == idx || |frames| == idx + 1
      ensures frames == Frames(start, image, sector, |frames|)
      ensures ok ==> |frames| == idx + 1 && Unconfirmed() <= Bound()
      ensures chunkSize == |Chunk(image, idx)|
    {
      chunkSize := FLASH_WRITE_CHUNK_SIZE;
      if instructionsSz < FLASH_WRITE_CHUNK_SIZE {
        chunkSize := instructionsSz;
      }
      var eepromErase := idx % (sector / FLASH_WRITE_CHUNK_SIZE) == 0;
      var from := idx * FLASH_WRITE_CHUNK_SIZE;
      var f := Frame(eepromOffset, image[from..from + chunkSize], eepromErase);
      assert f == FrameAt(start, image, sector, idx);
      hide Burner.Valid, Chunk, FrameAt, FrameCount, OffsetAt, SectorSize;
      ok := SendAndThrottle(f, idx);
    }

    /** A success leaves as many frames unconfirmed as the count and the late frames at the start
        determine, modulo 256; if no confirm is late, as many as the count, which is 0 or 1. */
    method TriggerAutoFlashBurn(image: seq<bv8>, start: uint32) returns (ok: bool)
      requires Valid() && SectorSize(sector) && |image| < 0x1_0000_0000
      requires frames == [] && confirmed == 0 && peak == |earlier|
      modifies this`flash, this`frames, this`peak, this`confirmed, this`eepromCfmCount, this`flashEvent, this`failures
      ensures ok == (failures == old(failures)) && old(failures) <= failures
      ensures Valid() && peak <= Bound() + 1
      ensures |frames| <= FrameCount(|image|) && frames == Frames(start, image, sector, |frames|)
      ensures ok ==> |frames| == FrameCount(|image|) < 256 && Leaves(startCount, |earlier|, Unconfirmed())
      ensures ok && Clean(startCount, |earlier|)
              ==> Unconfirmed() == 0
                  && flash == ApplyAll(initial, sector, earlier + Frames(start, image, sector, FrameCount(|image|)))
    {
      var numLoops := |image| / FLASH_WRITE_CHUNK_SIZE;
      if |image| % FLASH_WRITE_CHUNK_SIZE != 0 {
        numLoops := numLoops + 1;
      }
      var idx, eepromOffset, instructionsSz, chunkSize := 0, start, |image|, 0;
      assert numLoops == FrameCount(|image|) && start == OffsetAt(start, 0);
      assert Unconfirmed() <= Bound();
      hide Burner.Valid, Chunk, OffsetAt, SectorSize, ApplyAll, Leaves, Clean, Ahead;
      while idx < numLoops
        invariant 0 <= idx <= numLoops
        invariant idx < numLoops ==> instructionsSz == |image| - idx * FLASH_WRITE_CHUNK_SIZE
        invariant idx < numLoops ==> eepromOffset == OffsetAt(start, idx)
        invariant Valid() && |frames| == idx && Unconfirmed() <= Bound() && peak <= Bound() + 1
        invariant frames == Frames(start, image, sector, idx) && failures == old(failures)
      {
        ok, chunkSize := SendChunk(image, start, idx, eepromOffset, instructionsSz);
        if !ok {
          return;
        }
        NextChunk(image, start, idx);
        eepromOffset := Add32(eepromOffset, chunkSize);
        instructionsSz := instructionsSz - chunkSize;
        idx := idx + 1;
      }
      ok := AwaitConfirms(idx);
    }

    /** The closing loop: the event is reset and awaited until the counts agree. */
    method AwaitConfirms(idx: nat) returns (ok: bool)
      requires Valid() && |frames| == idx && Unconfirmed() <= Bound()
      modifies this`flash, this`confirmed, this`eepromCfmCount, this`flashEvent, this`failures
      ensures ok == (failures == old(failures)) && old(failures) <= failures
      ensures Valid() && old(confirmed) <= confirmed <= |earlier| + |frames|
      ensures ok ==> idx < 256 && Leaves(startCount, |earlier|, Unconfirmed())
      ensures ok && Clean(startCount, |earlier|)
              ==> Unconfirmed() == 0 && flash == ApplyAll(initial, sector, earlier + frames)
    {
      hide ApplyAll;
      ok := true;
      while idx != eepromCfmCount
        invariant Valid() && confirmed >= old(confirmed) && failures == old(failures) && ok
        decreases |earlier| + |frames| - confirmed
      {
        flashEvent := false;
        Interfere();
        ok := WaitEvent();
        if !ok {
          return;
        }
      }
      ExitsExactly(startCount, |earlier|, confirmed, idx);
      LeavesNothingExactly(startCount, |earlier|);
      assert Unconfirmed() == 0 ==> (earlier + frames)[..confirmed] == earlier + frames;
    }

    /** The device answers an outstanding read.  An answer of another length than the one
        asked for is ignored, and a right one lands at the start of the receive buffer. */
    method AnswerRead()
      requires Valid()
      modifies this`pendingRead, this`dataRcv, this`flashEvent
      ensures pendingRead ==> flashEvent == old(flashEvent) && old(pendingRead)
      ensures !pendingRead && old(pendingRead) ==>
                && flashEvent
                && ReadAt(flash, readOffset, readLength) <= dataRcv
      ensures !old(pendingRead) ==> !pendingRead && flashEvent == old(flashEvent) && dataRcv == old(dataRcv)
    {
      var now := *;
      if pendingRead && now {
        var data := ReadAt(flash, readOffset, readLength);
        dataRcv := data + if |dataRcv| > |data| then dataRcv[|data|..] else [];
        pendingRead, flashEvent := false, true;
      }
    }

    /** flash_read and the wait for its confirm, which a confirm of a write ends as well. */
    method ReadChunk(offset: uint32, len: nat) returns (ok: bool)
      requires Valid()
      modifies this`pendingRead, this`readOffset, this`readLength, this`dataRcv, this`flashEvent,
               this`flash, this`confirmed, this`eepromCfmCount, this`failures
      ensures Valid() && old(confirmed) <= confirmed
      ensures old(Unconfirmed()) == 0 ==> flash == old(flash) && (ok ==> ReadAt(flash, offset, len) <= dataRcv)
      ensures ok == (failures == old(failures)) && old(failures) <= failures
    {
      ok := *;
      if !ok {
        failures := failures + 1;
        return;
      }
      pendingRead, readOffset, readLength := true, offset, len;
      AnswerRead();
      Interfere();
      flashEvent := false;
      AnswerRead();
      Interfere();
      ok := flashEvent;
      if !ok {
        failures := failures + 1;
      }
    }

    /** Reads one chunk back and compares it with the image. */
    method CompareChunk(image: seq<bv8>, done: nat, offset: uint32, chunkSize: nat) returns (ok: bool)
      requires Valid() && done + chunkSize <= |image|
      modifies this`pendingRead, this`readOffset, this`readLength, this`dataRcv, this`flashEvent,
               this`flash, this`confirmed, this`eepromCfmCount, this`failures
      ensures Valid() && old(confirmed) <= confirmed
      ensures old(Unconfirmed()) == 0
              ==> flash == old(flash)
                  && (failures == old(failures)
                      ==> (ok <==> ReadAt(flash, offset, chunkSize) == image[done..done + chunkSize]))
      ensures (ok ==> failures == old(failures)) && old(failures) <= failures
    {
      ok := ReadChunk(offset, chunkSize);
      if ok {
        ok := chunkSize <= |dataRcv| && image[done..done + chunkSize] == dataRcv[..chunkSize];
      }
    }

    /** verify_flash_content in EEPROM read mode.  While frames are unconfirmed the flash may
        still change under it. */
    method VerifyFlashContent(image: seq<bv8>, start: uint32) returns (ok: bool)
      requires Valid() && readChunk > 0 && |image| < 0x1_0000_0000
      modifies this`pendingRead, this`readOffset, this`readLength, this`dataRcv, this`flashEvent,
               this`flash, this`confirmed, this`eepromCfmCount, this`failures
      ensures Valid() && old(confirmed) <= confirmed
      ensures old(Unconfirmed()) == 0 ==> flash == old(flash)
      ensures (ok ==> failures == old(failures)) && old(failures) <= failures
      ensures failures == old(failures) && old(Unconfirmed()) == 0 && start + |image| <= |flash| <= 0x1_0000_0000
              ==> (ok <==> flash[start..start + |image|] == image)
    {
      var done, offset, instructionsSz := 0, start, |image|;
      ghost var quiet := Unconfirmed() == 0;
      hide ReadAt, ApplyAll;
      while instructionsSz > 0
        invariant instructionsSz == |image| - done && done <= |image|
        invariant offset == Add32(start, done)
        invariant failures == old(failures)
        invariant Valid() && old(confirmed) <= confirmed && (quiet ==> Unconfirmed() == 0 && flash == old(flash))
        invariant quiet && start + |image| <= |flash| <= 0x1_0000_0000 ==> flash[start..start + done] == image[..done]
      {
        var chunkSize := if instructionsSz < readChunk then instructionsSz else readChunk;
        ok := CompareChunk(image, done, offset, chunkSize);
        if !ok {
          if quiet && start + |image| <= |flash| <= 0x1_0000_0000 {
            MatchHasPart(flash, start, image, done, chunkSize);
          }
          return;
        }
        if quiet && start + |image| <= |flash| <= 0x1_0000_0000 {
          ExtendMatch(flash, start, image, done, chunkSize);
        }
        offset := Add32(offset, chunkSize);
        instructionsSz := instructionsSz - chunkSize;
        done := done + chunkSize;
      }
      assert image[..|image|] == image;
      ok := true;
    }

    /** auto_load_flash_content; flashStartAddress is the word at offset 16 of the image. */
    method AutoLoadFlashContent(image: seq<bv8>, flashStartAddress: uint32) returns (ok: bool)
      requires Valid() && SectorSize(sector) && readChunk > 0 && |image| < 0x1_0000_0000
      requires frames == [] && confirmed == 0 && peak == |earlier|
      modifies this
      ensures Valid() && peak <= Bound() + 1
      ensures !LoadAllowed(|image|, flashStartAddress, sector) ==> !ok && flash == old(flash) && frames == []
      ensures flashStartAddress + |image| < 0x1_0000_0000
              ==> forall k :: 0 <= k < |frames| ==>
                    sector < frames[k].offset && frames[k].offset + |frames[k].data| <= FLASH_MAX_ADDRESS
      ensures ok ==> |frames| == FrameCount(|image|) < 256
      ensures ok && Clean(startCount, |earlier|)
              ==> Unconfirmed() == 0
                  && flash == ApplyAll(initial, sector,
                                       earlier + Frames(flashStartAddress, image, sector, FrameCount(|image|)))
      ensures ok && Clean(startCount, |earlier|) && flashStartAddress + |image| <= |flash| <= 0x1_0000_0000 ==>
                flash[flashStartAddress..flashStartAddress + |image|] == image
      ensures ok ==> failures == old(failures)
      ensures LoadAllowed(|image|, flashStartAddress, sector) && Clean(startCount, |earlier|)
              && flashStartAddress + |image| <= |initial| <= 0x1_0000_0000
              ==> ok == (failures == old(failures))
    {
      ok := LoadAllowed(|image|, flashStartAddress, sector);
      if !ok {
        return;
      }
      assert Aligned(flashStartAddress, sector);
      hide *;
      ok := TriggerAutoFlashBurn(image, flashStartAddress);
      if flashStartAddress + |image| < 0x1_0000_0000 {
        AllFramesInFlash(image, flashStartAddress, sector, |frames|);
      }
      if !ok {
        return;
      }
      if Clean(startCount, |earlier|) && flashStartAddress + |image| <= |initial| <= 0x1_0000_0000 {
        BurnsBehindEarlier(initial, earlier, flashStartAddress, image, sector);
      }
      ok := VerifyFlashContent(image, flashStartAddress);
    }
  }

  /** The count, an unsigned char, after so many confirms. */
  function CountAfter(start: byte, confirms: nat): (c: byte) {
    (start + confirms) % 256
  }

  /** How many frames may be unconfirmed between two sends. */
  function Ahead(start: byte, late: nat): (n: nat) {
    if start < 2 then late + start + 1 else late
  }

  /** A send is not followed by a wait only if as many frames are unconfirmed as were late and as
      the count was ahead at the start, or one more, or if the count has wrapped around. */
  lemma PassesUnwaited(start: byte, late: nat, confirmed: nat, sent: uint32)
    requires confirmed <= late + sent
    ensures var left := late + sent - confirmed;
            Sub32(sent, CountAfter(start, confirmed)) < 2
            ==> late + start <= left <= late + start + 1 || left + 255 <= late + start
  {
  }

  /** The closing loop ends when the count equals the number of frames. */
  predicate Ends(start: byte, confirmed: nat, frames: nat) {
    frames == CountAfter(start, confirmed)
  }

  /** That is the case exactly when there are less than 256 frames, and as many unconfirmed, up to
      a multiple of 256, as were late and as the count was ahead at the start. */
  lemma ExitsExactly(start: byte, late: nat, confirmed: nat, frames: nat)
    requires confirmed <= late + frames
    ensures var left := late + frames - confirmed;
            && (Ends(start, confirmed, frames) <==> frames < 256 && left % 256 == (late + start) % 256)
            && (Ends(start, confirmed, frames) ==> left <= late + start)
  {
  }

  /** How many frames a burn that succeeds may leave unconfirmed. */
  predicate Leaves(start: byte, late: nat, left: nat) {
    left % 256 == (late + start) % 256 && left <= if start < 2 then late + start else late
  }

  /** Nothing is ahead and nothing late, or both together are one round of the count. */
  predicate Clean(start: byte, late: nat) {
    (start == 0 && late == 0) || (start >= 2 && start + late == 256)
  }

  /** Success is possible, and then leaves nothing unconfirmed, exactly from a clean start. */
  lemma LeavesNothingExactly(start: byte, late: nat)
    ensures Clean(start, late)
            <==> (exists left: nat :: Leaves(start, late, left))
                 && forall left: nat :: Leaves(start, late, left) ==> left == 0
  {
    if start < 2 {
      assert Leaves(start, late, late + start);
    } else if start + late >= 256 {
      assert Leaves(start, late, late + start - 256);
    }
    if Clean(start, late) {
      assert Leaves(start, late, 0);
    }
  }

  /** From any other start from which success is possible, a burn of one frame ends, at the first
      confirm with which it can, before all are confirmed. */
  lemma UncleanEndsEarly(start: byte, late: nat) returns (confirmed: nat)
    requires !Clean(start, late) && exists left: nat :: Leaves(start, late, left)
    ensures Ends(start, confirmed, 1) && confirmed < late + 1
    ensures forall c: nat :: c < confirmed ==> !Ends(start, c, 1)
  {
    confirmed := if start < 2 then 1 - start else 257 - start;
  }

  /** With no late frames as many stay unconfirmed as the count was ahead, which is one at most. */
  lemma LeavesOnTime(start: byte, left: nat)
    ensures Leaves(start, 0, left) <==> left == start < 2
  {
  }

  /** A burn that starts with a count of 1, as after a failure behind one confirm: its only frame
      is sent without a wait, and the loop ends before the frame is confirmed. */
  lemma StaleCountEndsBurn(flash: seq<bv8>, sector: nat, f: Frame)
    requires sector > 0 && Apply(flash, sector, f) != flash
    ensures Sub32(1, CountAfter(1, 0)) < 2 && Ends(1, 0, 1)
    ensures ApplyAll(flash, sector, [f][..0]) != ApplyAll(flash, sector, [f])
  {
    assert [f][..1] == [f];
    assert ApplyAll(flash, sector, [f]) == Apply(ApplyAll(flash, sector, [f][..0]), sector, f);
  }

  /** The checks made before anything is sent to the flash. */
  predicate LoadAllowed(size: nat, start: uint32, sector: nat)
    requires sector > 0 && size < 0x1_0000_0000
  {
    && size <= MAX_FLASH_FILE_SIZE
    && start > sector
    && start % sector == 0
    && Add32(start, size) <= FLASH_MAX_ADDRESS
  }

  /** The checks, where the sum of start and size is a 32-bit one: a start close to the end of the
      address space passes as well. */
  lemma LoadAllowedExactly(size: nat, start: uint32, sector: nat)
    requires sector > 0 && size < 0x1_0000_0000
    ensures LoadAllowed(size, start, sector)
            <==> size <= 409600 && start > sector && start % sector == 0
                 && (start + size <= FLASH_MAX_ADDRESS || 0x1_0000_0000 <= start + size)
  {
  }

  /** Such a start, with a sector of 4 KiB: the image of 8 KiB ends behind the address space. */
  lemma WrappedStartAllowed()
    ensures LoadAllowed(8192, 0xFFFF_F000, 4096) && 0xFFFF_F000 + 8192 > 0x1_0000_0000
  {
  }

  /** Unless the sum wraps around, no frame of an allowed burn lies in the first sector or beyond
      the flash. */
  lemma FramesInFlash(image: seq<bv8>, start: uint32, sector: nat, n: nat, k: nat)
    requires SectorSize(sector) && |image| < 0x1_0000_0000 && k < n <= FrameCount(|image|)
    requires LoadAllowed(|image|, start, sector) && start + |image| < 0x1_0000_0000
    ensures var f := Frames(start, image, sector, n)[k];
            f.offset == start + k * FLASH_WRITE_CHUNK_SIZE && sector < f.offset
            && f.offset + |f.data| <= FLASH_MAX_ADDRESS
  {
    FramesAt(image, start, sector, n, k);
    ChunkInside(image, start, k);
    hide Frames, Chunk, OffsetAt, FrameCount, SectorSize;
  }

  lemma ChunkInside(image: seq<bv8>, start: uint32, k: nat)
    requires k < FrameCount(|image|) && start + |image| < 0x1_0000_0000
    ensures OffsetAt(start, k) == start + k * FLASH_WRITE_CHUNK_SIZE
    ensures k * FLASH_WRITE_CHUNK_SIZE + |Chunk(image, k)| <= |image|
  {
  }

  lemma AllFramesInFlash(image: seq<bv8>, start: uint32, sector: nat, n: nat)
    requires SectorSize(sector) && |image| < 0x1_0000_0000 && n <= FrameCount(|image|)
    requires LoadAllowed(|image|, start, sector) && start + |image| < 0x1_0000_0000
    ensures forall k :: 0 <= k < n ==>
              var f := Frames(start, image, sector, n)[k];
              sector < f.offset && f.offset + |f.data| <= FLASH_MAX_ADDRESS
  {
    forall k | 0 <= k < n
      ensures var f := Frames(start, image, sector, n)[k];
              sector < f.offset && f.offset + |f.data| <= FLASH_MAX_ADDRESS
    {
      FramesInFlash(image, start, sector, n, k);
    }
  }

  lemma {:induction false} FramesAt(image: seq<bv8>, start: uint32, sector: nat, n: nat, k: nat)
    requires SectorSize(sector) && k < n <= FrameCount(|image|)
    ensures Frames(start, image, sector, n)[k] == FrameAt(start, image, sector, k)
  {
    if k < n - 1 {
      FramesAt(image, start, sector, n - 1, k);
    }
  }

  /** Whatever the device did for the earlier frames, the burn leaves the image in place. */
  lemma BurnsBehindEarlier(before: seq<bv8>, earlier: seq<Frame>, start: uint32, image: seq<bv8>, sector: nat)
    requires SectorSize(sector) && Aligned(start, sector)
    requires start + |image| <= |before| <= 0x1_0000_0000
    ensures var after := ApplyAll(before, sector, earlier + Frames(start, image, sector, FrameCount(|image|)));
            after[start..start + |image|] == image
  {
    var fs := Frames(start, image, sector, FrameCount(|image|));
    AppliedInTurn(before, sector, earlier, fs);
    BurnGivesImage(ApplyAll(before, sector, earlier), start, image, sector);
  }

  lemma {:induction false} AppliedInTurn(flash: seq<bv8>, sector: nat, a: seq<Frame>, b: seq<Frame>)
    requires sector > 0
    ensures ApplyAll(flash, sector, a + b) == ApplyAll(ApplyAll(flash, sector, a), sector, b)
  {
    if b == [] {
      assert a + b == a;
    } else {
      AppliedInTurn(flash, sector, a, b[..|b| - 1]);
      assert (a + b)[..|a + b| - 1] == a + b[..|b| - 1];
    }
  }

  lemma ExtendMatch(flash: seq<bv8>, start: nat, image: seq<bv8>, done: nat, len: nat)
    requires done + len <= |image| && start + |image| <= |flash|
    requires flash[start..start + done] == image[..done]
    requires ReadAt(flash, start + done, len) == image[done..done + len]
    ensures flash[start..start + done + len] == image[..done + len]
  {
    forall i | 0 <= i < done + len
      ensures flash[start..start + done + len][i] == image[i]
    {
      if i < done {
        assert flash[start..start + done][i] == image[..done][i];
      } else {
        assert ReadAt(flash, start + done, len)[i - done] == image[done..done + len][i - done];
      }
    }
  }

  lemma MatchHasPart(flash: seq<bv8>, start: nat, image: seq<bv8>, done: nat, len: nat)
    requires done + len <= |image| && start + |image| <= |flash|
    ensures flash[start..start + |image|] == image ==> ReadAt(flash, start + done, len) == image[done..done + len]
  {
    if flash[start..start + |image|] == image {
      assert image[done..done + len] == flash[start..start + |image|][done..done + len];
    }
  }

  /** What the device returns for a read. */
  function ReadAt(flash: seq<bv8>, offset: nat, len: nat): (r: seq<bv8>)
    ensures |r| == len
  {
    seq(len, i requires 0 <= i => if offset + i < |flash| then flash[offset + i] else 0xFF)
  }

  lemma NextChunk(image: seq<bv8>, start: uint32, k: nat)
    requires k < FrameCount(|image|)
    ensures |Chunk(image, k)| <= FLASH_WRITE_CHUNK_SIZE
    ensures k + 1 < FrameCount(|image|) ==>
              && |Chunk(image, k)| == FLASH_WRITE_CHUNK_SIZE
              && OffsetAt(start, k + 1) == Add32(OffsetAt(start, k), FLASH_WRITE_CHUNK_SIZE)
  {
  }
}
