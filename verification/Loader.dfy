/** The two block loaders: usb_load_data_master_write, which names a full 32-bit address in
    every transfer, and sdio_load_data_master_write, which reaches the device through a
    64 KiB window selected by two 8-bit registers. */
module Loader {
  import opened Bytes

  const WINDOW: int := 0x1_0000
  const SD_REQUEST_MASTER: int := 0x1_0000

  /** The upper half of an address, which selects the window. */
  function High(address: uint32): (w: uint16) {
    address / WINDOW
  }

  /** Device memory after data has been stored at the address. */
  function Write(m: seq<byte>, address: nat, data: seq<byte>): (m': seq<byte>)
    requires address + |data| <= |m|
    ensures |m'| == |m|
  {
    m[..address] + data + m[address + |data|..]
  }

  /** Two transfers to adjacent ranges are one transfer. */
  lemma WriteAdjacent(m: seq<byte>, address: nat, d: seq<byte>, e: seq<byte>)
    requires address + |d| + |e| <= |m|
    ensures Write(Write(m, address, d), address + |d|, e) == Write(m, address, d + e)
  {
  }

  /** One transfer through the SDIO window: the window register, the 16-bit offset in the
      window, and the data. */
  datatype Transfer = Transfer(window: nat, offset: nat, data: seq<byte>) {
    /** The transfer lies in its window and the window is the one that holds the address. */
    predicate Reaches(address: nat) {
      window == address / WINDOW && offset == address % WINDOW && offset + |data| <= WINDOW
    }
  }

  /** The memory holds the first n bytes of the image at the address and is otherwise the
      memory from before. */
  predicate Loaded(before: seq<byte>, now: seq<byte>, address: nat, image: seq<byte>, n: nat) {
    && n <= |image| && address + n <= |before|
    && now == Write(before, address, image[..n])
  }

  /** What that means byte by byte. */
  lemma LoadedExactly(before: seq<byte>, now: seq<byte>, address: nat, image: seq<byte>, n: nat)
    requires n <= |image| && address + n <= |before|
    ensures Loaded(before, now, address, image, n)
            <==> |now| == |before| && forall i :: 0 <= i < |now| ==>
                   now[i] == if address <= i < address + n then image[i - address] else before[i]
  {
    if |now| == |before| && forall i :: 0 <= i < |now| ==>
         now[i] == if address <= i < address + n then image[i - address] else before[i] {
      assert now == Write(before, address, image[..n]);
    }
  }

  /** A further transfer of len bytes, of which only n were stored. */
  lemma LoadedMore(before: seq<byte>, mid: seq<byte>, now: seq<byte>, address: nat, image: seq<byte>,
                   done: nat, len: nat, n: nat)
    requires Loaded(before, mid, address, image, done)
    requires done + len <= |image| && n <= len && address + done + len <= |before|
    requires now == Write(mid, address + done, image[done..done + len][..n])
    ensures Loaded(before, now, address, image, done + n)
  {
    WriteAdjacent(before, address, image[..done], image[done..done + len][..n]);
    assert image[..done] + image[done..done + len][..n] == image[..done + n];
  }

  /** The transfers after the first |earlier| went to address, address + b, and so on, each
      through the right window. */
  predicate InWindows(earlier: seq<Transfer>, now: seq<Transfer>, address: nat, b: nat, count: nat) {
    && |now| == |earlier| + count && now[..|earlier|] == earlier
    && forall k :: 0 <= k < count ==> now[|earlier| + k].Reaches(address + Times(k, b))
  }

  lemma InWindowsMore(earlier: seq<Transfer>, mid: seq<Transfer>, now: seq<Transfer>, address: nat, b: nat, count: nat)
    requires InWindows(earlier, mid, address, b, count)
    requires |now| == |mid| + 1 && now[..|mid|] == mid && now[|mid|].Reaches(address + Times(count, b))
    ensures InWindows(earlier, now, address, b, count + 1)
  {
    assert now[..|earlier|] == mid[..|earlier|];
    forall k | 0 <= k < count + 1
      ensures now[|earlier| + k].Reaches(address + Times(k, b))
    {
      if k < count {
        assert now[|earlier| + k] == mid[|earlier| + k];
      }
    }
  }

  /** k copies of b, added up. */
  function Times(k: nat, b: nat): (t: nat)
  {
    if k == 0 then 0 else b + Times(k - 1, b)
  }

  lemma {:induction false} TimesIsProduct(k: nat, b: nat)
    ensures Times(k, b) == k * b
  {
    if k > 0 {
      TimesIsProduct(k - 1, b);
      assert k * b == (k - 1) * b + b;
    }
  }

  /** The whole blocks of size b, and what is left over. */
  method Divide(size: nat, b: nat) returns (blocks: nat, rest: nat)
    requires b > 0
    ensures Times(blocks, b) + rest == size && rest < b
  {
    blocks, rest := size / b, size % b;
    TimesIsProduct(blocks, b);
  }

  /** The device as the host interface sees it.  A transfer may fail at any time, and then
      any prefix of it may have been stored. */
  class Device {
    var memory: seq<byte>
    var windowLow: byte      // SDIO_MASTER_ACCESS_MSBYTE holds the low byte
    var windowHigh: byte     // SDIO_MASTER_ACCESS_LSBYTE holds the high byte
    ghost var transfers: seq<Transfer>
    ghost var faults: nat    // the transfers that failed

    constructor (m: seq<byte>)
      ensures memory == m && transfers == [] && faults == 0
    {
      memory, windowLow, windowHigh, transfers, faults := m, 0, 0, [], 0;
    }

    function Window(): (w: nat)
      reads this
    {
      windowLow + 0x100 * (windowHigh as int)
    }

    method WriteWindowLow(b: byte) returns (ok: bool)
      modifies this`windowLow, this`faults
      ensures ok ==> windowLow == b
      ensures ok == (faults == old(faults)) && old(faults) <= faults
    {
      ok := *;
      if ok {
        windowLow := b;
      } else {
        faults := faults + 1;
      }
    }

    method WriteWindowHigh(b: byte) returns (ok: bool)
      modifies this`windowHigh, this`faults
      ensures ok ==> windowHigh == b
      ensures ok == (faults == old(faults)) && old(faults) <= faults
    {
      ok := *;
      if ok {
        windowHigh := b;
      } else {
        faults := faults + 1;
      }
    }

    /** onebox_ta_write_multiple: stores at a full address. */
    method TaWriteMultiple(address: nat, data: seq<byte>) returns (ok: bool, ghost stored: nat)
      requires address + |data| <= |memory|
      modifies this`memory, this`faults
      ensures ok == (faults == old(faults)) && old(faults) <= faults
      ensures stored <= |data| && (ok ==> stored == |data|)
      ensures memory == Write(old(memory), address, data[..stored])
    {
      var n :| 0 <= n <= |data|;
      memory := Write(memory, address, data[..n]);
      ok, stored := n == |data|, n;
      if !ok {
        faults := faults + 1;
      }
    }

    /** onebox_write_multiple with the master-request flag: stores through the window. */
    method WriteMultiple(address: nat, data: seq<byte>) returns (ok: bool, ghost stored: nat)
      requires SD_REQUEST_MASTER <= address < 2 * SD_REQUEST_MASTER
      requires Window() * WINDOW + (address - SD_REQUEST_MASTER) + |data| <= |memory|
      modifies this`memory, this`transfers, this`faults
      ensures ok == (faults == old(faults)) && old(faults) <= faults
      ensures stored <= |data| && (ok ==> stored == |data|)
      ensures memory == Write(old(memory), Window() * WINDOW + (address - SD_REQUEST_MASTER), data[..stored])
      ensures transfers == old(transfers) + [Transfer(Window(), address - SD_REQUEST_MASTER, data)]
    {
      ok, stored := TaWriteMultiple(Window() * WINDOW + (address - SD_REQUEST_MASTER), data);
      transfers := transfers + [Transfer(Window(), address - SD_REQUEST_MASTER, data)];
    }

    // ---------- the code ----------

    method MasterAccessMsword(msWord: uint16) returns (ok: bool)
      modifies this`windowLow, this`windowHigh, this`faults
      ensures ok == (faults == old(faults)) && old(faults) <= faults
      ensures ok ==> Window() == msWord
    {
      ok := WriteWindowLow(msWord % 0x100);
      if !ok {
        return;
      }
      ok := WriteWindowHigh(msWord / 0x100);
    }

    /** The transfer that the USB loader makes for every block and for the last part block. */
    method UsbTransfer(ghost before: seq<byte>, ghost baseAddress: nat, base: uint32, image: seq<byte>, done: nat,
                       len: nat)
      returns (ok: bool, ghost stored: nat)
      requires done + len <= |image| && base == baseAddress + done && base + len <= |memory| == |before|
      requires Loaded(before, memory, baseAddress, image, done)
      modifies this`memory, this`faults
      ensures ok == (faults == old(faults)) && old(faults) <= faults
      ensures |memory| == |before| && Loaded(before, memory, baseAddress, image, stored)
      ensures stored <= done + len && (ok ==> stored == done + len)
    {
      ghost var mid := memory;
      ok, stored := TaWriteMultiple(base, image[done..done + len]);
      LoadedMore(before, mid, memory, baseAddress, image, done, len, stored);
      stored := done + stored;
    }

    method UsbLoadDataMasterWrite(baseAddress: uint32, instructionsSz: uint32, blockSize: uint32, taFirmware: seq<byte>)
      returns (ok: bool, ghost stored: nat)
      requires 0 < blockSize <= 256
      requires instructionsSz <= |taFirmware|
      requires baseAddress + instructionsSz <= |memory| <= 0x1_0000_0000
      modifies this`memory, this`faults
      ensures ok == (faults == old(faults)) && old(faults) <= faults
      ensures Loaded(old(memory), memory, baseAddress, taFirmware, stored)
      ensures stored <= instructionsSz && (ok ==> stored == instructionsSz)
    {
      hide Loaded, Write;
      var numBlocks, rest := Divide(instructionsSz, blockSize);
      var curIndx, ii := 0, 0;
      var base := baseAddress;
      ghost var before := memory;
      LoadedNothing(before, baseAddress, taFirmware);
      while ii < numBlocks
        invariant 0 <= ii <= numBlocks
        invariant curIndx + Times(numBlocks - ii, blockSize) + rest == instructionsSz
        invariant base == Add32(baseAddress, curIndx)
        invariant |memory| == |before| && Loaded(before, memory, baseAddress, taFirmware, curIndx)
        invariant faults == old(faults)
      {
        ok, stored := UsbTransfer(before, baseAddress, base, taFirmware, curIndx, blockSize);
        if !ok {
          return;
        }
        base := Add32(base, blockSize);
        ii, curIndx := ii + 1, curIndx + blockSize;
      }
      ok, stored := true, curIndx;
      if rest != 0 {
        ok, stored := UsbTransfer(before, baseAddress, base, taFirmware, curIndx, rest);
      }
    }

    /** The body of both transfers in the SDIO loader: the low half of the address goes out
        with the request, the high half must already be in the window register. */
    method SdioTransfer(ghost before: seq<byte>, ghost earlier: seq<Transfer>, ghost baseAddress: nat,
                        ghost blockSize: nat, base: uint32, image: seq<byte>, done: nat, len: nat, ghost count: nat)
      returns (ok: bool, ghost stored: nat)
      requires Window() == High(base) && base % WINDOW + len <= WINDOW
      requires done + len <= |image| && base == baseAddress + done && base + len <= |memory| == |before|
      requires done == Times(count, blockSize)
      requires Loaded(before, memory, baseAddress, image, done)
      requires InWindows(earlier, transfers, baseAddress, blockSize, count)
      modifies this`memory, this`transfers, this`faults
      ensures ok == (faults == old(faults)) && old(faults) <= faults
      ensures |memory| == |before| && Loaded(before, memory, baseAddress, image, stored)
      ensures stored <= done + len && (ok ==> stored == done + len)
      ensures InWindows(earlier, transfers, baseAddress, blockSize, count + 1)
    {
      ghost var mid, sofar := memory, transfers;
      var lsbAddress := base % WINDOW;
      assert base == Window() * WINDOW + lsbAddress;
      ok, stored := WriteMultiple(lsbAddress + SD_REQUEST_MASTER, image[done..done + len]);
      LoadedMore(before, mid, memory, baseAddress, image, done, len, stored);
      InWindowsMore(earlier, sofar, transfers, baseAddress, blockSize, count);
      stored := done + stored;
    }

    /** The window follows the address across a 64 KiB boundary. */
    method FollowWindow(base: uint32, msbAddress: uint16) returns (ok: bool, msb: uint16)
      requires Window() == msbAddress
      requires High(base) == msbAddress || High(base) == (msbAddress + 1) % 0x1_0000
      modifies this`windowLow, this`windowHigh, this`faults
      ensures ok == (faults == old(faults)) && old(faults) <= faults
      ensures ok ==> Window() == msb == High(base)
    {
      ok, msb := true, msbAddress;
      if High(base) != msbAddress {
        msb := (msbAddress + 1) % 0x1_0000;
        ok := MasterAccessMsword(msb);
      }
    }

    /** What the SDIO loop keeps: ii blocks are in place, and the window register holds the
        upper half of the next address. */
    ghost predicate AtBlock(before: seq<byte>, earlier: seq<Transfer>, baseAddress: uint32, blockSize: nat,
                            image: seq<byte>, ii: nat, curIndx: nat, base: uint32, msbAddress: uint16)
      reads this
    {
      && baseAddress + curIndx <= 0x1_0000_0000 && curIndx < 0x1_0000_0000
      && curIndx == Times(ii, blockSize) && base == Add32(baseAddress, curIndx)
      && Window() == msbAddress == High(base)
      && |memory| == |before| && Loaded(before, memory, baseAddress, image, curIndx)
      && InWindows(earlier, transfers, baseAddress, blockSize, ii)
    }

    /** Selects the window of the first block. */
    method FirstWindow(baseAddress: uint32, ghost blockSize: nat, ghost image: seq<byte>)
      returns (ok: bool, msbAddress: uint16)
      requires baseAddress <= |memory|
      modifies this`windowLow, this`windowHigh, this`faults
      ensures ok == (faults == old(faults)) && old(faults) <= faults
      ensures ok ==> AtBlock(memory, transfers, baseAddress, blockSize, image, 0, 0, baseAddress, msbAddress)
    {
      msbAddress := High(baseAddress);
      ok := MasterAccessMsword(msbAddress);
      LoadedNothing(memory, baseAddress, image);
      InWindowsNone(transfers, baseAddress, blockSize);
    }

    method SdioBlock(ghost before: seq<byte>, ghost earlier: seq<Transfer>, ghost baseAddress: uint32, blockSize: nat,
                     image: seq<byte>, ghost ii: nat, curIndx: nat, base: uint32, msbAddress: uint16)
      returns (ok: bool, ghost stored: nat, base': uint32, msb': uint16)
      requires AtBlock(before, earlier, baseAddress, blockSize, image, ii, curIndx, base, msbAddress)
      requires 0 < blockSize <= 256 && Aligned(WINDOW, blockSize) && Aligned(baseAddress, blockSize)
      requires curIndx + blockSize <= |image| && curIndx + blockSize < 0x1_0000_0000
      requires baseAddress + curIndx + blockSize <= |before| <= 0x1_0000_0000
      modifies this
      ensures ok == (faults == old(faults)) && old(faults) <= faults
      ensures |memory| == |before| && Loaded(before, memory, baseAddress, image, stored)
      ensures stored <= curIndx + blockSize
      ensures InWindows(earlier, transfers, baseAddress, blockSize, ii + 1)
      ensures ok ==> AtBlock(before, earlier, baseAddress, blockSize, image, ii + 1, curIndx + blockSize, base', msb')
    {
      msb', base' := msbAddress, base;
      AlignedBlockFits(baseAddress, ii, blockSize);
      ok, stored := SdioTransfer(before, earlier, baseAddress, blockSize, base, image, curIndx, blockSize, ii);
      if !ok {
        return;
      }
      NextBase(base, blockSize);
      base' := Add32(base, blockSize);
      ok, msb' := FollowWindow(base', msbAddress);
    }

    method SdioRest(ghost before: seq<byte>, ghost earlier: seq<Transfer>, ghost baseAddress: uint32,
                    ghost blockSize: nat, image: seq<byte>, ghost ii: nat, curIndx: nat, base: uint32,
                    ghost msbAddress: uint16, rest: nat)
      returns (ok: bool, ghost stored: nat, ghost count: nat)
      requires AtBlock(before, earlier, baseAddress, blockSize, image, ii, curIndx, base, msbAddress)
      requires rest < blockSize <= 256 && Aligned(WINDOW, blockSize) && Aligned(baseAddress, blockSize)
      requires curIndx + rest <= |image| && baseAddress + curIndx + rest <= |before| <= 0x1_0000_0000
      modifies this
      ensures ok == (faults == old(faults)) && old(faults) <= faults
      ensures Loaded(before, memory, baseAddress, image, stored)
      ensures stored <= curIndx + rest && (ok ==> stored == curIndx + rest)
      ensures InWindows(earlier, transfers, baseAddress, blockSize, count)
    {
      ok, stored, count := true, curIndx, ii;
      if rest != 0 {
        AlignedBlockFits(baseAddress, ii, blockSize);
        ok, stored := SdioTransfer(before, earlier, baseAddress, blockSize, base, image, curIndx, rest, ii);
        count := ii + 1;
      }
    }

    method SdioLoadDataMasterWrite(baseAddress: uint32, instructionsSz: uint32, blockSize: uint32,
                                   taFirmware: seq<byte>)
      returns (ok: bool, ghost stored: nat, ghost count: nat)
      requires 0 < blockSize <= 256 && Aligned(WINDOW, blockSize) && Aligned(baseAddress, blockSize)
      requires instructionsSz <= |taFirmware|
      requires baseAddress + instructionsSz <= |memory| <= 0x1_0000_0000
      modifies this
      ensures ok == (faults == old(faults)) && old(faults) <= faults
      ensures Loaded(old(memory), memory, baseAddress, taFirmware, stored)
      ensures stored <= instructionsSz && (ok ==> stored == instructionsSz)
      ensures InWindows(old(transfers), transfers, baseAddress, blockSize, count)
    {
      hide Write, Loaded, InWindows, Device.Window, High, Device.AtBlock, Aligned;
      ghost var before, earlier := memory, transfers;
      stored, count := 0, 0;
      LoadedNothing(before, baseAddress, taFirmware);
      InWindowsNone(earlier, baseAddress, blockSize);
      var numBlocks, rest := Divide(instructionsSz, blockSize);
      var base, msbAddress := baseAddress, 0;
      ok, msbAddress := FirstWindow(baseAddress, blockSize, taFirmware);
      if !ok {
        return;
      }
      var curIndx, ii := 0, 0;
      while ii < numBlocks
        invariant 0 <= ii <= numBlocks
        invariant curIndx + Times(numBlocks - ii, blockSize) + rest == instructionsSz
        invariant AtBlock(before, earlier, baseAddress, blockSize, taFirmware, ii, curIndx, base, msbAddress)
        invariant faults == old(faults)
      {
        ok, stored, base, msbAddress :=
          SdioBlock(before, earlier, baseAddress, blockSize, taFirmware, ii, curIndx, base, msbAddress);
        count := ii + 1;
        if !ok {
          return;
        }
        ii, curIndx := ii + 1, curIndx + blockSize;
      }
      ok, stored, count :=
        SdioRest(before, earlier, baseAddress, blockSize, taFirmware, ii, curIndx, base, msbAddress, rest);
    }
  }

  lemma LoadedNothing(m: seq<byte>, address: nat, image: seq<byte>)
    requires address <= |m|
    ensures Loaded(m, m, address, image, 0)
  {
  }

  lemma InWindowsNone(t: seq<Transfer>, address: nat, b: nat)
    ensures InWindows(t, t, address, b, 0)
  {
  }

  lemma NextBase(base: uint32, b: nat)
    requires b <= 256
    ensures High(Add32(base, b)) == High(base) || High(Add32(base, b)) == (High(base) + 1) % 0x1_0000
  {
  }

  lemma AlignedMultiple(a: nat, b: nat) returns (x: nat)
    requires b > 0 && Aligned(a, b)
    ensures a == Times(x, b)
  {
    x := a / b;
    TimesIsProduct(x, b);
  }

  lemma {:induction false} TimesGrows(x: nat, y: nat, b: nat)
    requires x <= y
    ensures Times(y, b) == Times(x, b) + Times(y - x, b)
  {
    if x > 0 {
      TimesGrows(x - 1, y - 1, b);
    }
  }

  /** A block at an aligned address does not cross the end of its 64 KiB window. */
  lemma AlignedBlockFits(base: nat, k: nat, b: nat)
    requires b > 0 && Aligned(WINDOW, b) && Aligned(base, b)
    ensures (base + Times(k, b)) % WINDOW + b <= WINDOW
  {
    var x := AlignedMultiple(base, b);
    var y := AlignedMultiple(WINDOW, b);
    TimesGrows(x, x + k, b);
    AlignedBelow(x + k, y, b);
  }

  lemma {:induction false} AlignedBelow(x: nat, y: nat, b: nat)
    requires Times(y, b) == WINDOW
    ensures Times(x, b) % WINDOW + b <= WINDOW
    decreases x
  {
    if x < y {
      TimesGrows(x + 1, y, b);
    } else {
      TimesGrows(y, x, b);
      AlignedBelow(x - y, y, b);
    }
  }
}
