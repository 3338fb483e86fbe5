/** Burning an image into serial flash: trigger_auto_flash_burn with its pipelined confirms,
    verify_flash_content, and auto_load_flash_content around them. */
module Flash {
  import opened Bytes
  import opened FlashLimits

  const FLASH_MAX_ADDRESS: nat := 4 * 1024 * 1024

  // ---------- the flash device ----------

  /** One flash-write frame. */
  datatype Frame = Frame(offset: uint32, data: seq<bv8>, erase: bool)

  /** Erasing sets every bit of the sector that holds the offset. */
  function Erase(flash: seq<bv8>, sector: nat, offset: nat): (r: seq<bv8>)
    requires sector > 0
    ensures |r| == |flash|
  {
    var base := offset - offset % sector;
    seq(|flash|, i requires 0 <= i < |flash| => if base <= i < base + sector then 0xFF else flash[i])
  }

  /** Programming can only clear bits. */
  function Program(flash: seq<bv8>, offset: nat, data: seq<bv8>): (r: seq<bv8>)
    ensures |r| == |flash|
  {
    seq(|flash|, i requires 0 <= i < |flash| =>
      if offset <= i < offset + |data| then flash[i] & data[i - offset] else flash[i])
  }

  function Apply(flash: seq<bv8>, sector: nat, f: Frame): (r: seq<bv8>)
    requires sector > 0
    ensures |r| == |flash|
  {
    Program(if f.erase then Erase(flash, sector, f.offset) else flash, f.offset, f.data)
  }

  function ApplyAll(flash: seq<bv8>, sector: nat, frames: seq<Frame>): (r: seq<bv8>)
    requires sector > 0
    ensures |r| == |flash|
  {
    if frames == [] then flash
    else Apply(ApplyAll(flash, sector, frames[..|frames| - 1]), sector, frames[|frames| - 1])
  }

  // ---------- the frames of an image ----------

  /** The end of the k-th chunk. */
  function ChunkEnd(size: nat, k: nat): (e: nat) {
    Min((k + 1) * FLASH_WRITE_CHUNK_SIZE, size)
  }

  function FrameCount(size: nat): (n: nat)
    ensures (n - 1) * FLASH_WRITE_CHUNK_SIZE < size <= n * FLASH_WRITE_CHUNK_SIZE || n == size == 0
  {
    size / FLASH_WRITE_CHUNK_SIZE + if size % FLASH_WRITE_CHUNK_SIZE == 0 then 0 else 1
  }

  /** How many chunks share a sector. */
  function PerSector(sector: nat): (p: nat) {
    sector / FLASH_WRITE_CHUNK_SIZE
  }

  /** The sector size is a positive multiple of the chunk size. */
  predicate SectorSize(sector: nat) {
    sector > 0 && sector % FLASH_WRITE_CHUNK_SIZE == 0
  }

  /** The 32-bit flash address of the k-th chunk. */
  function OffsetAt(start: uint32, k: nat): (a: uint32) {
    (start + k * FLASH_WRITE_CHUNK_SIZE) % 0x1_0000_0000
  }

  /** The frame that carries the k-th chunk. */
  function FrameAt(start: uint32, image: seq<bv8>, sector: nat, k: nat): (f: Frame)
    requires SectorSize(sector) && k < FrameCount(|image|)
  {
    Frame(OffsetAt(start, k), Chunk(image, k),
          k % PerSector(sector) == 0)
  }

  function Frames(start: uint32, image: seq<bv8>, sector: nat, n: nat): (f: seq<Frame>)
    requires SectorSize(sector) && n <= FrameCount(|image|)
    ensures |f| == n
  {
    if n == 0 then [] else Frames(start, image, sector, n - 1) + [FrameAt(start, image, sector, n - 1)]
  }

  // ---------- what the frames do to the flash ----------

  /** The image is in place up to off, from there to end all bits are set, and everything
      else is as before. */
  ghost predicate Ready(before: seq<bv8>, now: seq<bv8>, start: nat, image: seq<bv8>, off: nat, end: nat)
    requires start <= off <= start + |image|
  {
    && |now| == |before|
    && (forall i :: 0 <= i < |now| ==>
          now[i] == if start <= i < off then image[i - start] else if off <= i < end then 0xFF else before[i])
  }

  /** After n frames: the first n chunks of the image, and the rest of their last sector. */
  ghost predicate Burned(before: seq<bv8>, now: seq<bv8>, start: nat, image: seq<bv8>, sector: nat, n: nat)
    requires SectorSize(sector)
  {
    Ready(before, now, start, image, start + Min(n * FLASH_WRITE_CHUNK_SIZE, |image|), SectorsEnd(start, sector, n))
  }

  /** How many sectors the first n chunks reach into. */
  function SectorsBegun(sector: nat, n: nat): (s: nat)
    requires SectorSize(sector)
  {
    if n == 0 then 0
    else SectorsBegun(sector, n - 1) + if (n - 1) % PerSector(sector) == 0 then 1 else 0
  }

  /** The end of the last sector that the first n chunks reach into. */
  function SectorsEnd(start: nat, sector: nat, n: nat): (e: nat)
    requires SectorSize(sector)
  {
    start + SectorsBegun(sector, n) * sector
  }

  lemma DivModUnique(a: nat, b: nat, q: nat, r: nat)
    requires b > 0 && r < b && a == q * b + r
    ensures a / b == q && a % b == r
  {
    assert a == a / b * b + a % b;
    if a / b > q {
      NoSmallerQuotient(q, r, a / b, a % b, b);
    } else if a / b < q {
      NoSmallerQuotient(a / b, a % b, q, r, b);
    }
  }

  lemma NoSmallerQuotient(q: nat, r: nat, q': nat, r': nat, b: nat)
    requires q < q' && r < b
    ensures q * b + r != q' * b + r'
  {
    assert q' * b == q * b + (q' - q) * b;
    assert (q' - q) * b == b + (q' - q - 1) * b;
    assert (q' - q - 1) * b >= 0;
  }

  lemma {:induction false} SectorsBegunAt(sector: nat, n: nat)
    requires SectorSize(sector)
    ensures n > 0 ==> SectorsBegun(sector, n) == (n - 1) / PerSector(sector) + 1
  {
    if n > 1 {
      SectorsBegunAt(sector, n - 1);
      var p := PerSector(sector);
      var q, r := (n - 2) / p, (n - 2) % p;
      assert n - 2 == q * p + r;
      if r + 1 < p {
        DivModUnique(n - 1, p, q, r + 1);
      } else {
        assert n - 1 == (q + 1) * p;
        DivModUnique(n - 1, p, q + 1, 0);
      }
    } else if n == 1 {
      DivModUnique(0, PerSector(sector), 0, 0);
    }
  }

  /** The sectors that the chunks before chunk n reach into, by the place of chunk n in its own. */
  lemma SectorsBefore(sector: nat, n: nat)
    requires SectorSize(sector)
    ensures var q, r := n / PerSector(sector), n % PerSector(sector);
            SectorsBegun(sector, n) == if r == 0 then q else q + 1
  {
    SectorsBegunAt(sector, n);
    hide SectorsBegun;
    QuotientBefore(n, PerSector(sector));
  }

  lemma QuotientBefore(n: nat, p: nat)
    requires p > 0
    ensures n > 0 ==> (n - 1) / p == if n % p == 0 then n / p - 1 else n / p
  {
    var q, r := n / p, n % p;
    assert n == q * p + r;
    if n > 0 {
      if r == 0 {
        assert (q - 1) * p == q * p - p;
        DivModUnique(n - 1, p, q - 1, p - 1);
      } else {
        DivModUnique(n - 1, p, q, r - 1);
      }
    }
  }

  /** The bytes before chunk n: whole sectors, and whole chunks of the one it lies in. */
  lemma BytesBefore(sector: nat, n: nat)
    requires SectorSize(sector)
    ensures var q, r := n / PerSector(sector), n % PerSector(sector);
            && n * FLASH_WRITE_CHUNK_SIZE == q * sector + r * FLASH_WRITE_CHUNK_SIZE
            && (q + 1) * sector == q * sector + sector && (r + 1) * FLASH_WRITE_CHUNK_SIZE <= sector
  {
    var p := PerSector(sector);
    var q, r := n / p, n % p;
    assert n == q * p + r;
    assert sector == p * FLASH_WRITE_CHUNK_SIZE;
    assert q * sector == q * p * FLASH_WRITE_CHUNK_SIZE;
  }

  /** Where chunk n lies in its sector: at the start of a new one, or inside one begun. */
  lemma ChunkInSector(sector: nat, n: nat)
    requires SectorSize(sector)
    ensures n % PerSector(sector) == 0 ==>
              && SectorsBegun(sector, n) * sector == n * FLASH_WRITE_CHUNK_SIZE
              && SectorsBegun(sector, n + 1) * sector == n * FLASH_WRITE_CHUNK_SIZE + sector
    ensures n % PerSector(sector) != 0 ==>
              && SectorsBegun(sector, n + 1) == SectorsBegun(sector, n)
              && SectorsBegun(sector, n) * sector >= (n + 1) * FLASH_WRITE_CHUNK_SIZE
  {
    var q, r := n / PerSector(sector), n % PerSector(sector);
    SectorsBefore(sector, n);
    assert SectorsBegun(sector, n + 1) == q + 1;
    BytesBefore(sector, n);
    hide SectorsBegun, PerSector;
  }

  /** The sector-aligned start makes the device erase exactly the sector that begins here. */
  lemma ErasesFromHere(start: nat, sector: nat, n: nat)
    requires SectorSize(sector) && Aligned(start, sector) && n % PerSector(sector) == 0
    ensures (start + n * FLASH_WRITE_CHUNK_SIZE) % sector == 0
  {
    var m, k := start / sector, SectorsBegun(sector, n);
    ChunkInSector(sector, n);
    assert start == m * sector;
    assert (m + k) * sector == m * sector + k * sector;
    DivModUnique(start + n * FLASH_WRITE_CHUNK_SIZE, sector, m + k, 0);
  }

  /** The flash after the erase that goes with chunk n, if one does. */
  function ErasedFor(now: seq<bv8>, start: nat, sector: nat, n: nat): (r: seq<bv8>)
    requires SectorSize(sector)
  {
    if n % PerSector(sector) == 0 then Erase(now, sector, start + n * FLASH_WRITE_CHUNK_SIZE) else now
  }

  function Chunk(image: seq<bv8>, n: nat): (c: seq<bv8>)
    requires n < FrameCount(|image|)
  {
    image[n * FLASH_WRITE_CHUNK_SIZE..ChunkEnd(|image|, n)]
  }

  lemma EraseWhenNeeded(before: seq<bv8>, now: seq<bv8>, start: nat, image: seq<bv8>, sector: nat, n: nat)
    requires SectorSize(sector) && Aligned(start, sector) && n < FrameCount(|image|)
    requires Burned(before, now, start, image, sector, n)
    ensures Ready(before, ErasedFor(now, start, sector, n), start, image,
                  start + n * FLASH_WRITE_CHUNK_SIZE, SectorsEnd(start, sector, n + 1))
  {
    ChunkInSector(sector, n);
    if n % PerSector(sector) == 0 {
      ErasesFromHere(start, sector, n);
    }
    hide SectorsBegun, PerSector, SectorSize, FrameCount;
  }

  lemma ProgramReady(before: seq<bv8>, now: seq<bv8>, start: nat, image: seq<bv8>, off: nat, end: nat, len: nat)
    requires start <= off && off + len <= start + |image| && off + len <= end
    requires Ready(before, now, start, image, off, end)
    ensures Ready(before, Program(now, off, image[off - start..off - start + len]), start, image, off + len, end)
  {
  }

  lemma ProgramAfterErase(before: seq<bv8>, erased: seq<bv8>, start: nat, image: seq<bv8>, sector: nat, n: nat)
    requires SectorSize(sector) && n < FrameCount(|image|)
    requires Ready(before, erased, start, image, start + n * FLASH_WRITE_CHUNK_SIZE, SectorsEnd(start, sector, n + 1))
    ensures Burned(before, Program(erased, start + n * FLASH_WRITE_CHUNK_SIZE, Chunk(image, n)), start, image, sector,
                   n + 1)
  {
    hide Ready, Program;
    ChunkInSector(sector, n);
    var off, len := start + n * FLASH_WRITE_CHUNK_SIZE, |Chunk(image, n)|;
    assert image[off - start..off - start + len] == Chunk(image, n);
    ProgramReady(before, erased, start, image, off, SectorsEnd(start, sector, n + 1), len);
  }

  lemma ApplyFrame(now: seq<bv8>, start: nat, image: seq<bv8>, sector: nat, n: nat)
    requires SectorSize(sector) && n < FrameCount(|image|) && start + |image| <= 0x1_0000_0000
    ensures Apply(now, sector, FrameAt(start, image, sector, n))
            == Program(ErasedFor(now, start, sector, n), start + n * FLASH_WRITE_CHUNK_SIZE, Chunk(image, n))
  {
    hide Erase, Program, PerSector;
    assert (start + n * FLASH_WRITE_CHUNK_SIZE) % 0x1_0000_0000 == start + n * FLASH_WRITE_CHUNK_SIZE;
  }

  lemma BurnedStep(before: seq<bv8>, now: seq<bv8>, start: nat, image: seq<bv8>, sector: nat, n: nat)
    requires SectorSize(sector) && Aligned(start, sector)
    requires n < FrameCount(|image|) && start + |image| <= |before| <= 0x1_0000_0000
    requires Burned(before, now, start, image, sector, n)
    ensures Burned(before, Apply(now, sector, FrameAt(start, image, sector, n)), start, image, sector, n + 1)
  {
    hide *;
    EraseWhenNeeded(before, now, start, image, sector, n);
    ProgramAfterErase(before, ErasedFor(now, start, sector, n), start, image, sector, n);
    ApplyFrame(now, start, image, sector, n);
  }

  lemma {:induction false} BurnedAll(before: seq<bv8>, start: uint32, image: seq<bv8>, sector: nat, n: nat)
    requires SectorSize(sector) && Aligned(start, sector)
    requires n <= FrameCount(|image|) && start + |image| <= |before| <= 0x1_0000_0000
    ensures Burned(before, ApplyAll(before, sector, Frames(start, image, sector, n)), start, image, sector, n)
  {
    if n > 0 {
      BurnedAll(before, start, image, sector, n - 1);
      var fs := Frames(start, image, sector, n);
      assert fs[..n - 1] == Frames(start, image, sector, n - 1);
      BurnedStep(before, ApplyAll(before, sector, fs[..n - 1]), start, image, sector, n - 1);
    }
  }

  function RoundUp(size: nat, sector: nat): (r: nat)
    requires sector > 0
  {
    (size + sector - 1) / sector * sector
  }

  /** Whatever the flash held before, sending all the frames leaves the image in place,
      erases the rest of its last sector, and touches no other sector. */
  lemma BurnGivesImage(before: seq<bv8>, start: uint32, image: seq<bv8>, sector: nat)
    requires SectorSize(sector) && Aligned(start, sector)
    requires start + |image| <= |before| <= 0x1_0000_0000
    ensures var after := ApplyAll(before, sector, Frames(start, image, sector, FrameCount(|image|)));
            && |after| == |before|
            && after[start..start + |image|] == image
            && after[..start] == before[..start]
            && (forall i {:trigger after[i]} :: start + |image| <= i < |after| ==>
                  after[i] == if i < start + RoundUp(|image|, sector) then 0xFF else before[i])
  {
    BurnedAll(before, start, image, sector, FrameCount(|image|));
    var now := ApplyAll(before, sector, Frames(start, image, sector, FrameCount(|image|)));
    BurnedWhole(before, now, start, image, sector);
    hide *;
    ReadyMeans(before, ApplyAll(before, sector, Frames(start, image, sector, FrameCount(|image|))), start, image,
               start + RoundUp(|image|, sector));
  }

  lemma BurnedWhole(before: seq<bv8>, after: seq<bv8>, start: nat, image: seq<bv8>, sector: nat)
    requires SectorSize(sector) && Burned(before, after, start, image, sector, FrameCount(|image|))
    ensures Ready(before, after, start, image, start + |image|, start + RoundUp(|image|, sector))
  {
    hide Ready;
    SectorsOfImage(sector, |image|);
  }

  lemma ReadyMeans(before: seq<bv8>, after: seq<bv8>, start: nat, image: seq<bv8>, end: nat)
    requires start + |image| <= |before| && Ready(before, after, start, image, start + |image|, end)
    ensures |after| == |before| && after[start..start + |image|] == image && after[..start] == before[..start]
    ensures forall i {:trigger after[i]} :: start + |image| <= i < |after| ==>
              after[i] == if i < end then 0xFF else before[i]
  {
  }

  lemma SectorsOfImage(sector: nat, size: nat)
    requires SectorSize(sector)
    ensures SectorsBegun(sector, FrameCount(size)) == (size + sector - 1) / sector
  {
    var n, p := FrameCount(size), PerSector(sector);
    SectorsBegunAt(sector, n);
    if n == 0 {
      DivModUnique(sector - 1, sector, 0, sector - 1);
    } else {
      LastSector(n, p, size);
      assert sector == p * FLASH_WRITE_CHUNK_SIZE;
    }
  }

  lemma LastSector(n: nat, p: nat, size: nat)
    requires p > 0 && (n - 1) * FLASH_WRITE_CHUNK_SIZE < size <= n * FLASH_WRITE_CHUNK_SIZE && n > 0
    ensures (n - 1) / p + 1 == (size + p * FLASH_WRITE_CHUNK_SIZE - 1) / (p * FLASH_WRITE_CHUNK_SIZE)
  {
    var q, r := (n - 1) / p, (n - 1) % p;
    var sector := p * FLASH_WRITE_CHUNK_SIZE;
    assert n - 1 == q * p + r;
    assert q * sector == q * p * FLASH_WRITE_CHUNK_SIZE;
    assert (q + 1) * sector == q * sector + sector;
    var rest := size - q * sector;
    assert size + sector - 1 == (q + 1) * sector + (rest - 1);
    DivModUnique(size + sector - 1, sector, q + 1, rest - 1);
  }
}
