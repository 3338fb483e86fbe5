/** The de-aggregation of a host transfer: process_lmac_aggregated_pkt, against the frame
    format that its comment describes. */
module HostTransfer {
  import opened Bytes

  const FRAME_DESC_SZ: nat := 16
  const COMMON_PKT_LENGTH: nat := 2304
  const MAX_SNIFFER_MODE_PKT_LEN: nat := 4096
  const BLOCK: nat := 256

  /** What the checks depend on: the bus, the protocol of the transfer, and whether the
      driver is in WiFi mode and not flashing. */
  datatype Config = Config(sdio: bool, wlan: bool, wifi: bool) {
    function MaxLength(): (m: nat) {
      if wifi then COMMON_PKT_LENGTH else MAX_SNIFFER_MODE_PKT_LEN
    }

    /** The padded length of a frame: a multiple of the block on SDIO, else of a word. */
    function UnitedLen(n: nat): (u: nat)
      ensures n <= u
    {
      if sdio then (n + 255) / 256 * 256 else (n + 3) / 4 * 4
    }
  }

  // ---------- the format ----------

  /** The 12-bit length field at the start of a descriptor. */
  function LengthField(s: seq<byte>, i: nat): (l: nat)
    requires i + 2 <= |s|
    ensures l < 0x1000
  {
    Word16(s, i) % 0x1000
  }

  /** A descriptor with its payload: the length field says how long it is, no longer than the
      configuration allows, and an extended descriptor lies inside. */
  predicate BodyWellFormed(body: seq<byte>, cfg: Config) {
    && |body| >= FRAME_DESC_SZ && |body| == FRAME_DESC_SZ + LengthField(body, 0)
    && LengthField(body, 0) <= cfg.MaxLength()
    && (cfg.wlan ==> body[4] <= LengthField(body, 0))
  }

  /** A frame of the transfer: a gap after the four length bytes, the descriptor with its
      payload, and padding. */
  datatype Frame = Frame(gap: seq<byte>, body: seq<byte>, pad: seq<byte>) {
    function Offset(): (o: nat) {
      4 + |gap|
    }

    function ActualLength(): (a: nat) {
      Offset() + |body| + |pad|
    }

    predicate WellFormed(cfg: Config) {
      && BodyWellFormed(body, cfg)
      && ActualLength() == cfg.UnitedLen(Offset() + |body|) < 0x1_0000
    }

    function Encode(): (s: seq<byte>)
      requires ActualLength() < 0x1_0000
      ensures |s| == ActualLength()
    {
      Bytes16(ActualLength()) + Bytes16(Offset()) + gap + body + pad
    }
  }

  predicate AllWellFormed(frames: seq<Frame>, cfg: Config) {
    forall i :: 0 <= i < |frames| ==> frames[i].WellFormed(cfg)
  }

  function Layout(frames: seq<Frame>, cfg: Config): (s: seq<byte>)
    requires AllWellFormed(frames, cfg)
  {
    if frames == [] then [] else frames[0].Encode() + Layout(frames[1..], cfg)
  }

  function Bodies(frames: seq<Frame>): (b: seq<seq<byte>>)
    ensures |b| == |frames|
  {
    if frames == [] then [] else [frames[0].body] + Bodies(frames[1..])
  }

  // ---------- the checks ----------

  datatype Checked = Corrupt | Accept(actualLength: nat, body: seq<byte>)

  /** The memory from the receive buffer on is readable far enough for the descriptor fields
      that are loaded before the frame's length is checked. */
  predicate Readable(mem: seq<byte>, index: nat, pktLen: nat) {
    index + pktLen + 0x1_0010 <= |mem|
  }

  /** The checks on the frame at the index, with pktLen bytes of the transfer left. */
  function CheckFrame(mem: seq<byte>, index: nat, pktLen: nat, cfg: Config): (r: Checked)
    requires Readable(mem, index, pktLen)
    ensures r.Accept? ==> 0 < r.actualLength <= pktLen
  {
    var actual, offset := Word16(mem, index), Word16(mem, index + 2);
    if actual < 4 + FRAME_DESC_SZ || offset < 4 then Corrupt
    else if !(actual == pktLen || actual + 4 + FRAME_DESC_SZ <= pktLen) then Corrupt
    else
      var length := LengthField(mem, index + offset);
      var extendedDesc: byte := if cfg.wlan then mem[index + offset + 4] else 0;
      if actual != cfg.UnitedLen(offset + length + FRAME_DESC_SZ) then Corrupt
      else if extendedDesc > length then Corrupt
      else if length > cfg.MaxLength() then Corrupt
      else Accept(actual, Part(mem, index + offset, length + FRAME_DESC_SZ))
  }

  /** The whole loop: what is delivered, and whether every frame passed. */
  datatype Parsed = Parsed(ok: bool, delivered: seq<seq<byte>>)

  function Parse(mem: seq<byte>, index: nat, pktLen: nat, cfg: Config): (p: Parsed)
    requires Readable(mem, index, pktLen)
    decreases pktLen
  {
    match CheckFrame(mem, index, pktLen, cfg)
    case Corrupt => Parsed(false, [])
    case Accept(actual, body) =>
      if pktLen == actual then Parsed(true, [body])
      else
        var rest := Parse(mem, index + actual, pktLen - actual, cfg);
        Parsed(rest.ok, [body] + rest.delivered)
  }

  // ---------- the code ----------

  datatype Status = Success | Panic | NoMemory

  /** The receive loop.  A frame whose buffer cannot be allocated ends it without a panic;
      there are buffers for so many frames. */
  method ProcessAggregated(mem: seq<byte>, transferLen: uint32, cfg: Config, buffers: nat)
    returns (status: Status, delivered: seq<seq<byte>>)
    requires Readable(mem, 0, transferLen)
    ensures status.Success? ==> Parse(mem, 0, transferLen, cfg) == Parsed(true, delivered)
    ensures status.Panic? ==> Parse(mem, 0, transferLen, cfg) == Parsed(false, delivered)
    ensures status.NoMemory? <==> buffers < |Parse(mem, 0, transferLen, cfg).delivered|
    ensures status.NoMemory? ==> delivered == Parse(mem, 0, transferLen, cfg).delivered[..buffers]
  {
    hide Parse, CheckFrame;
    var index: nat, pktLen: uint32 := 0, transferLen;
    delivered := [];
    ghost var all, todo := Parse(mem, 0, transferLen, cfg), Parse(mem, 0, transferLen, cfg);
    while true
      invariant index + pktLen == transferLen
      invariant todo == Parse(mem, index, pktLen, cfg)
      invariant Continues(all, delivered, todo) && |delivered| <= buffers
      decreases pktLen
    {
      var step := CheckFrame(mem, index, pktLen, cfg);
      ParseStep(mem, index, pktLen, cfg);
      if step.Corrupt? {
        return Panic, delivered;
      }
      if |delivered| == buffers {
        return NoMemory, delivered;
      }
      delivered := delivered + [step.body];
      index := index + step.actualLength;
      pktLen := pktLen - step.actualLength;
      if pktLen == 0 {
        break;
      }
      todo := Parse(mem, index, pktLen, cfg);
    }
    return Success, delivered;
  }

  ghost predicate Continues(all: Parsed, delivered: seq<seq<byte>>, todo: Parsed) {
    all.ok == todo.ok && all.delivered == delivered + todo.delivered
  }

  // ---------- properties ----------

  /** One step of the loop. */
  lemma ParseStep(mem: seq<byte>, index: nat, pktLen: nat, cfg: Config)
    requires Readable(mem, index, pktLen)
    ensures var step := CheckFrame(mem, index, pktLen, cfg);
            Parse(mem, index, pktLen, cfg)
            == if step.Corrupt? then Parsed(false, [])
               else if step.actualLength == pktLen then Parsed(true, [step.body])
               else
                 var rest := Parse(mem, index + step.actualLength, pktLen - step.actualLength, cfg);
                 Parsed(rest.ok, [step.body] + rest.delivered)
  {
    hide CheckFrame;
  }

  lemma LayoutStep(frames: seq<Frame>, cfg: Config)
    requires frames != [] && AllWellFormed(frames, cfg)
    ensures frames[0].WellFormed(cfg) && AllWellFormed(frames[1..], cfg)
    ensures Layout(frames, cfg) == frames[0].Encode() + Layout(frames[1..], cfg)
    ensures Bodies(frames) == [frames[0].body] + Bodies(frames[1..])
  {
    hide Frame.WellFormed, Frame.Encode;
    assert forall i :: 0 <= i < |frames[1..]| ==> frames[1..][i] == frames[i + 1];
  }

  lemma FrameFields(f: Frame)
    requires f.ActualLength() < 0x1_0000
    ensures var e := f.Encode();
            && Word16(e, 0) == f.ActualLength() && Word16(e, 2) == f.Offset()
            && e[f.Offset()..f.Offset() + |f.body|] == f.body
  {
    var e := f.Encode();
    var head := Bytes16(f.ActualLength()) + Bytes16(f.Offset());
    assert e[0] == head[0] && e[1] == head[1] && e[2] == head[2] && e[3] == head[3];
    hide *;
    assert Word16(head, 0) == Word16(Bytes16(f.ActualLength()), 0);
    assert Word16(head, 2) == Word16(Bytes16(f.Offset()), 0);
  }

  // ---------- stretches of memory ----------

  function Part(mem: seq<byte>, index: nat, n: nat): (s: seq<byte>)
    requires index + n <= |mem|
    ensures |s| == n
  {
    mem[index..index + n]
  }

  lemma PartJoin(mem: seq<byte>, index: nat, n: nat, m: nat)
    requires index + n + m <= |mem|
    ensures Part(mem, index, n + m) == Part(mem, index, n) + Part(mem, index + n, m)
  {
  }

  lemma PartSplit(mem: seq<byte>, index: nat, a: seq<byte>, b: seq<byte>)
    requires index + |a| + |b| <= |mem| && Part(mem, index, |a| + |b|) == a + b
    ensures Part(mem, index, |a|) == a && Part(mem, index + |a|, |b|) == b
  {
    PartJoin(mem, index, |a|, |b|);
    hide Part;
    assert a == (a + b)[..|a|] && b == (a + b)[|a|..];
  }

  lemma ReadWord(mem: seq<byte>, index: nat, tile: seq<byte>, k: nat)
    requires index + |tile| <= |mem| && Part(mem, index, |tile|) == tile && k + 2 <= |tile|
    ensures Word16(mem, index + k) == Word16(tile, k) && mem[index + k] == tile[k]
  {
    assert tile[k] == mem[index + k] && tile[k + 1] == mem[index + k + 1];
  }

  lemma Bytes16OfWord(s: seq<byte>, i: nat)
    requires i + 2 <= |s|
    ensures Bytes16(Word16(s, i)) == Part(s, i, 2)
  {
  }

  /** What the checks read of a frame that lies in the memory. */
  lemma FrameInMemory(mem: seq<byte>, index: nat, f: Frame)
    requires f.ActualLength() < 0x1_0000 && |f.body| >= FRAME_DESC_SZ && index + f.ActualLength() <= |mem|
    requires Part(mem, index, f.ActualLength()) == f.Encode()
    ensures Word16(mem, index) == f.ActualLength() && Word16(mem, index + 2) == f.Offset()
    ensures Part(mem, index + f.Offset(), |f.body|) == f.body
    ensures LengthField(mem, index + f.Offset()) == LengthField(f.body, 0) && mem[index + f.Offset() + 4] == f.body[4]
  {
    hide Frame.Encode, Part, Word16, LengthField;
    FrameFields(f);
    var e, o, n := f.Encode(), f.Offset(), |f.body|;
    var before, after := e[..o], e[o + n..];
    assert e == before + (f.body + after);
    PartSplit(mem, index, before, f.body + after);
    PartSplit(mem, index + o, f.body, after);
    ReadWord(mem, index, e, 0);
    ReadWord(mem, index, e, 2);
    ReadWord(mem, index + o, f.body, 0);
    ReadWord(mem, index + o, f.body, 4);
    EqualLengthFields(mem, index + o, f.body);
  }

  // ---------- the loop and the format agree ----------

  /** A well-formed frame in the memory passes the checks and yields its body, provided the
      bytes after it are none or enough for another frame. */
  lemma FrameAccepted(mem: seq<byte>, index: nat, pktLen: nat, cfg: Config, f: Frame)
    requires Readable(mem, index, pktLen) && f.WellFormed(cfg)
    requires f.ActualLength() == pktLen || f.ActualLength() + 4 + FRAME_DESC_SZ <= pktLen
    requires Part(mem, index, f.ActualLength()) == f.Encode()
    ensures CheckFrame(mem, index, pktLen, cfg) == Accept(f.ActualLength(), f.body)
  {
    hide Config.UnitedLen, Frame.Encode, LengthField, Part, Word16;
    FrameInMemory(mem, index, f);
  }

  /** Any non-empty list of well-formed frames laid out back to back is delivered exactly and
      in order. */
  lemma {:induction false} LayoutIsDelivered(mem: seq<byte>, index: nat, frames: seq<Frame>, cfg: Config)
    requires frames != [] && AllWellFormed(frames, cfg)
    requires Readable(mem, index, |Layout(frames, cfg)|)
    requires Part(mem, index, |Layout(frames, cfg)|) == Layout(frames, cfg)
    ensures Parse(mem, index, |Layout(frames, cfg)|, cfg) == Parsed(true, Bodies(frames))
    decreases |frames|
  {
    hide Part, CheckFrame, Parse;
    var f, rest, all := frames[0], frames[1..], Layout(frames, cfg);
    LayoutStep(frames, cfg);
    var tile, more := f.Encode(), Layout(rest, cfg);
    if rest != [] {
      LayoutIsLong(rest, cfg);
    } else {
      assert more == [] && Bodies(rest) == [];
    }
    hide Layout, Bodies, AllWellFormed, Config.UnitedLen, LengthField, Frame.Encode;
    PartSplit(mem, index, tile, more);
    FrameAccepted(mem, index, |all|, cfg, f);
    ParseStep(mem, index, |all|, cfg);
    if rest != [] {
      LayoutIsDelivered(mem, index + |tile|, rest, cfg);
    }
  }

  lemma LayoutIsLong(frames: seq<Frame>, cfg: Config)
    requires frames != [] && AllWellFormed(frames, cfg)
    ensures |Layout(frames, cfg)| >= 4 + FRAME_DESC_SZ
  {
    LayoutStep(frames, cfg);
  }

  /** The frame that an accepted step read. */
  lemma AcceptedFrame(mem: seq<byte>, index: nat, pktLen: nat, cfg: Config) returns (f: Frame)
    requires Readable(mem, index, pktLen) && CheckFrame(mem, index, pktLen, cfg).Accept?
    ensures f.WellFormed(cfg) && Accept(f.ActualLength(), f.body) == CheckFrame(mem, index, pktLen, cfg)
    ensures Part(mem, index, f.ActualLength()) == f.Encode()
  {
    hide Config.UnitedLen, Word16, Bytes16, LengthField, Part;
    var actual, offset := Word16(mem, index), Word16(mem, index + 2);
    var n := LengthField(mem, index + offset) + FRAME_DESC_SZ;
    f := Frame(Part(mem, index + 4, offset - 4), Part(mem, index + offset, n),
               Part(mem, index + offset + n, actual - offset - n));
    ReadWord(mem, index + offset, f.body, 0);
    ReadWord(mem, index + offset, f.body, 4);
    EqualLengthFields(mem, index + offset, f.body);
    hide CheckFrame;
    EncodedFrame(mem, index, f);
  }

  lemma EqualLengthFields(mem: seq<byte>, i: nat, body: seq<byte>)
    requires i + 2 <= |mem| && 2 <= |body| && Word16(mem, i) == Word16(body, 0)
    ensures LengthField(mem, i) == LengthField(body, 0)
  {
  }

  lemma EncodedFrame(mem: seq<byte>, index: nat, f: Frame)
    requires f.ActualLength() < 0x1_0000 && index + f.ActualLength() <= |mem|
    requires Word16(mem, index) == f.ActualLength() && Word16(mem, index + 2) == f.Offset()
    requires f.gap == Part(mem, index + 4, |f.gap|) && f.body == Part(mem, index + f.Offset(), |f.body|)
    requires f.pad == Part(mem, index + f.Offset() + |f.body|, |f.pad|)
    ensures Part(mem, index, f.ActualLength()) == f.Encode()
  {
    hide Word16, Bytes16, Part;
    Bytes16OfWord(mem, index);
    Bytes16OfWord(mem, index + 2);
    PartJoin(mem, index, 2, 2);
    PartJoin(mem, index, 4, |f.gap|);
    PartJoin(mem, index, f.Offset(), |f.body|);
    PartJoin(mem, index, f.Offset() + |f.body|, |f.pad|);
  }

  /** Success means that the transfer is tiled exactly by well-formed frames, whose bodies
      are what was delivered. */
  lemma {:induction false} DeliveredIsTiled(mem: seq<byte>, index: nat, pktLen: nat, cfg: Config)
    returns (frames: seq<Frame>)
    requires Readable(mem, index, pktLen) && Parse(mem, index, pktLen, cfg).ok
    ensures frames != [] && AllWellFormed(frames, cfg)
    ensures Layout(frames, cfg) == Part(mem, index, pktLen)
    ensures Bodies(frames) == Parse(mem, index, pktLen, cfg).delivered
    decreases pktLen
  {
    hide Parse, CheckFrame, Config.UnitedLen, LengthField, Frame.Encode, Frame.WellFormed, Part;
    ParseStep(mem, index, pktLen, cfg);
    var f := AcceptedFrame(mem, index, pktLen, cfg);
    var rest, n := [], f.ActualLength();
    if pktLen != n {
      rest := DeliveredIsTiled(mem, index + n, pktLen - n, cfg);
      PartJoin(mem, index, n, pktLen - n);
    }
    frames := [f] + rest;
    assert frames[1..] == rest && frames[0] == f;
    LayoutStep(frames, cfg);
  }

  /** The loop succeeds on exactly the transfers that are laid out as the format says. */
  lemma SucceedsExactlyOnLayouts(mem: seq<byte>, transferLen: uint32, cfg: Config)
    requires Readable(mem, 0, transferLen)
    ensures Parse(mem, 0, transferLen, cfg).ok
            <==> exists frames :: frames != [] && AllWellFormed(frames, cfg)
                                  && Layout(frames, cfg) == Part(mem, 0, transferLen)
  {
    hide Parse, Layout, AllWellFormed;
    if Parse(mem, 0, transferLen, cfg).ok {
      var frames := DeliveredIsTiled(mem, 0, transferLen, cfg);
    }
    forall frames | frames != [] && AllWellFormed(frames, cfg) && Layout(frames, cfg) == Part(mem, 0, transferLen)
      ensures Parse(mem, 0, transferLen, cfg).ok
    {
      LayoutIsDelivered(mem, 0, frames, cfg);
    }
  }

  /** The frames lie at the start of what is left of a transfer, and behind them there is nothing,
      or room for another frame. */
  predicate Leads(mem: seq<byte>, index: nat, pktLen: nat, frames: seq<Frame>, cfg: Config)
    requires index + pktLen <= |mem| && AllWellFormed(frames, cfg)
  {
    var n := |Layout(frames, cfg)|;
    && (n == pktLen || n + 4 + FRAME_DESC_SZ <= pktLen)
    && Part(mem, index, n) == Layout(frames, cfg)
  }

  /** The frames that a transfer starts with are delivered, whatever follows them. */
  lemma {:induction false} LeadingAreDelivered(mem: seq<byte>, index: nat, pktLen: nat, frames: seq<Frame>, cfg: Config)
    requires Readable(mem, index, pktLen) && frames != [] && AllWellFormed(frames, cfg)
    requires Leads(mem, index, pktLen, frames, cfg)
    ensures Bodies(frames) <= Parse(mem, index, pktLen, cfg).delivered
    decreases |frames|
  {
    hide Part, CheckFrame, Parse;
    var f, rest, all := frames[0], frames[1..], Layout(frames, cfg);
    LayoutStep(frames, cfg);
    var tile, more := f.Encode(), Layout(rest, cfg);
    if rest != [] {
      LayoutIsLong(rest, cfg);
    } else {
      assert more == [] && Bodies(rest) == [];
    }
    hide Layout, Bodies, AllWellFormed, Config.UnitedLen, LengthField, Frame.Encode, Frame.WellFormed;
    PartSplit(mem, index, tile, more);
    FrameAccepted(mem, index, pktLen, cfg, f);
    ParseStep(mem, index, pktLen, cfg);
    if rest != [] {
      LeadingAreDelivered(mem, index + |tile|, pktLen - |tile|, rest, cfg);
    }
  }

  lemma {:induction false} DeliveredLead(mem: seq<byte>, index: nat, pktLen: nat, cfg: Config, m: nat)
    returns (frames: seq<Frame>)
    requires Readable(mem, index, pktLen) && 0 < m <= |Parse(mem, index, pktLen, cfg).delivered|
    ensures |frames| == m && AllWellFormed(frames, cfg) && Leads(mem, index, pktLen, frames, cfg)
    decreases m
  {
    hide Parse, CheckFrame, Config.UnitedLen, LengthField, Frame.Encode, Frame.WellFormed, Part;
    ParseStep(mem, index, pktLen, cfg);
    var f := AcceptedFrame(mem, index, pktLen, cfg);
    LastFits(mem, index, pktLen, cfg);
    var rest, n := [], f.ActualLength();
    if m > 1 {
      rest := DeliveredLead(mem, index + n, pktLen - n, cfg, m - 1);
      PartJoin(mem, index, n, |Layout(rest, cfg)|);
    }
    frames := [f] + rest;
    assert frames[1..] == rest && frames[0] == f;
    LayoutStep(frames, cfg);
  }

  lemma LastFits(mem: seq<byte>, index: nat, pktLen: nat, cfg: Config)
    requires Readable(mem, index, pktLen) && CheckFrame(mem, index, pktLen, cfg).Accept?
    ensures var n := CheckFrame(mem, index, pktLen, cfg).actualLength; n == pktLen || n + 4 + FRAME_DESC_SZ <= pktLen
  {
  }

  /** The loop delivers m frames at least exactly when the transfer starts with m well-formed
      frames. */
  lemma DeliversExactlyLeading(mem: seq<byte>, transferLen: uint32, cfg: Config, m: nat)
    requires Readable(mem, 0, transferLen) && m > 0
    ensures m <= |Parse(mem, 0, transferLen, cfg).delivered|
            <==> exists frames :: |frames| == m && AllWellFormed(frames, cfg) && Leads(mem, 0, transferLen, frames, cfg)
  {
    hide Parse, Leads, AllWellFormed;
    if m <= |Parse(mem, 0, transferLen, cfg).delivered| {
      var frames := DeliveredLead(mem, 0, transferLen, cfg, m);
    }
    forall frames | |frames| == m && AllWellFormed(frames, cfg) && Leads(mem, 0, transferLen, frames, cfg)
      ensures m <= |Parse(mem, 0, transferLen, cfg).delivered|
    {
      LeadingAreDelivered(mem, 0, transferLen, frames, cfg);
    }
  }

  // ---------- the format in bytes ----------

  /** A well-formed frame, byte by byte: the descriptor starts with the 12-bit length of the
      payload, of which 2304 or 4096 bytes are allowed, and the padding is what is missing to a
      whole block on SDIO, else to a whole word. */
  lemma WellFormedExactly(f: Frame, cfg: Config)
    ensures var total := 4 + |f.gap| + |f.body| + |f.pad|;
            f.WellFormed(cfg)
            <==> && 16 <= |f.body| <= 16 + (if cfg.wifi then 2304 else 4096)
                 && |f.body| - 16 == f.body[0] as int + 256 * (f.body[1] as int % 16)
                 && (cfg.wlan ==> f.body[4] as int <= |f.body| - 16)
                 && total < 0x1_0000
                 && if cfg.sdio then total % 256 == 0 && |f.pad| < 256 else total % 4 == 0 && |f.pad| < 4
  {
    if |f.body| >= 16 {
      TwelveBits(f.body[0], f.body[1]);
    }
    PaddedExactly(4 + |f.gap| + |f.body|, |f.pad|, cfg);
    hide Config.UnitedLen;
  }

  lemma TwelveBits(low: byte, high: byte)
    ensures (low as int + 0x100 * (high as int)) % 0x1000 == low as int + 256 * (high as int % 16)
  {
  }

  lemma PaddedExactly(n: nat, pad: nat, cfg: Config)
    ensures n + pad == cfg.UnitedLen(n)
            <==> if cfg.sdio then (n + pad) % 256 == 0 && pad < 256 else (n + pad) % 4 == 0 && pad < 4
  {
    if cfg.sdio {
      PaddedToBlock(n, pad);
    } else {
      PaddedToWord(n, pad);
    }
  }

  lemma PaddedToBlock(n: nat, pad: nat)
    ensures n + pad == (n + 255) / 256 * 256 <==> (n + pad) % 256 == 0 && pad < 256
  {
    var up := (n + 255) / 256;
    assert n <= up * 256 < n + 256;
    if (n + pad) % 256 == 0 && pad < 256 {
      var m := (n + pad) / 256;
      assert n <= m * 256 < n + 256;
    }
  }

  lemma PaddedToWord(n: nat, pad: nat)
    ensures n + pad == (n + 3) / 4 * 4 <==> (n + pad) % 4 == 0 && pad < 4
  {
    var up := (n + 3) / 4;
    assert n <= up * 4 < n + 4;
    if (n + pad) % 4 == 0 && pad < 4 {
      var m := (n + pad) / 4;
      assert n <= m * 4 < n + 4;
    }
  }

  /** A frame as it is sent: the two lengths, low byte first, and the parts. */
  lemma EncodedBytes(f: Frame)
    requires f.ActualLength() < 0x1_0000
    ensures var e, total := f.Encode(), 4 + |f.gap| + |f.body| + |f.pad|;
            && |e| == total && e[0] as int + 256 * (e[1] as int) == total
            && e[2] as int + 256 * (e[3] as int) == 4 + |f.gap|
            && e[4..] == f.gap + f.body + f.pad
  {
    FrameFields(f);
  }

  /** On SDIO any k frames that fit in a block each take exactly k blocks, and are delivered. */
  lemma {:induction false} SmallFramesFillBlocks(mem: seq<byte>, frames: seq<Frame>, cfg: Config)
    requires cfg.sdio && frames != [] && AllWellFormed(frames, cfg)
    requires forall i :: 0 <= i < |frames| ==> 4 + |frames[i].gap| + |frames[i].body| <= 256
    requires Readable(mem, 0, 256 * |frames|) && mem[..256 * |frames|] == Layout(frames, cfg)
    ensures Parse(mem, 0, 256 * |frames|, cfg) == Parsed(true, Bodies(frames))
  {
    SmallFramesLength(frames, cfg);
    hide Layout, AllWellFormed, Parse, Bodies, Frame.WellFormed;
    assert Part(mem, 0, 256 * |frames|) == mem[..256 * |frames|];
    LayoutIsDelivered(mem, 0, frames, cfg);
  }

  lemma {:induction false} SmallFramesLength(frames: seq<Frame>, cfg: Config)
    requires cfg.sdio && AllWellFormed(frames, cfg)
    requires forall i :: 0 <= i < |frames| ==> 4 + |frames[i].gap| + |frames[i].body| <= 256
    ensures |Layout(frames, cfg)| == 256 * |frames|
  {
    if frames != [] {
      LayoutStep(frames, cfg);
      WellFormedExactly(frames[0], cfg);
      hide Frame.WellFormed, Layout;
      SmallFramesLength(frames[1..], cfg);
    }
  }

  /** Over SDIO every frame takes a block at least, so no transfer of n blocks holds more
      than n frames. */
  lemma {:induction false} AtMostOneFramePerBlock(mem: seq<byte>, index: nat, pktLen: nat, cfg: Config)
    requires Readable(mem, index, pktLen) && cfg.sdio && Parse(mem, index, pktLen, cfg).ok
    ensures 0 < |Parse(mem, index, pktLen, cfg).delivered|
    ensures BLOCK * |Parse(mem, index, pktLen, cfg).delivered| <= pktLen
    decreases pktLen
  {
    hide Parse, CheckFrame, Config.UnitedLen, LengthField, Frame.Encode, Frame.WellFormed, Part;
    ParseStep(mem, index, pktLen, cfg);
    var f := AcceptedFrame(mem, index, pktLen, cfg);
    var n := f.ActualLength();
    FrameFillsBlock(f, cfg);
    if pktLen != n {
      AtMostOneFramePerBlock(mem, index + n, pktLen - n, cfg);
    }
  }

  lemma FrameFillsBlock(f: Frame, cfg: Config)
    requires f.WellFormed(cfg) && cfg.sdio
    ensures f.ActualLength() >= BLOCK
  {
  }
}
