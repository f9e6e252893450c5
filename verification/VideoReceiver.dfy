/**
 What a client reads off the wire, in its own terms: the picture, the bytes of every header, how many packets
 come in which block, and what it can repair when packets are lost.
 */
module VideoReceiver {
  import opened Bits
  import opened VideoRtp
  import opened VideoFec
  import opened VideoReassembly
  import VideoPay
  import opened VideoSequence

  // ---- the picture

  /** How many packets carry `size` bytes of payload. */
  function PacketsFor(cfg: Settings, size: nat): nat {
    (size + cfg.payloadSize - 17) / (cfg.payloadSize - 16)
  }

  /** The short header (type, frame type, length of the last payload) and the picture. */
  ghost predicate IsPicture(r: seq<byte>, isKey: bool, frame: seq<byte>, lastLength: int) {
    && |r| == 8 + |frame| && r[8..] == frame
    && r[0] == 0x01 && r[1] == r[2] == 0 && r[3] == (if isKey then 0x02 else 0x01)
    && r[4] + 0x100 * r[5] as int == lastLength && r[6] == r[7] == 0
  }

  lemma FullIsPicture(cfg: Settings, isKey: bool, frame: seq<byte>)
    ensures IsPicture(FullPayload(cfg, isKey, frame), isKey, frame, LastPayloadLen(cfg, |frame|))
  {
    hide LastPayloadLen;
    var len := LastPayloadLen(cfg, |frame|);
    var head := [1, 0, 0, if isKey then 2 else 1] + LE16(len) + [0, 0];
    assert FullPayload(cfg, isKey, frame) == head + frame;
    LengthBytes(cfg, |frame|);
  }

  lemma LengthBytes(cfg: Settings, n: nat)
    ensures var len := LastPayloadLen(cfg, n);
      LE16(len)[0] + 0x100 * LE16(len)[1] as int == len
  {}

  lemma OnePicture(r: seq<byte>, q: seq<byte>, isKey: bool, frame: seq<byte>, len: int)
    requires IsPicture(r, isKey, frame, len) && IsPicture(q, isKey, frame, len)
    ensures r == q
  {
    SameBytes(r[4], r[5], q[4], q[5]);
    forall i | 0 <= i < |r| ensures r[i] == q[i] {
      if i >= 8 { assert r[i] == r[8..][i - 8] && q[i] == q[8..][i - 8]; }
    }
  }

  lemma SameBytes(a: byte, b: byte, c: byte, d: byte)
    requires a + 0x100 * b as int == c + 0x100 * d as int
    ensures a == c && b == d
  {}

  /** The receiver gets the picture back, its kind and the length of the last payload without padding,
      exactly when the settings leave every data packet recognisable. */
  lemma {:induction false} PictureRestored(e: Element, isKey: bool, frame: seq<byte>, rs: Encoder)
    ensures var n := PacketsFor(e.cfg, 8 + |frame|);
      && n > 0
      && (IsPicture(Reassemble(SplitIntoRtp(e, isKey, frame, rs).packets), isKey, frame,
                    8 + |frame| - (n - 1) * (e.cfg.payloadSize - 16))
          <==> Recoverable(e.cfg, n))
  {
    hide SplitIntoRtp, Recoverable, Reassemble, FullPayload, LastPayloadLen, IsPicture;
    LastLength(e.cfg, |frame|);
    FullLength(e.cfg, isKey, frame);
    ReassemblyExact(e, isKey, frame, rs);
    var r, full := Reassemble(SplitIntoRtp(e, isKey, frame, rs).packets), FullPayload(e.cfg, isKey, frame);
    FullIsPicture(e.cfg, isKey, frame);
    if IsPicture(r, isKey, frame, LastPayloadLen(e.cfg, |frame|)) {
      OnePicture(r, full, isKey, frame, LastPayloadLen(e.cfg, |frame|));
    }
  }

  lemma FullLength(cfg: Settings, isKey: bool, frame: seq<byte>)
    ensures |FullPayload(cfg, isKey, frame)| == 8 + |frame|
  {}

  /** SOF marks the first data packet and no other, EOF the last and no other; the stream packet index counts on from
      the sequence number that the frame began with, whatever numbers its packets have. */
  lemma {:induction false} StartAndEndMarked(e: Element, isKey: bool, frame: seq<byte>, rs: Encoder)
    ensures var (kept, n) := (Kept(SplitIntoRtp(e, isKey, frame, rs).packets), PacketsFor(e.cfg, 8 + |frame|));
      && n > 0
      && (Recoverable(e.cfg, n) ==>
            && |kept| == n
            && forall k :: 0 <= k < n ==> Marked(kept[k], e.curSeq, k, n))
  {
    hide Recoverable, RtpPacket, Kept, WithFec, Marked, PacketCount, SamePacket;
    var full := FullPayload(e.cfg, isKey, frame);
    PacketBoundsPositive(e.cfg, full);
    FrameKept(e, full, rs);
    var kept := Kept(SplitIntoRtp(e, isKey, frame, rs).packets);
    PacketsCounted(e.cfg, isKey, frame);
    forall k | 0 <= k < |kept| && Recoverable(e.cfg, PacketCount(e.cfg, full))
      ensures Marked(kept[k], e.curSeq, k, PacketCount(e.cfg, full))
    {
      FreshMarked(e, full, k);
      SameMarks(kept[k], RtpPacket(e, full, k), e.curSeq, k, PacketCount(e.cfg, full));
    }
  }

  /** Packet `k` of `n`: what its flags say, and its stream packet index. */
  ghost predicate Marked(p: Packet, curSeq: nat, k: nat, n: nat) {
    && p[24] == 0x1 + (if k == 0 then 0x4 else 0) + (if k == n - 1 then 0x2 else 0)
    && FromLE32(p[16..20]) == (curSeq + k) % TWO_32 * 0x100 % TWO_32
  }

  lemma PacketsCounted(cfg: Settings, isKey: bool, frame: seq<byte>)
    ensures PacketCount(cfg, FullPayload(cfg, isKey, frame)) == PacketsFor(cfg, 8 + |frame|)
  {}

  lemma FreshMarked(e: Element, full: seq<byte>, k: nat)
    requires k < PacketCount(e.cfg, full)
    ensures Marked(RtpPacket(e, full, k), e.curSeq, k, PacketCount(e.cfg, full))
  {
    hide PacketCount, RtpPacket;
    HeaderFields(e, full, k);
    FromLE32Inverts(SeqAt(e, k) * 0x100 % TWO_32);
  }

  lemma SameMarks(p: Packet, q: Packet, curSeq: nat, k: nat, n: nat)
    requires SamePacket(p, q) && Marked(q, curSeq, k, n)
    ensures Marked(p, curSeq, k, n)
  {}

  /** With at most 2 required parity packets that is every frame of less than 1024 packets. */
  lemma DefaultPicture(e: Element, isKey: bool, frame: seq<byte>, rs: Encoder)
    requires e.cfg.minFecPackets <= 2 && PacketsFor(e.cfg, 8 + |frame|) < 1024
    ensures var n := PacketsFor(e.cfg, 8 + |frame|);
      IsPicture(Reassemble(SplitIntoRtp(e, isKey, frame, rs).packets), isKey, frame,
                8 + |frame| - (n - 1) * (e.cfg.payloadSize - 16))
  {
    hide SplitIntoRtp, Recoverable, Reassemble, IsPicture;
    PictureRestored(e, isKey, frame, rs);
    DefaultRecoverable(e.cfg, PacketsFor(e.cfg, 8 + |frame|));
  }

  // ---- the header of every packet

  /** RTP version and extension flag, the frame's number, and the byte that names the FEC block. */
  ghost predicate ReadsAs(p: Packet, frameNum: nat, blocks: nat) {
    && p[0] == 0x90 && p[26] == 0x10 && p[27] == blocks
    && p[20] + 0x100 * p[21] as int + 0x1_0000 * p[22] as int + 0x100_0000 * p[23] as int == frameNum
  }

  lemma LittleEndian(x: uint32)
    ensures var s := LE32(x); s[0] + 0x100 * s[1] as int + 0x1_0000 * s[2] as int + 0x100_0000 * s[3] as int == x
  {
    FromLE32Inverts(x);
  }

  lemma FreshHeader(e: Element, full: seq<byte>, k: nat)
    requires k < PacketCount(e.cfg, full)
    ensures ReadsAs(RtpPacket(e, full, k), e.frameNum, 0)
  {
    hide FlagsOf, FecInfo, SeqAt, PacketPayload, BE16, LE32;
    LittleEndian(e.frameNum);
    var r := RtpPacket(e, full, k);
    assert r[20..24] == LE32(e.frameNum);
    assert r[20] == r[20..24][0] && r[21] == r[20..24][1] && r[22] == r[20..24][2] && r[23] == r[20..24][3];
  }

  lemma StampHeader(p: Packet, e: Element, idx: nat, data: nat, pct: nat, block: nat, last: nat)
    ensures ReadsAs(Stamp(p, e, idx, data, pct, block, last), e.frameNum, Or(Shl(block, 4), last) % 0x100)
  {
    hide FecInfo, SeqAt, BE16, LE32, Or, Shl;
    LittleEndian(e.frameNum);
    var r := Stamp(p, e, idx, data, pct, block, last);
    assert r[20..24] == LE32(e.frameNum);
    assert r[20] == r[20..24][0] && r[21] == r[20..24][1] && r[22] == r[20..24][2] && r[23] == r[20..24][3];
  }

  lemma BlocksByte(block: nat)
    requires block < 3
    ensures Or(Shl(block, 4), 0x80) % 0x100 == 0x80 + 0x10 * block
    ensures Or(Shl(0, 4), 0) % 0x100 == 0
  {
    hide Or;
    assert Shl(block, 4) == 0x10 * block && Shl(1, 7) == 0x80 && Shl(0, 4) == 0;
    Pow2Values();
    OrNothing(0);
    OrNothing(0x10 * block);
    OrCommutes(0x10 * block, 0x80);
    OrAbove(1, 0, 0x10 * block, 7);
  }

  // ---- the FEC word

  /** Where its fields lie when their values fit: the data count from bit 22, the shard index from bit 12, the
      percentage from bit 4. */
  lemma FecWord(idx: nat, data: nat, pct: nat)
    requires idx < 0x400 && data < 0x400 && pct < 0x100
    ensures FecInfo(idx, data, pct) == 0x40_0000 * data + 0x1000 * idx + 0x10 * pct
  {
    hide Or, Low, Shl;
    var a, b, c := Shl(idx, 12), Shl(data, 22), Shl(pct, 4);
    ShiftedValues(idx, data, pct);
    PowersOfFields();
    OrNothing(a);
    OrCommutes(a, b);
    OrAbove(data, 0, a, 22);
    OrNothing(c);
    OrAbove(0x400 * data + idx, 0, c, 12);
    hide Pow2;
    LowIsIdentity(0x40_0000 * data + 0x1000 * idx + 0x10 * pct, 32);
  }

  lemma ShiftedValues(idx: nat, data: nat, pct: nat)
    ensures Shl(idx, 12) == 0x1000 * idx && Shl(data, 22) == 0x40_0000 * data && Shl(pct, 4) == 0x10 * pct
    ensures Shl(0x400 * data + idx, 12) == 0x40_0000 * data + 0x1000 * idx
  {
    hide Shl;
    PowersOfFields();
    assert Pow2(4) == 16;
    hide Pow2;
    ShlIsProduct(idx, 12);
    ShlIsProduct(data, 22);
    ShlIsProduct(pct, 4);
    ShlIsProduct(0x400 * data + idx, 12);
  }

  lemma PowersOfFields()
    ensures Pow2(12) == 0x1000 && Pow2(22) == 0x40_0000 && Pow2(32) == 0x1_0000_0000
  {
    Pow2Values();
    Pow2Adds(18);
    Pow2Adds(8);
  }

  // ---- how many packets there are, and what they say about their block

  /** The parity packets that `data` packets ask for. */
  function ParityFor(cfg: Settings, data: nat): nat {
    var rounded := (data * cfg.fecPercentage + 99) / 100;
    if rounded < cfg.minFecPackets then cfg.minFecPackets else rounded
  }

  /** More than 255 packets cannot be coded together: such a block goes out without parity. */
  predicate Protected(cfg: Settings, data: nat) {
    data + ParityFor(cfg, data) <= 255
  }

  function WithParity(cfg: Settings, data: nat): nat {
    if Protected(cfg, data) then data + ParityFor(cfg, data) else data
  }

  /** The data packets of each third of a large frame. */
  function ThirdOf(n: nat, block: nat): nat
    requires n > 90 && block < 3
  {
    var third := (n + 2) / 3;
    if block < 2 then third else n - 2 * third
  }

  /** How many packets a frame of `n` data packets becomes. */
  function OnWire(cfg: Settings, n: nat): nat {
    if cfg.fecPercentage == 0 then n
    else if n <= 90 then WithParity(cfg, n)
    else WithParity(cfg, ThirdOf(n, 0)) + WithParity(cfg, ThirdOf(n, 1)) + WithParity(cfg, ThirdOf(n, 2))
  }

  /** The thirds of a frame from `block` on, one after the other, each protected packet naming its own and that
      there are three. */
  ghost predicate Thirds(cfg: Settings, frameNum: nat, out: seq<Packet>, n: nat, block: nat)
    requires n > 90 && block <= 3
    decreases 3 - block
  {
    if block == 3 then out == [] else
    var w := WithParity(cfg, ThirdOf(n, block));
    && w <= |out|
    && (forall i :: 0 <= i < w ==>
          ReadsAs(out[i], frameNum, if Protected(cfg, ThirdOf(n, block)) then 0x80 + 0x10 * block else 0))
    && Thirds(cfg, frameNum, out[w..], n, block + 1)
  }

  ghost predicate AllRead(out: seq<Packet>, frameNum: nat, blocks: nat) {
    forall i :: 0 <= i < |out| ==> ReadsAs(out[i], frameNum, blocks)
  }

  lemma ProtectOnWire(e: Element, ps: seq<Packet>, block: nat, last: nat, rs: Encoder)
    requires ps != []
    ensures Skipped(e.cfg, |ps|) <==> !Protected(e.cfg, |ps|)
    ensures |Protect(e, ps, block, last, rs)| == WithParity(e.cfg, |ps|)
  {
    hide Stamp, DataArea, ParityRow;
  }

  lemma ProtectHeaders(e: Element, ps: seq<Packet>, block: nat, last: nat, rs: Encoder)
    requires ps != [] && AllRead(ps, e.frameNum, 0)
    ensures AllRead(Protect(e, ps, block, last, rs), e.frameNum,
                    if Protected(e.cfg, |ps|) then Or(Shl(block, 4), last) % 0x100 else 0)
  {
    hide Stamp, ReadsAs, Or, Shl, DataArea, ParityRow, Protected, Skipped;
    ProtectOnWire(e, ps, block, last, rs);
    var b, out := DetermineSplit(e.cfg, |ps|), Protect(e, ps, block, last, rs);
    if !Skipped(e.cfg, |ps|) {
      forall i | 0 <= i < |out| ensures ReadsAs(out[i], e.frameNum, Or(Shl(block, 4), last) % 0x100) {
        var p := if i < |ps| then ps[i] else ParityRow(DataArea(ps, b.blockSize), b, i - |ps|, rs);
        StampHeader(p, e, i, b.dataShards, b.percentage, block, last);
        assert out[i] == Stamp(p, e, i, b.dataShards, b.percentage, block, last);
      }
    }
  }

  lemma ThirdIsSubList(ps: seq<Packet>, block: nat)
    requires |ps| > 90 && block < 3
    ensures |SubList(ps, block)| == ThirdOf(|ps|, block) > 0
    ensures forall p :: p in SubList(ps, block) ==> p in ps
  {}

  lemma {:induction false} MultiOnWire(e: Element, ps: seq<Packet>, block: nat, rs: Encoder)
    requires |ps| > 90 && block <= 3 && AllRead(ps, e.frameNum, 0)
    ensures Thirds(e.cfg, e.frameNum, MultiBlocks(e, ps, block, rs).packets, |ps|, block)
    ensures MultiBlocks(e, ps, block, rs).after.frameNum == e.frameNum
    decreases 3 - block
  {
    hide Protect, SubList, ReadsAs, WithParity, Protected, ThirdOf, Or, Shl;
    if block < 3 {
      var sub := SubList(ps, block);
      ThirdIsSubList(ps, block);
      var first := Protect(e, sub, block, LAST_BLOCK_INDEX, rs);
      var next := Advance(e, |first|);
      SubListReads(ps, sub, e.frameNum);
      ProtectHeaders(e, sub, block, LAST_BLOCK_INDEX, rs);
      ProtectOnWire(e, sub, block, LAST_BLOCK_INDEX, rs);
      BlocksByte(block);
      MultiOnWire(next, ps, block + 1, rs);
      var out := MultiBlocks(e, ps, block, rs).packets;
      assert out[|first|..] == MultiBlocks(next, ps, block + 1, rs).packets;
    }
  }

  lemma SubListReads(ps: seq<Packet>, sub: seq<Packet>, frameNum: nat)
    requires AllRead(ps, frameNum, 0) && forall p :: p in sub ==> p in ps
    ensures AllRead(sub, frameNum, 0)
  {
    hide ReadsAs;
    forall i | 0 <= i < |sub| ensures ReadsAs(sub[i], frameNum, 0) { assert sub[i] in ps; }
  }

  lemma FreshHeaders(e: Element, isKey: bool, frame: seq<byte>)
    ensures var ps := RtpPackets(e, FullPayload(e.cfg, isKey, frame));
      |ps| == PacketsFor(e.cfg, 8 + |frame|) > 0 && AllRead(ps, e.frameNum, 0)
  {
    hide ReadsAs, RtpPacket;
    var full := FullPayload(e.cfg, isKey, frame);
    PacketBoundsPositive(e.cfg, full);
    forall k | 0 <= k < PacketCount(e.cfg, full) ensures ReadsAs(RtpPackets(e, full)[k], e.frameNum, 0) {
      FreshHeader(e, full, k);
    }
  }

  /** How many packets a frame becomes, and that each carries the frame's number and names its block; the next
      frame has the next number. */
  lemma FrameOnWire(e: Element, isKey: bool, frame: seq<byte>, rs: Encoder)
    ensures var (o, n) := (SplitIntoRtp(e, isKey, frame, rs), PacketsFor(e.cfg, 8 + |frame|));
      && |o.packets| == OnWire(e.cfg, n)
      && (if e.cfg.fecPercentage > 0 && n > 90 then Thirds(e.cfg, e.frameNum, o.packets, n, 0)
          else AllRead(o.packets, e.frameNum, 0))
      && o.after.frameNum == (e.frameNum + 1) % TWO_32
  {
    hide Protect, MultiBlocks, RtpPackets, FullPayload, ReadsAs, WithParity, Protected, Thirds, Or, Shl, ThirdOf;
    hide PacketsFor;
    var ps := RtpPackets(e, FullPayload(e.cfg, isKey, frame));
    FreshHeaders(e, isKey, frame);
    if e.cfg.fecPercentage > 0 {
      if |ps| > 90 {
        MultiOnWire(e, ps, 0, rs);
        ThirdsLength(e.cfg, e.frameNum, MultiBlocks(e, ps, 0, rs).packets, |ps|);
      } else {
        ProtectHeaders(e, ps, 0, 0, rs);
        ProtectOnWire(e, ps, 0, 0, rs);
        BlocksByte(0);
      }
    }
  }

  lemma ThirdsLength(cfg: Settings, frameNum: nat, out: seq<Packet>, n: nat)
    requires n > 90 && Thirds(cfg, frameNum, out, n, 0)
    ensures |out| == WithParity(cfg, ThirdOf(n, 0)) + WithParity(cfg, ThirdOf(n, 1)) + WithParity(cfg, ThirdOf(n, 2))
  {
    hide ReadsAs, WithParity, Protected, ThirdOf;
    var a, b, c := WithParity(cfg, ThirdOf(n, 0)), WithParity(cfg, ThirdOf(n, 1)), WithParity(cfg, ThirdOf(n, 2));
    assert out[a..][b..][c..] == [];
  }

  /** The frame a packet says it belongs to. */
  function FrameIndex(p: Packet): nat {
    p[20] + 0x100 * p[21] as int + 0x1_0000 * p[22] as int + 0x100_0000 * p[23] as int
  }

  /** The packets of one frame after the other, numbered from `frameNum`. */
  ghost predicate InFrames(out: seq<Packet>, frameNum: nat, fs: seq<Frame>) {
    if fs == [] then out == [] else
    var m := OnWire(fs[0].cfg, PacketsFor(fs[0].cfg, 8 + |fs[0].data|));
    && 0 < m <= |out|
    && (forall i :: 0 <= i < m ==> FrameIndex(out[i]) == frameNum)
    && InFrames(out[m..], (frameNum + 1) % TWO_32, fs[1..])
  }

  lemma {:induction false} FramesInOrder(e: Element, fs: seq<Frame>)
    ensures InFrames(Run(e, fs).packets, e.frameNum, fs)
    decreases |fs|
  {
    hide OneFrame, OnWire, PacketsFor, FrameIndex;
    if fs != [] {
      var first := OneFrame(e, fs[0]);
      OneFrameIndexed(e, fs[0]);
      FramesInOrder(first.after, fs[1..]);
      assert Run(e, fs).packets[|first.packets|..] == Run(first.after, fs[1..]).packets;
    }
  }

  lemma OneFrameIndexed(e: Element, f: Frame)
    ensures var o := OneFrame(e, f);
      && 0 < |o.packets| == OnWire(f.cfg, PacketsFor(f.cfg, 8 + |f.data|))
      && (forall i :: 0 <= i < |o.packets| ==> FrameIndex(o.packets[i]) == e.frameNum)
      && o.after.frameNum == (e.frameNum + 1) % TWO_32
  {
    hide SplitIntoRtp, OnWire, PacketsFor;
    OneFrameSequence(e, f);
    FrameOnWire(e.(cfg := f.cfg), f.isKey, f.data, f.rs);
    var n := PacketsFor(f.cfg, 8 + |f.data|);
    if f.cfg.fecPercentage > 0 && n > 90 { ThirdsIndexed(f.cfg, e.frameNum, OneFrame(e, f).packets, n, 0); }
  }

  lemma {:induction false} ThirdsIndexed(cfg: Settings, frameNum: nat, out: seq<Packet>, n: nat, block: nat)
    requires n > 90 && block <= 3 && Thirds(cfg, frameNum, out, n, block)
    ensures forall i :: 0 <= i < |out| ==> FrameIndex(out[i]) == frameNum
    decreases 3 - block
  {
    hide WithParity, ThirdOf, Protected;
    if block < 3 {
      var w := WithParity(cfg, ThirdOf(n, block));
      ThirdsIndexed(cfg, frameNum, out[w..], n, block + 1);
      assert forall i :: w <= i < |out| ==> out[i] == out[w..][i - w];
    }
  }
}
