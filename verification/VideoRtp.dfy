/**
 What the video payloader puts on the wire: the packets of one frame, the FEC
 blocks they are grouped in and the fields a receiver reads back.
 */
module VideoRtp {
  import opened Bits

  const MAX_RTP_HEADER_SIZE := 16
  const HEADERS_SIZE := 32      // RTP header, 4 reserved bytes, NV_VIDEO_PACKET
  const SHORT_HEADER_SIZE := 8
  const DATA_SHARDS_MAX := 255
  const SINGLE_BLOCK_MAX := 90
  const NR_BLOCKS := 3
  const LAST_BLOCK_INDEX := 0x80

  const FLAG_PIC_DATA := 0x1
  const FLAG_EOF := 0x2
  const FLAG_SOF := 0x4

  datatype Config = Config(payloadSize: int, addPadding: bool, fecPercentage: int, minFecPackets: int) {
    // The ranges the element's properties are registered with; a payload size of
    // 16 or less leaves no room for payload.
    predicate InRange() {
      16 < payloadSize <= 10240 && 0 <= fecPercentage <= 100 && 0 <= minFecPackets <= 255
    }

    function Capacity(): int {
      payloadSize - MAX_RTP_HEADER_SIZE
    }

    function BlockSize(): int {
      payloadSize + HEADERS_SIZE - MAX_RTP_HEADER_SIZE
    }
  }

  type Settings = c: Config | c.InRange() witness Config(1392, true, 20, 2)

  /** The fields of the element: its properties and the two counters it carries from frame to frame. */
  datatype Element = Element(cfg: Settings, curSeq: uint32, frameNum: uint32)

  type Packet = s: seq<byte> | |s| >= HEADERS_SIZE witness Zeros(HEADERS_SIZE)

  /** Reed-Solomon: byte `k` of the parity area, from the data area and the two shard counts. */
  type Encoder = (seq<byte>, nat, nat, nat) -> byte

  // ---- fields of a packet, as a receiver reads them

  function SequenceNumber(p: Packet): nat {
    0x100 * p[2] as int + p[3]
  }

  function Flags(p: Packet): byte {
    p[24]
  }

  /** The stream packet index, as it lies in the packet. */
  function StreamIndex(p: Packet): seq<byte> {
    p[16..20]
  }

  function FecField(p: Packet): nat {
    FromLE32(p[28..32])
  }

  function ShardIndex(p: Packet): nat {
    Low(Shr(FecField(p), 12), 10)
  }

  function DataShards(p: Packet): nat {
    Low(Shr(FecField(p), 22), 10)
  }

  function Percentage(p: Packet): nat {
    Low(Shr(FecField(p), 4), 8)
  }

  function Payload(p: Packet): seq<byte> {
    p[HEADERS_SIZE..]
  }

  // ---- headers

  /** A packet, field by field in memory order. */
  function Assemble(rtp: seq<byte>, seqNr: seq<byte>, middle: seq<byte>, flags: seq<byte>, multiFec: seq<byte>,
                    fecInfo: seq<byte>, payload: seq<byte>): (r: Packet)
    requires |rtp| == |seqNr| == |flags| == |multiFec| == 2 && |middle| == 20 && |fecInfo| == 4
    ensures |r| == HEADERS_SIZE + |payload|
    ensures r[2..4] == seqNr && r[24] == flags[0] && r[28..32] == fecInfo && Payload(r) == payload
  {
    rtp + seqNr + middle + flags + multiFec + fecInfo + payload
  }

  function FecInfo(shardIdx: nat, dataShards: nat, percentage: nat): uint32 {
    Pow2Values();
    Low(Or(Or(Shl(shardIdx, 12), Shl(dataShards, 22)), Shl(percentage, 4)), 32)
  }

  function SeqAt(e: Element, idx: nat): uint32 {
    (e.curSeq + idx) % TWO_32
  }

  function FlagsOf(packetNr: nat, total: nat): byte {
    FLAG_PIC_DATA
    + (if packetNr == 0 then FLAG_SOF else 0)
    + (if packetNr == total - 1 then FLAG_EOF else 0)
  }

  /** `create_rtp_header`, with the payload appended. */
  function NewPacket(e: Element, packetNr: nat, total: nat, payload: seq<byte>): Packet {
    Assemble(
      [0x90, 0], BE16(SeqAt(e, packetNr)),
      Zeros(12) + LE32(SeqAt(e, packetNr) * 0x100 % TWO_32) + LE32(e.frameNum),
      [FlagsOf(packetNr, total), 0], [0x10, 0],
      LE32(FecInfo(packetNr, total, 0)), payload)
  }

  /** `update_fec_info`: the fields it rewrites, and only those. */
  function Stamp(p: Packet, e: Element, shardIdx: nat, dataShards: nat, percentage: nat, block: nat, lastBlock: nat)
    : (r: Packet)
    ensures |r| == |p|
  {
    Assemble(
      [0x90, p[1]], BE16(SeqAt(e, shardIdx)),
      p[4..20] + LE32(e.frameNum),
      p[24..26], [0x10, Or(Shl(block, 4), lastBlock) % 0x100],
      LE32(FecInfo(shardIdx, dataShards, percentage)), Payload(p))
  }

  // ---- one frame

  function LastPayloadLen(cfg: Settings, n: nat): nat {
    var r := (n + SHORT_HEADER_SIZE) % cfg.Capacity();
    if r == 0 then cfg.Capacity() else r
  }

  function FullPayload(cfg: Settings, isKey: bool, frame: seq<byte>): seq<byte> {
    [1, 0, 0, if isKey then 2 else 1] + LE16(LastPayloadLen(cfg, |frame|)) + [0, 0] + frame
  }

  function CeilDiv(n: nat, m: nat): nat
    requires m > 0
  {
    (n + m - 1) / m
  }

  /** `f` is the single-precision quotient: within half a unit in the last place of `n / m`, and no
      further from it than any integer, since integers of this size are single-precision numbers. */
  ghost predicate CorrectlyRounded(f: real, n: nat, m: nat) {
    && -(n as real) <= 16777216.0 * (f * m as real - n as real) <= n as real
    && forall k: nat :: k < 0x100_0000 ==> NoFurther(f, k, n, m)
  }

  /** How far `f` is from `n / m`, in units of `1 / m`. */
  function Distance(f: real, n: nat, m: nat): real {
    if f * m as real >= n as real then f * m as real - n as real else n as real - f * m as real
  }

  predicate NoFurther(f: real, k: nat, n: nat, m: nat) {
    Distance(f, n, m) <= Distance(k as real, n, m)
  }

  lemma ExactQuotient(f: real, q: nat, n: nat, m: nat)
    requires m > 0 && n == q * m && NoFurther(f, q, n, m)
    ensures f == q as real
  {
    assert q as real * m as real == (q * m) as real;
    assert (f - q as real) * m as real == 0.0;
  }

  lemma AbsoluteError(e: real, n: nat, m: nat)
    requires n < 1024 * m && -(n as real) <= 16777216.0 * e <= n as real
    ensures -(m as real) <= 16384.0 * e <= m as real
  {
    assert n as real <= 1024.0 * m as real;
  }

  /** The source divides in single precision before it rounds up: below 1024 packets that gives the exact ceiling. */
  lemma {:induction false} FloatCeilAgrees(n: nat, m: nat, f: real)
    requires 0 < m <= 10240 && n < 1024 * m
    requires CorrectlyRounded(f, n, m)
    ensures -((-f).Floor) == CeilDiv(n, m)
  {
    hide CorrectlyRounded, CeilDiv;
    var q, r := n / m, n % m;
    assert n == q * m + r;
    CeilDivFacts(q, r, m);
    Located(n, m, f, q, r);
  }

  lemma Located(n: nat, m: nat, f: real, q: nat, r: nat)
    requires n == q * m + r && r < m <= 10240 && n < 1024 * m
    requires CorrectlyRounded(f, n, m)
    ensures if r == 0 then f == q as real else q as real < f < (q + 1) as real
  {
    hide Distance, NoFurther;
    QuotientBound(n, m, q, r);
    if r == 0 {
      assert NoFurther(f, q, n, m);
      ExactQuotient(f, q, n, m);
    } else {
      StrictlyBetween(f, q, r, n, m);
    }
  }

  lemma StrictlyBetween(f: real, q: nat, r: nat, n: nat, m: nat)
    requires n == q * m + r && 0 < r < m <= 10240 && n < 1024 * m
    requires -(n as real) <= 16777216.0 * (f * m as real - n as real) <= n as real
    ensures q as real < f < (q + 1) as real
  {
    AbsoluteError(f * m as real - n as real, n, m);
    Deviation(f, q, r, n, m);
    FractionBelowOne(f - q as real, m as real, r as real);
  }

  lemma Deviation(f: real, q: nat, r: nat, n: nat, m: nat)
    requires n == q * m + r
    ensures (f - q as real) * m as real - r as real == f * m as real - n as real
  {
    assert q as real * m as real == (q * m) as real;
  }

  lemma QuotientBound(n: nat, m: nat, q: nat, r: nat)
    requires n == q * m + r && n < 1024 * m
    ensures q < 1024
  {
    assert (q - 1024) * m == q * m - 1024 * m;
    assert q >= 1024 ==> (q - 1024) * m >= 0;
  }

  lemma NotBelowOne(d: real, w: real)
    requires w > 0.0 && d >= 1.0
    ensures d * w >= w
  {
    assert d * w - w == (d - 1.0) * w;
  }

  lemma NotPositive(d: real, w: real)
    requires w > 0.0 && d <= 0.0
    ensures d * w <= 0.0
  {
    assert d * w == -((-d) * w);
  }

  /** With an error below 1, a scaled fraction `r` of `w` stays strictly between 0 and `w`. */
  lemma FractionBelowOne(d: real, w: real, r: real)
    requires 0.0 < w <= 10240.0
    requires -w <= 16384.0 * (d * w - r) <= w
    requires 1.0 <= r <= w - 1.0
    ensures 0.0 < d < 1.0
  {
    if d >= 1.0 {
      NotBelowOne(d, w);
    } else if d <= 0.0 {
      NotPositive(d, w);
    }
  }

  lemma {:induction false} CeilDivFacts(q: nat, r: nat, m: nat)
    requires r < m
    ensures CeilDiv(q * m + r, m) == if r == 0 then q else q + 1
  {
    var t := CeilDiv(q * m + r, m);
    var k := (q * m + r + m - 1) % m;
    assert q * m + r + m - 1 == t * m + k;
    var e := t - q;
    assert e * m == r + m - 1 - k;
    assert e >= 2 ==> e * m >= 2 * m;
    assert e <= 0 ==> e * m <= 0;
    assert e == 1 ==> e * m == m;
  }

  function PacketCount(cfg: Settings, full: seq<byte>): nat {
    CeilDiv(|full|, cfg.Capacity())
  }

  lemma {:induction false} PacketBounds(n: nat, m: nat, k: nat)
    requires m > 0 && k < CeilDiv(n, m)
    ensures k * m < n
    ensures k + 1 < CeilDiv(n, m) ==> (k + 1) * m < n
    ensures k + 1 == CeilDiv(n, m) ==> n <= (k + 1) * m
  {
    var t := CeilDiv(n, m);
    var r := (n + m - 1) % m;
    assert n + m - 1 == t * m + r;
    ProductGrows(k + 1, t, m);
    assert (k + 1) * m == k * m + m;
    if k + 2 <= t {
      ProductGrows(k + 2, t, m);
      assert (k + 2) * m == (k + 1) * m + m;
    }
  }

  function PacketPayload(cfg: Settings, full: seq<byte>, k: nat): (s: seq<byte>)
    requires k < PacketCount(cfg, full)
    ensures |s| <= cfg.Capacity()
  {
    var c := cfg.Capacity();
    PacketBounds(|full|, c, k);
    var end := Min((k + 1) * c, |full|);
    var room := c - (end - k * c);
    full[k * c..end] + Zeros(if cfg.addPadding then room else 0)
  }

  function RtpPacket(e: Element, full: seq<byte>, k: nat): Packet
    requires k < PacketCount(e.cfg, full)
  {
    NewPacket(e, k, PacketCount(e.cfg, full), PacketPayload(e.cfg, full, k))
  }

  function RtpPackets(e: Element, full: seq<byte>): (ps: seq<Packet>)
    ensures |ps| == PacketCount(e.cfg, full)
  {
    seq(PacketCount(e.cfg, full), k requires 0 <= k < PacketCount(e.cfg, full) => RtpPacket(e, full, k))
  }

  // ---- forward error correction

  datatype Blocks = Blocks(blockSize: nat, dataShards: nat, parityShards: nat, percentage: nat)

  function DetermineSplit(cfg: Settings, dataShards: nat): (b: Blocks)
    requires dataShards > 0
    ensures b.dataShards == dataShards
  {
    var parity := (dataShards * cfg.fecPercentage + 99) / 100;
    if parity < cfg.minFecPackets then
      Blocks(cfg.BlockSize(), dataShards, cfg.minFecPackets, 100 * cfg.minFecPackets / dataShards)
    else
      Blocks(cfg.BlockSize(), dataShards, parity, cfg.fecPercentage)
  }

  predicate Skipped(cfg: Settings, dataShards: nat)
    requires dataShards > 0
  {
    var b := DetermineSplit(cfg, dataShards);
    b.dataShards + b.parityShards > DATA_SHARDS_MAX
  }

  function Extended(p: seq<byte>, size: nat): seq<byte> {
    if |p| < size then p + Zeros(size - |p|) else p
  }

  /** The data shards as they lie in the flat buffer. */
  function DataArea(ps: seq<Packet>, size: nat): seq<byte> {
    Flatten(seq(|ps|, i requires 0 <= i < |ps| => Extended(ps[i], size)))
  }

  function ParityRow(area: seq<byte>, b: Blocks, j: nat, rs: Encoder): (r: seq<byte>)
    ensures |r| == b.blockSize
  {
    seq(b.blockSize, k requires 0 <= k => rs(area, b.dataShards, b.parityShards, j * b.blockSize + k))
  }

  function StampedData(ps: seq<Packet>, e: Element, b: Blocks, block: nat, last: nat): (r: seq<Packet>)
    ensures |r| == |ps|
  {
    seq(|ps|, i requires 0 <= i < |ps| => Stamp(ps[i], e, i, b.dataShards, b.percentage, block, last))
  }

  function StampedParity(area: seq<byte>, e: Element, b: Blocks, block: nat, last: nat, rs: Encoder): (r: seq<Packet>)
    requires b.blockSize >= HEADERS_SIZE
    ensures |r| == b.parityShards
  {
    seq(b.parityShards, j requires 0 <= j =>
      Stamp(ParityRow(area, b, j, rs), e, b.dataShards + j, b.dataShards, b.percentage, block, last))
  }

  /** `generate_fec_packets`: one block, stamped and followed by its parity, or left alone when it is too large. */
  function Protect(e: Element, ps: seq<Packet>, block: nat, last: nat, rs: Encoder): seq<Packet>
    requires ps != []
  {
    var b := DetermineSplit(e.cfg, |ps|);
    if Skipped(e.cfg, |ps|) then ps
    else
      StampedData(ps, e, b, block, last)
      + StampedParity(DataArea(ps, b.blockSize), e, b, block, last, rs)
  }

  function Advance(e: Element, n: nat): Element {
    e.(curSeq := (e.curSeq + n) % TWO_32)
  }

  function PerBlock(n: nat): nat {
    CeilDiv(n, NR_BLOCKS)
  }

  /** The packets of macro block `block`. */
  function SubList(ps: seq<Packet>, block: nat): (r: seq<Packet>)
    requires |ps| > SINGLE_BLOCK_MAX && block < NR_BLOCKS
    ensures r != []
  {
    ps[block * PerBlock(|ps|)..Min((block + 1) * PerBlock(|ps|), |ps|)]
  }

  datatype Output = Output(packets: seq<Packet>, after: Element)

  /** `generate_fec_multi_blocks`, from macro block `block` on. */
  function MultiBlocks(e: Element, ps: seq<Packet>, block: nat, rs: Encoder): (o: Output)
    requires |ps| > SINGLE_BLOCK_MAX && block <= NR_BLOCKS
    decreases NR_BLOCKS - block
  {
    if block == NR_BLOCKS then Output([], e)
    else
      var first := Protect(e, SubList(ps, block), block, LAST_BLOCK_INDEX, rs);
      var rest := MultiBlocks(Advance(e, |first|), ps, block + 1, rs);
      Output(first + rest.packets, rest.after)
  }

  function WithFec(e: Element, ps: seq<Packet>, rs: Encoder): Output
    requires ps != []
  {
    if e.cfg.fecPercentage == 0 then Output(ps, e)
    else if |ps| > SINGLE_BLOCK_MAX then MultiBlocks(e, ps, 0, rs)
    else var out := Protect(e, ps, 0, 0, rs); Output(out, Advance(e, |out|))
  }

  /** `split_into_rtp` */
  function SplitIntoRtp(e: Element, isKey: bool, frame: seq<byte>, rs: Encoder): Output {
    var full := FullPayload(e.cfg, isKey, frame);
    PacketBoundsPositive(e.cfg, full);
    var o := WithFec(e, RtpPackets(e, full), rs);
    o.(after := o.after.(frameNum := (o.after.frameNum + 1) % TWO_32))
  }

  lemma PacketBoundsPositive(cfg: Settings, full: seq<byte>)
    requires |full| > 0
    ensures PacketCount(cfg, full) > 0
  {
    var c := cfg.Capacity();
    assert (|full| + c - 1) / c >= 1;
  }
}
