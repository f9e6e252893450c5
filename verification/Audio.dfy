/**
 The audio payloader: one RTP packet for each input buffer and, after every fourth,
 two parity packets computed from the last four, which are kept in a ring of rows.
 */
module Audio {
  import opened Bits

  const DATA_SHARDS: nat := 4
  const FEC_SHARDS: nat := 2
  const MAX_BLOCK_SIZE: nat := 1400
  const RTP_HEADER_SIZE: nat := 12
  const FEC_HEADER_SIZE: nat := 24

  type Counter = n: int | 0 <= n < TWO_16

  /** Reed-Solomon: byte `k` of parity row `j`, from the four data rows. */
  type Encoder = (seq<seq<byte>>, nat, nat) -> byte

  datatype Settings = Settings(
    packetDuration: nat, encrypts: bool, iv: uint32,
    cipher: (seq<byte>, seq<byte>) -> seq<byte>)     // initialisation vector, content
  {
    predicate InRange() { packetDuration <= 60 }

    function Timestamp(n: Counter): nat { n * packetDuration }
  }

  function BE32(x: nat): (r: seq<byte>)
    ensures |r| == 4
  {
    BE16(x / TWO_16) + BE16(x)
  }

  /** `derive_iv` */
  function DeriveIv(iv: uint32, seqNumber: nat): (r: seq<byte>)
    ensures |r| == 16
  {
    BE32((iv + seqNumber) % TWO_32) + Zeros(12)
  }

  function Header(cfg: Settings, n: Counter): (h: seq<byte>)
    ensures |h| == RTP_HEADER_SIZE
  {
    [0x80, 97] + BE16(n) + BE32(cfg.Timestamp(n)) + Zeros(4)
  }

  /** The packet with sequence number `n`. */
  function DataPacket(cfg: Settings, n: Counter, payload: seq<byte>): (p: seq<byte>)
    ensures |p| >= RTP_HEADER_SIZE
  {
    Header(cfg, n) + if cfg.encrypts then cfg.cipher(DeriveIv(cfg.iv, n), payload) else payload
  }

  /** The header of parity packet `j` of the group that packet `n` completes. */
  function FecHeader(cfg: Settings, n: Counter, j: nat): (h: seq<byte>)
    requires n >= DATA_SHARDS - 1 && j < FEC_SHARDS
    ensures |h| == FEC_HEADER_SIZE
  {
    var base := n - (DATA_SHARDS - 1);
    [0x80, 127] + BE16(n + j) + Zeros(8) + [j, 97] + BE16(base) + BE32(cfg.Timestamp(base)) + Zeros(4)
  }

  function ParityRow(rows: seq<seq<byte>>, j: nat, size: nat, rs: Encoder): (r: seq<byte>)
    ensures |r| == size
  {
    seq(size, k requires 0 <= k => rs(rows, j, k))
  }

  /** Parity packet `j` for four whole data packets, of which the last has number `n`. */
  function FecPacket(cfg: Settings, n: Counter, j: nat, packets: seq<seq<byte>>, size: nat, rs: Encoder): seq<byte>
    requires n >= DATA_SHARDS - 1 && j < FEC_SHARDS && size >= RTP_HEADER_SIZE
  {
    FecHeader(cfg, n, j) + ParityRow(packets, j, size, rs)[RTP_HEADER_SIZE..]
  }

  // ---- what a run emits

  /** One run of the payloader: its settings, what the ring held at first, and its inputs. */
  datatype Stream = Stream(cfg: Settings, initial: seq<seq<byte>>, inputs: seq<seq<byte>>) {
    /** The data rows exist, and every packet fits into one. */
    ghost predicate Valid() {
      && cfg.InRange() && |initial| == DATA_SHARDS
      && (forall r :: 0 <= r < DATA_SHARDS ==> |initial[r]| == MAX_BLOCK_SIZE)
      && forall m :: 0 <= m < |inputs| ==> |Data(m)| <= MAX_BLOCK_SIZE
    }

    function Data(m: nat): (p: seq<byte>)
      requires m < |inputs|
      ensures |p| >= RTP_HEADER_SIZE
    {
      DataPacket(cfg, m % TWO_16, inputs[m])
    }

    /** What packet `m` leaves in its row: itself, over what a longer packet left there before. */
    function Slot(m: int): (row: seq<byte>)
      requires Valid() && -(DATA_SHARDS as int) <= m < |inputs|
      ensures |row| == MAX_BLOCK_SIZE
      ensures m >= 0 ==> row[..|Data(m)|] == Data(m)
      decreases m + DATA_SHARDS
    {
      if m < 0 then initial[m + DATA_SHARDS] else
      var below := if m < DATA_SHARDS then initial[m] else Slot(m - DATA_SHARDS);
      Data(m) + below[|Data(m)|..]
    }

    /** The four rows that parity is computed from when packet `i` completes a group. */
    function Group(i: nat): seq<seq<byte>>
      requires Valid() && 3 <= i < |inputs|
    {
      var size := |Data(i)|;
      [Slot(i - 3)[..size], Slot(i - 2)[..size], Slot(i - 1)[..size], Slot(i)[..size]]
    }

    /** The packets emitted for input `i`: its own and, if it completes a group of four, the group's parity. */
    function Emitted(i: nat, rs: Encoder): seq<seq<byte>>
      requires Valid() && i < |inputs|
    {
      if i % DATA_SHARDS != DATA_SHARDS - 1 then [Data(i)] else
      GroupEnds(i);
      [Data(i)] + seq(FEC_SHARDS, j requires 0 <= j < FEC_SHARDS =>
        FecPacket(cfg, i % TWO_16, j, Group(i), |Data(i)|, rs))
    }
  }

  /** With packets of one size the parity is that of the last four packets themselves. */
  lemma EqualSizes(s: Stream, i: nat)
    requires s.Valid() && 3 <= i < |s.inputs|
    requires |s.Data(i - 3)| == |s.Data(i - 2)| == |s.Data(i - 1)| == |s.Data(i)|
    ensures s.Group(i) == [s.Data(i - 3), s.Data(i - 2), s.Data(i - 1), s.Data(i)]
  {
    hide Stream.Data, Stream.Valid;
  }

  lemma GroupEnds(i: nat)
    requires i % DATA_SHARDS == DATA_SHARDS - 1
    ensures i >= 3 && i % TWO_16 >= 3 && i % TWO_16 % DATA_SHARDS == DATA_SHARDS - 1
  {
    WrapKeepsGroup(i);
  }

  /** 65536 is a multiple of four: the wrap of the counter leaves the groups aligned. */
  lemma WrapKeepsGroup(i: nat)
    ensures i % TWO_16 % DATA_SHARDS == i % DATA_SHARDS
  {
    var q, r := i / TWO_16, i % TWO_16;
    assert i == 4 * (q * 0x4000) + r;
  }

  function ParityCount(s: Stream, n: nat, rs: Encoder): nat
    requires s.Valid() && n <= |s.inputs|
  {
    if n == 0 then 0 else ParityCount(s, n - 1, rs) + |s.Emitted(n - 1, rs)| - 1
  }

  /** After `n` packets, two parity packets for every complete group of four. */
  lemma {:induction false} ParityPerGroup(s: Stream, n: nat, rs: Encoder)
    requires s.Valid() && n <= |s.inputs|
    ensures ParityCount(s, n, rs) == FEC_SHARDS * (n / DATA_SHARDS)
  {
    hide Stream.Emitted, Stream.Valid;
    if n > 0 {
      ParityPerGroup(s, n - 1, rs);
      EmittedCount(s, n - 1, rs);
    }
  }

  lemma EmittedCount(s: Stream, i: nat, rs: Encoder)
    requires s.Valid() && i < |s.inputs|
    ensures |s.Emitted(i, rs)| == if i % DATA_SHARDS == DATA_SHARDS - 1 then 1 + FEC_SHARDS else 1
  {
    hide Stream.Valid, Stream.Slot;
  }

  /** What a receiver reads in a parity header: the number and time of the group's first packet. */
  lemma BaseIsFirst(s: Stream, i: nat, rs: Encoder, j: nat)
    requires s.Valid() && i < |s.inputs| && i % DATA_SHARDS == DATA_SHARDS - 1 && j < FEC_SHARDS
    ensures i >= 3 && |s.Emitted(i, rs)| == 1 + FEC_SHARDS
    ensures var (p, first, last) := (s.Emitted(i, rs)[1 + j], s.Data(i - 3), s.Data(i));
            |p| == FEC_HEADER_SIZE + |last| - RTP_HEADER_SIZE
            && p[12] == j && p[14..16] == first[2..4] && p[16..20] == first[4..8]
            && FromBE16(p[2..4]) == (FromBE16(last[2..4]) + j) % TWO_16
  {
    hide Header, DataPacket, FecHeader, ParityRow, BE32, BE16, FromBE16, Zeros;
    hide Stream.Valid, Stream.Slot, Stream.Emitted;
    GroupEnds(i);
    var n := i % TWO_16;
    assert (i - 3) % TWO_16 == n - 3;
    HeaderFields(s.cfg, n - 3, s.inputs[i - 3]);
    HeaderFields(s.cfg, n, s.inputs[i]);
    FecHeaderFields(s.cfg, n, j);
    NumberRead(n);
    NumberRead(n + j);
    EmittedParity(s, i, rs, j);
    var p, h := s.Emitted(i, rs)[1 + j], FecHeader(s.cfg, n, j);
    assert p[..FEC_HEADER_SIZE] == h;
    assert p[2..4] == h[2..4] && p[14..16] == h[14..16] && p[16..20] == h[16..20] && p[12] == h[12];
  }

  lemma NumberRead(n: nat)
    ensures FromBE16(BE16(n)) == n % TWO_16
  {}

  lemma EmittedParity(s: Stream, i: nat, rs: Encoder, j: nat)
    requires s.Valid() && i < |s.inputs| && i % DATA_SHARDS == DATA_SHARDS - 1 && j < FEC_SHARDS
    ensures i >= 3 && i % TWO_16 >= 3 && |s.Emitted(i, rs)| == 1 + FEC_SHARDS
    ensures s.Emitted(i, rs)[0] == s.Data(i)
    ensures s.Emitted(i, rs)[1 + j] == FecPacket(s.cfg, i % TWO_16, j, s.Group(i), |s.Data(i)|, rs)
  {
    hide FecPacket, Stream.Data, Stream.Valid, Stream.Slot, Stream.Group;
    GroupEnds(i);
  }

  lemma HeaderFields(cfg: Settings, n: Counter, payload: seq<byte>)
    ensures var p := DataPacket(cfg, n, payload);
            p[2..4] == BE16(n) && p[4..8] == BE32(cfg.Timestamp(n))
  {}

  lemma FecHeaderFields(cfg: Settings, n: Counter, j: nat)
    requires n >= DATA_SHARDS - 1 && j < FEC_SHARDS
    ensures var h := FecHeader(cfg, n, j);
            h[2..4] == BE16(n + j) && h[12] == j && h[14..16] == BE16(n - 3) && h[16..20] == BE32(cfg.Timestamp(n - 3))
  {}
}
