/** What the parity packets are for: any packets of a block, as many as it has data packets, give the frame back. */
module VideoRecovery {
  import opened Bits
  import opened Erasure
  import opened VideoRtp
  import opened VideoFec
  import opened VideoReassembly
  import opened VideoPay
  import opened VideoReceiver

  // ---- the columns of a block

  /** The bytes at offset `k` of the rows of `area`. */
  function Column(area: seq<byte>, data: nat, size: nat, k: nat): (c: seq<byte>)
    ensures |c| == data
  {
    seq(data, i requires 0 <= i < data => CellOf(area, size, i, k))
  }

  function CellOf(area: seq<byte>, size: nat, i: nat, k: nat): byte {
    if i * size + k < |area| then area[i * size + k] else 0
  }

  function At(s: seq<byte>, k: nat): byte {
    if k < |s| then s[k] else 0
  }

  /** The encoder codes every column by itself, and row `j` of its output is parity symbol `j`. */
  ghost predicate Columnwise(rs: Encoder, code: Code) {
    forall area: seq<byte>, data: nat, par: nat, size: nat, j: nat, k: nat |
        |area| == data * size && j < par && k < size ::
      rs(area, data, par, j * size + k) == code.parity(Column(area, data, size, k), par, j)
  }

  // ---- one block

  /** The parity packets that go with a block: none if it is too large to be coded. */
  function ParityOf(cfg: Settings, data: nat): (par: nat)
    ensures Protected(cfg, data) ==> par == ParityFor(cfg, data)
  {
    WithParity(cfg, data) - data
  }

  /** The packets that arrived, out of `out`. */
  ghost predicate Arrived(k: set<nat>, out: seq<Packet>, data: nat) {
    |k| >= data && forall i <- k :: i < |out|
  }

  function Known(out: seq<Packet>, arrived: set<nat>, k: nat): map<nat, byte>
    requires forall i <- arrived :: i < |out|
  {
    map i | i in arrived :: At(out[i], k)
  }

  /** The bytes of a packet that are coded as they are sent: flags and payload. */
  predicate Coded(k: nat, size: nat) {
    k == 24 < size || 32 <= k < size
  }

  lemma DataCell(ps: seq<Packet>, size: nat, i: nat, k: nat)
    requires Sized(ps, size) && i < |ps| && k < size
    ensures CellOf(DataArea(ps, size), size, i, k) == At(ps[i], k)
  {
    hide DataArea;
    DataShardIsPacket(ps, size, i);
    assert DataArea(ps, size)[i * size..(i + 1) * size][k] == DataArea(ps, size)[i * size + k];
  }

  /** Every packet of a block holds the symbols of the columns of the block's data packets. */
  lemma PacketIsSymbol(e: Element, ps: seq<Packet>, block: nat, last: nat, rs: Encoder, code: Code, i: nat, k: nat)
    requires ps != [] && Sized(ps, e.cfg.BlockSize())
    requires Columnwise(rs, code)
    requires i < |Protect(e, ps, block, last, rs)| && Coded(k, e.cfg.BlockSize())
    ensures var col := seq(|ps|, x requires 0 <= x < |ps| => At(ps[x], k));
      At(Protect(e, ps, block, last, rs)[i], k) == Symbol(code, col, ParityOf(e.cfg, |ps|), i)
  {
    hide Stamp, DataArea, Columnwise;
    ProtectOnWire(e, ps, block, last, rs);
    if Protected(e.cfg, |ps|) { CodedSymbol(e, ps, block, last, rs, code, i, k); }
  }

  lemma CodedSymbol(e: Element, ps: seq<Packet>, block: nat, last: nat, rs: Encoder, code: Code, i: nat, k: nat)
    requires ps != [] && Protected(e.cfg, |ps|) && Sized(ps, e.cfg.BlockSize())
    requires Columnwise(rs, code)
    requires i < |Protect(e, ps, block, last, rs)| && Coded(k, e.cfg.BlockSize())
    ensures var col := seq(|ps|, x requires 0 <= x < |ps| => At(ps[x], k));
      At(Protect(e, ps, block, last, rs)[i], k) == Symbol(code, col, ParityOf(e.cfg, |ps|), i)
  {
    hide Stamp, DataArea, Columnwise;
    var b, size := DetermineSplit(e.cfg, |ps|), e.cfg.BlockSize();
    var area := DataArea(ps, size);
    var col := seq(|ps|, x requires 0 <= x < |ps| => At(ps[x], k));
    ProtectOnWire(e, ps, block, last, rs);
    DataAreaLength(ps, size);
    forall x | 0 <= x < |ps| ensures CellOf(area, size, x, k) == At(ps[x], k) { DataCell(ps, size, x, k); }
    assert Column(area, |ps|, size, k) == col;
    var p := if i < |ps| then ps[i] else ParityRow(area, b, i - |ps|, rs);
    assert Protect(e, ps, block, last, rs)[i] == Stamp(p, e, i, b.dataShards, b.percentage, block, last);
    StampKeeps(p, e, i, b.dataShards, b.percentage, block, last, k, size);
    if i >= |ps| { ParitySymbol(area, b, i - |ps|, rs, code, k); }
  }

  lemma StampKeeps(p: Packet, e: Element, idx: nat, data: nat, pct: nat, block: nat, last: nat, k: nat, size: nat)
    requires Coded(k, size)
    ensures At(Stamp(p, e, idx, data, pct, block, last), k) == At(p, k)
  {
    hide FecInfo, Or, Shl, SeqAt;
    var r := Stamp(p, e, idx, data, pct, block, last);
    if k == 24 { assert r[24..26] == p[24..26]; assert r[24..26][0] == r[24]; } else {
      assert r[32..] == p[32..];
      if k < |p| { assert r[32..][k - 32] == p[32..][k - 32]; }
    }
  }

  lemma ParitySymbol(area: seq<byte>, b: Blocks, j: nat, rs: Encoder, code: Code, k: nat)
    requires |area| == b.dataShards * b.blockSize && j < b.parityShards && k < b.blockSize && Columnwise(rs, code)
    ensures At(ParityRow(area, b, j, rs), k)
         == code.parity(Column(area, b.dataShards, b.blockSize, k), b.parityShards, j)
  {}

  /** Whichever packets of a block arrive, if there are as many as it has data packets, they give back
      the flags and the payload of each of its data packets, the ones that were lost included. */
  lemma BlockRecovered(e: Element, ps: seq<Packet>, block: nat, last: nat, rs: Encoder, code: Code,
      arrived: set<nat>, k: nat)
    requires ps != [] && Sized(ps, e.cfg.BlockSize())
    requires Columnwise(rs, code) && Solves(code, |ps|, ParityOf(e.cfg, |ps|))
    requires Arrived(arrived, Protect(e, ps, block, last, rs), |ps|) && Coded(k, e.cfg.BlockSize())
    ensures code.solve(Known(Protect(e, ps, block, last, rs), arrived, k), |ps|, ParityOf(e.cfg, |ps|))
         == seq(|ps|, i requires 0 <= i < |ps| => At(ps[i], k))
  {
    hide Protect, Columnwise, Sized, Symbol, Coded;
    var out := Protect(e, ps, block, last, rs);
    var col := seq(|ps|, i requires 0 <= i < |ps| => At(ps[i], k));
    var known, par := Known(out, arrived, k), ParityOf(e.cfg, |ps|);
    ProtectOnWire(e, ps, block, last, rs);
    assert known.Keys == arrived;
    forall i | i in known ensures known[i] == Symbol(code, col, par, i) {
      PacketIsSymbol(e, ps, block, last, rs, code, i, k);
    }
  }

  // ---- the whole frame

  /** The payloads of a block's data packets, each solved from what arrived, byte by byte. */
  ghost function Repaired(out: seq<Packet>, arrived: set<nat>, code: Code, data: nat, par: nat, size: nat)
    : seq<seq<byte>>
    requires forall i <- arrived :: i < |out|
  {
    seq(data, i requires 0 <= i < data => RepairedRow(out, arrived, code, data, par, size, i))
  }

  ghost function RepairedRow(out: seq<Packet>, arrived: set<nat>, code: Code, data: nat, par: nat, size: nat, i: nat)
    : (row: seq<byte>)
    requires forall i <- arrived :: i < |out|
  {
    seq(if size < 32 then 0 else size - 32, k requires 0 <= k => RepairedByte(out, arrived, code, data, par, i, k))
  }

  ghost function RepairedByte(out: seq<Packet>, arrived: set<nat>, code: Code, data: nat, par: nat, i: nat, k: nat)
    : byte
    requires forall i <- arrived :: i < |out|
  {
    At(code.solve(Known(out, arrived, 32 + k), data, par), i)
  }

  /** The payload with zeros up to the size of a full one. */
  function Full(p: Packet, size: nat): (row: seq<byte>)
    requires size >= 32
    ensures |row| == size - 32
  {
    seq(size - 32, k requires 0 <= k => At(p, 32 + k))
  }

  lemma BlockRepaired(e: Element, ps: seq<Packet>, block: nat, last: nat, rs: Encoder, code: Code, arrived: set<nat>)
    requires ps != [] && Sized(ps, e.cfg.BlockSize())
    requires Columnwise(rs, code) && Solves(code, |ps|, ParityOf(e.cfg, |ps|))
    requires Arrived(arrived, Protect(e, ps, block, last, rs), |ps|)
    ensures Repaired(Protect(e, ps, block, last, rs), arrived, code, |ps|, ParityOf(e.cfg, |ps|), e.cfg.BlockSize())
         == seq(|ps|, i requires 0 <= i < |ps| => Full(ps[i], e.cfg.BlockSize()))
  {
    hide Protect, Columnwise, Sized, Solves;
    var out, par, size := Protect(e, ps, block, last, rs), ParityOf(e.cfg, |ps|), e.cfg.BlockSize();
    forall i | 0 <= i < |ps|
      ensures RepairedRow(out, arrived, code, |ps|, par, size, i) == Full(ps[i], size)
    {
      forall k | 0 <= k < size - 32
        ensures RepairedByte(out, arrived, code, |ps|, par, i, k) == At(ps[i], 32 + k)
      {
        BlockRecovered(e, ps, block, last, rs, code, arrived, 32 + k);
      }
    }
  }

  /** The element with padding on: its packets are what the receiver gets by repairing. */
  function Padding(e: Element): Element {
    e.(cfg := e.cfg.(addPadding := true))
  }

  lemma FullIsPadded(e: Element, full: seq<byte>, k: nat)
    requires k < PacketCount(e.cfg, full)
    ensures PacketCount(Padding(e).cfg, full) == PacketCount(e.cfg, full)
    ensures Full(RtpPacket(e, full, k), e.cfg.BlockSize()) == Payload(RtpPacket(Padding(e), full, k))
  {
    hide RtpPacket;
    HeaderFields(e, full, k);
    HeaderFields(Padding(e), full, k);
    var p, q, c := RtpPacket(e, full, k), RtpPacket(Padding(e), full, k), e.cfg.Capacity();
    PaddedPayload(e, full, k);
    var a, b := PacketPayload(e.cfg, full, k), PacketPayload(Padding(e).cfg, full, k);
    assert Payload(p) == a && Payload(q) == b;
    forall x | 0 <= x < c ensures At(p, 32 + x) == b[x] {
      if x < |a| { assert p[32..][x] == p[32 + x]; }
    }
  }

  lemma PaddedPayload(e: Element, full: seq<byte>, k: nat)
    requires k < PacketCount(e.cfg, full)
    ensures var (a, b) := (PacketPayload(e.cfg, full, k), PacketPayload(Padding(e).cfg, full, k));
      b == a + Zeros(e.cfg.Capacity() - |a|)
  {
    var c := e.cfg.Capacity();
    PacketBounds(|full|, c, k);
    assert (k + 1) * c == k * c + c;
  }

  lemma RowsRestore(e: Element, isKey: bool, frame: seq<byte>, rows: seq<seq<byte>>)
    requires var ps := RtpPackets(e, FullPayload(e.cfg, isKey, frame));
      rows == seq(|ps|, i requires 0 <= i < |ps| => Full(ps[i], e.cfg.BlockSize()))
    ensures var n := PacketsFor(e.cfg, 8 + |frame|);
      n > 0 && IsPicture(Cut(rows), isKey, frame, 8 + |frame| - (n - 1) * (e.cfg.payloadSize - 16))
  {
    hide RtpPacket, Cut, IsPicture;
    var full := FullPayload(e.cfg, isKey, frame);
    var padded := RtpPackets(Padding(e), full);
    forall k | 0 <= k < |padded| ensures rows[k] == Payload(padded[k]) { FullIsPadded(e, full, k); }
    assert rows == Payloads(padded);
    AllKeptRestores(Padding(e), isKey, frame, padded);
    FullIsPicture(e.cfg, isKey, frame);
    LastLength(e.cfg, |frame|);
  }

  /** A frame in one block: whichever packets arrive, if there are as many as data packets, its picture is restored. */
  lemma LossesRepaired(e: Element, isKey: bool, frame: seq<byte>, rs: Encoder, code: Code, arrived: set<nat>)
    requires var n := PacketsFor(e.cfg, 8 + |frame|);
      && e.cfg.fecPercentage > 0 && n <= 90
      && Columnwise(rs, code) && Solves(code, n, ParityOf(e.cfg, n))
      && Arrived(arrived, SplitIntoRtp(e, isKey, frame, rs).packets, n)
    ensures var (out, n) := (SplitIntoRtp(e, isKey, frame, rs).packets, PacketsFor(e.cfg, 8 + |frame|));
      && n > 0
      && IsPicture(Cut(Repaired(out, arrived, code, n, ParityOf(e.cfg, n), e.cfg.payloadSize + 16)), isKey, frame,
                   8 + |frame| - (n - 1) * (e.cfg.payloadSize - 16))
  {
    hide Protect, RtpPackets, Repaired, Cut, IsPicture, Columnwise, Solves, FullPayload, Sized, Protected;
    var full := FullPayload(e.cfg, isKey, frame);
    var ps := RtpPackets(e, full);
    FreshHeaders(e, isKey, frame);
    SizedPackets(e, full);
    BlockRepaired(e, ps, 0, 0, rs, code, arrived);
    RowsRestore(e, isKey, frame, seq(|ps|, i requires 0 <= i < |ps| => Full(ps[i], e.cfg.BlockSize())));
  }

  // ---- a frame in three blocks

  ghost predicate EachArrived(cfg: Settings, out: seq<Packet>, n: nat, block: nat, arrived: seq<set<nat>>)
    requires n > 90 && block <= 3 && |arrived| == 3
    decreases 3 - block
  {
    block < 3 ==>
      var w := WithParity(cfg, ThirdOf(n, block));
      && w <= |out| && Arrived(arrived[block], out[..w], ThirdOf(n, block))
      && EachArrived(cfg, out[w..], n, block + 1, arrived)
  }

  ghost function RepairedThirds(cfg: Settings, out: seq<Packet>, n: nat, block: nat, arrived: seq<set<nat>>, code: Code)
    : seq<seq<byte>>
    requires n > 90 && block <= 3 && |arrived| == 3 && EachArrived(cfg, out, n, block, arrived)
    decreases 3 - block
  {
    if block == 3 then [] else
    var d := ThirdOf(n, block);
    var w := WithParity(cfg, d);
    Repaired(out[..w], arrived[block], code, d, ParityOf(cfg, d), cfg.payloadSize + 16)
      + RepairedThirds(cfg, out[w..], n, block + 1, arrived, code)
  }

  /** The rows of some packets. */
  function Rows(ps: seq<Packet>, size: nat): seq<seq<byte>>
    requires size >= 32
  {
    seq(|ps|, i requires 0 <= i < |ps| => Full(ps[i], size))
  }

  lemma RowsJoin(a: seq<Packet>, b: seq<Packet>, size: nat)
    requires size >= 32
    ensures Rows(a + b, size) == Rows(a, size) + Rows(b, size)
  {
    hide Full;
  }

  lemma SubListSized(ps: seq<Packet>, size: nat, block: nat)
    requires |ps| > 90 && block < 3 && Sized(ps, size)
    ensures Sized(SubList(ps, block), size)
  {
    var n := PerBlock(|ps|);
    BlockBounds(|ps|, block, n);
    PartSized(ps, size, block * n, Min((block + 1) * n, |ps|));
  }

  lemma {:induction false} MultiRepaired(e: Element, ps: seq<Packet>, block: nat, rs: Encoder, code: Code,
      arrived: seq<set<nat>>)
    requires |ps| > 90 && block <= 3 && |arrived| == 3 && Sized(ps, e.cfg.BlockSize())
    requires Columnwise(rs, code)
    requires forall b: nat | b < 3 :: Solves(code, ThirdOf(|ps|, b), ParityOf(e.cfg, ThirdOf(|ps|, b)))
    requires EachArrived(e.cfg, MultiBlocks(e, ps, block, rs).packets, |ps|, block, arrived)
    ensures RepairedThirds(e.cfg, MultiBlocks(e, ps, block, rs).packets, |ps|, block, arrived, code)
         == Rows(BlocksFrom(ps, block), e.cfg.BlockSize())
    decreases 3 - block
  {
    hide Protect, SubList, Columnwise, Solves, Sized, WithParity, ThirdOf, Repaired, Full, Arrived, ParityOf, Rows;
    if block < 3 {
      var sub, out := SubList(ps, block), MultiBlocks(e, ps, block, rs).packets;
      var first := Protect(e, sub, block, LAST_BLOCK_INDEX, rs);
      var next := Advance(e, |first|);
      ThirdIsSubList(ps, block);
      ProtectOnWire(e, sub, block, LAST_BLOCK_INDEX, rs);
      SubListSized(ps, e.cfg.BlockSize(), block);
      assert out[..|first|] == first && out[|first|..] == MultiBlocks(next, ps, block + 1, rs).packets;
      BlockRows(e, sub, block, LAST_BLOCK_INDEX, rs, code, arrived[block]);
      MultiRepaired(next, ps, block + 1, rs, code, arrived);
      RowsJoin(sub, BlocksFrom(ps, block + 1), e.cfg.BlockSize());
    } else {
      NoRows(e.cfg.BlockSize());
    }
  }

  lemma NoRows(size: nat)
    requires size >= 32
    ensures Rows([], size) == []
  {}

  lemma BlockRows(e: Element, ps: seq<Packet>, block: nat, last: nat, rs: Encoder, code: Code, arrived: set<nat>)
    requires ps != [] && Sized(ps, e.cfg.BlockSize())
    requires Columnwise(rs, code) && Solves(code, |ps|, ParityOf(e.cfg, |ps|))
    requires Arrived(arrived, Protect(e, ps, block, last, rs), |ps|)
    ensures (forall i <- arrived :: i < |Protect(e, ps, block, last, rs)|)
         && Repaired(Protect(e, ps, block, last, rs), arrived, code, |ps|, ParityOf(e.cfg, |ps|),
                     e.cfg.payloadSize + 16)
            == Rows(ps, e.cfg.BlockSize())
  {
    hide Protect, Columnwise, Sized, Solves, Full, Repaired, ParityOf;
    BlockRepaired(e, ps, block, last, rs, code, arrived);
  }

  /** A frame in three blocks: its picture is restored from any packets of each block that are as many as its data
      packets. */
  lemma ThirdsRepaired(e: Element, isKey: bool, frame: seq<byte>, rs: Encoder, code: Code, arrived: seq<set<nat>>)
    requires var n := PacketsFor(e.cfg, 8 + |frame|);
      && e.cfg.fecPercentage > 0 && n > 90 && |arrived| == 3
      && Columnwise(rs, code)
      && (forall b: nat | b < 3 :: Solves(code, ThirdOf(n, b), ParityOf(e.cfg, ThirdOf(n, b))))
      && EachArrived(e.cfg, SplitIntoRtp(e, isKey, frame, rs).packets, n, 0, arrived)
    ensures var (out, n) := (SplitIntoRtp(e, isKey, frame, rs).packets, PacketsFor(e.cfg, 8 + |frame|));
      && IsPicture(Cut(RepairedThirds(e.cfg, out, n, 0, arrived, code)), isKey, frame,
                   8 + |frame| - (n - 1) * (e.cfg.payloadSize - 16))
  {
    hide MultiBlocks, RtpPackets, RepairedThirds, EachArrived, Cut, IsPicture, Columnwise, Solves, FullPayload, Sized;
    hide ThirdOf, ParityOf, BlocksFrom;
    var full := FullPayload(e.cfg, isKey, frame);
    var ps := RtpPackets(e, full);
    FreshHeaders(e, isKey, frame);
    SizedPackets(e, full);
    MultiRepaired(e, ps, 0, rs, code, arrived);
    BlocksCover(ps);
    RowsRestore(e, isKey, frame, Rows(ps, e.cfg.BlockSize()));
  }

  // ---- an encoder that codes columns: it repeats the first row

  /** The first row again and again. */
  function Repeats(area: seq<byte>, data: nat, at: nat): byte {
    if data == 0 || |area| / data == 0 then 0 else
    DivisionBelow(|area|, data);
    area[at % (|area| / data)]
  }

  lemma DivisionBelow(n: nat, d: nat)
    requires d > 0
    ensures n / d <= n
  {
    ProductGrows(1, d, n / d);
    assert n == n / d * d + n % d;
  }

  lemma RepetitionIsColumnwise(code: Code) returns (rs: Encoder)
    requires forall col, p, j :: code.parity(col, p, j) == FirstOf(col)
    ensures Columnwise(rs, code)
  {
    rs := (area, data, p, at) => Repeats(area, data, at);
    forall area: seq<byte>, data: nat, p: nat, size: nat, j: nat, k: nat | |area| == data * size && j < p && k < size
      ensures rs(area, data, p, j * size + k) == code.parity(Column(area, data, size, k), p, j)
    {
      RowRepeats(area, data, size, j, k);
    }
  }

  lemma RowRepeats(area: seq<byte>, data: nat, size: nat, j: nat, k: nat)
    requires |area| == data * size && k < size
    ensures Repeats(area, data, j * size + k) == FirstOf(Column(area, data, size, k))
  {
    if data > 0 {
      DivisionIsUnique(|area|, data, size, 0);
      DivisionIsUnique(j * size + k, size, j, k);
      ProductGrows(1, data, size);
    }
  }
}
