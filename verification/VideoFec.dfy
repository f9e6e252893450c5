/**
 What a receiver can read back from the FEC fields of the packets, and when it
 recovers exactly the counts the sender used.
 */
module VideoFec {
  import opened Bits
  import opened VideoRtp

  /** The three fields of `fecInfo`, for any values put in: they share one 32-bit word and may overlap. */
  lemma {:induction false} FecInfoUnpacks(idx: nat, data: nat, pct: nat)
    ensures Low(Shr(FecInfo(idx, data, pct), 12), 10) == Low(Or(idx, Shr(pct, 8)), 10)
    ensures Low(Shr(FecInfo(idx, data, pct), 22), 10) == Low(Or(Or(Shr(idx, 10), data), Shr(pct, 18)), 10)
    ensures Low(Shr(FecInfo(idx, data, pct), 4), 8) == Low(pct, 8)
  {
    var a, b, c := Shl(idx, 12), Shl(data, 22), Shl(pct, 4);
    var ab := Or(a, b);
    var w := Or(ab, c);
    Pow2Values();
    FieldOf(w, 12, 10);
    FieldOf(w, 22, 10);
    FieldOf(w, 4, 8);
    OrSplits(a, b, 12);
    OrSplits(ab, c, 12);
    ShiftsCancel(idx, 12, 12);
    ShiftsCancel(data, 12, 22);
    ShiftsCancel(pct, 12, 4);
    OrSplits(Or(idx, Shl(data, 10)), Shr(pct, 8), 10);
    OrSplits(idx, Shl(data, 10), 10);
    ShiftsCancel(data, 10, 10);
    OrSplits(idx, Shr(pct, 8), 10);
    OrZero(Low(idx, 10));
    OrSplits(a, b, 22);
    OrSplits(ab, c, 22);
    ShiftsCancel(idx, 22, 12);
    ShiftsCancel(data, 22, 22);
    ShiftsCancel(pct, 22, 4);
    OrSplits(a, b, 4);
    OrSplits(ab, c, 4);
    ShiftsCancel(idx, 4, 12);
    ShiftsCancel(data, 4, 22);
    ShiftsCancel(pct, 4, 4);
    OrSplits(Or(Shl(idx, 8), Shl(data, 18)), pct, 8);
    OrSplits(Shl(idx, 8), Shl(data, 18), 8);
    ShiftsCancel(idx, 8, 8);
    ShiftsCancel(data, 8, 18);
  }

  lemma OrZero(a: nat)
    ensures Or(a, 0) == a && Or(0, a) == a
  {
  }

  /** A field that lies inside the 32 bits is not touched by the truncation to 32 bits. */
  lemma FieldOf(w: nat, at: nat, width: nat)
    requires at + width <= 32
    ensures Low(Shr(Low(w, 32), at), width) == Low(Shr(w, at), width)
  {
    ShrOfLow(w, at, 32);
    LowOfLow(Shr(w, at), width, 32 - at);
  }

  lemma StampFields(p: Packet, e: Element, idx: nat, data: nat, pct: nat, block: nat, last: nat)
    ensures var r := Stamp(p, e, idx, data, pct, block, last);
      && SequenceNumber(r) == (e.curSeq + idx) % TWO_16
      && FecField(r) == FecInfo(idx, data, pct)
      && Flags(r) == Flags(p) && StreamIndex(r) == StreamIndex(p)
      && Payload(r) == Payload(p)
  {
    BE16Inverts(SeqAt(e, idx));
    WrapsTogether(e.curSeq + idx);
    FromLE32Inverts(FecInfo(idx, data, pct));
  }

  lemma BE16Inverts(x: nat)
    ensures FromBE16(BE16(x)) == x % TWO_16
  {
  }

  lemma WrapsTogether(x: nat)
    ensures x % TWO_32 % TWO_16 == x % TWO_16
  {
    var q, r := x / TWO_32, x % TWO_32;
    assert x == (q * TWO_16 + r / TWO_16) * TWO_16 + r % TWO_16;
  }

  lemma HeaderFields(e: Element, full: seq<byte>, k: nat)
    requires k < PacketCount(e.cfg, full)
    ensures var r, n := RtpPacket(e, full, k), PacketCount(e.cfg, full);
      && SequenceNumber(r) == (e.curSeq + k) % TWO_16
      && FecField(r) == FecInfo(k, n, 0)
      && Flags(r) == FlagsOf(k, n) && StreamIndex(r) == LE32(SeqAt(e, k) * 0x100 % TWO_32)
      && Payload(r) == PacketPayload(e.cfg, full, k)
  {
    var n := PacketCount(e.cfg, full);
    BE16Inverts(SeqAt(e, k));
    WrapsTogether(e.curSeq + k);
    FromLE32Inverts(FecInfo(k, n, 0));
  }

  /** True when the percentage was raised to reach the minimum number of parity packets. */
  predicate Raised(cfg: Settings, data: nat) {
    (data * cfg.fecPercentage + 99) / 100 < cfg.minFecPackets
  }

  /** The percentage fits its 8-bit field and, if it was rounded down, still rounds up to the parity count. */
  predicate CountsFit(cfg: Settings, data: nat)
    requires data > 0
  {
    Raised(cfg, data) ==>
      100 * cfg.minFecPackets / data < 0x100 && 100 * cfg.minFecPackets % data < 100
  }

  /** What a receiver that knows only the packet concludes about the block it belongs to. */
  predicate ReadsBack(p: Packet, idx: nat, b: Blocks) {
    && ShardIndex(p) == idx
    && DataShards(p) == b.dataShards
    && Percentage(p) == b.percentage
    && (DataShards(p) * Percentage(p) + 99) / 100 == b.parityShards
  }

  lemma {:induction false} ProtectedFields(e: Element, ps: seq<Packet>, block: nat, last: nat, rs: Encoder, i: nat)
    requires ps != [] && !Skipped(e.cfg, |ps|)
    requires i < |Protect(e, ps, block, last, rs)|
    ensures var b, r := DetermineSplit(e.cfg, |ps|), Protect(e, ps, block, last, rs)[i];
      && |Protect(e, ps, block, last, rs)| == b.dataShards + b.parityShards
      && SequenceNumber(r) == (e.curSeq + i) % TWO_16
      && ShardIndex(r) == Or(i, Shr(b.percentage, 8)) < 0x100
      && DataShards(r) == b.dataShards
      && Percentage(r) == Low(b.percentage, 8)
      && (i < |ps| ==> Flags(r) == Flags(ps[i]) && StreamIndex(r) == StreamIndex(ps[i]) && Payload(r) == Payload(ps[i]))
  {
    hide Or, Shr, Low, Shl, FecInfo, Stamp, ParityRow, DataArea, Pow2;
    var b, r := DetermineSplit(e.cfg, |ps|), Protect(e, ps, block, last, rs)[i];
    PercentageBound(e.cfg, |ps|);
    ProtectedAt(e, ps, block, last, rs, i);
    FecInfoUnpacks(i, b.dataShards, b.percentage);
    FieldsFit(i, b.dataShards, b.percentage);
  }

  /** Packet `i` of a protected block is stamped with its index; data packets keep what they carry. */
  lemma ProtectedAt(e: Element, ps: seq<Packet>, block: nat, last: nat, rs: Encoder, i: nat)
    requires ps != [] && !Skipped(e.cfg, |ps|) && i < |Protect(e, ps, block, last, rs)|
    ensures var b, r := DetermineSplit(e.cfg, |ps|), Protect(e, ps, block, last, rs)[i];
      && |Protect(e, ps, block, last, rs)| == b.dataShards + b.parityShards && b.dataShards == |ps|
      && SequenceNumber(r) == (e.curSeq + i) % TWO_16
      && FecField(r) == FecInfo(i, b.dataShards, b.percentage)
      && (i < |ps| ==> Flags(r) == Flags(ps[i]) && StreamIndex(r) == StreamIndex(ps[i]) && Payload(r) == Payload(ps[i]))
  {
    hide Stamp, SequenceNumber, FecField, FecInfo, Flags, StreamIndex, Payload, ParityRow, DataArea;
    var b := DetermineSplit(e.cfg, |ps|);
    var p := if i < |ps| then ps[i] else ParityRow(DataArea(ps, b.blockSize), b, i - |ps|, rs);
    StampFields(p, e, i, b.dataShards, b.percentage, block, last);
    assert Protect(e, ps, block, last, rs)[i] == Stamp(p, e, i, b.dataShards, b.percentage, block, last);
  }

  /** With fewer than 256 shards and a percentage of at most 25500 the fields do not run into the data count. */
  lemma FieldsFit(i: nat, data: nat, pct: nat)
    requires i < 0x100 && data < 0x100 && pct <= 25500
    ensures Low(Or(i, Shr(pct, 8)), 10) == Or(i, Shr(pct, 8)) < 0x100
    ensures Low(Or(Or(Shr(i, 10), data), Shr(pct, 18)), 10) == data
  {
    hide Or, Shr, Low;
    Pow2Values();
    PercentageBits(pct);
    var h := Shr(pct, 8);
    assert Pow2(8) == 0x100 && Pow2(10) == 0x400;
    hide Pow2;
    OrBelow(i, h, 8);
    LowIsIdentity(Or(i, h), 10);
    ShrBounds(i, 10, 0);
    OrZero(data);
    LowIsIdentity(data, 10);
  }

  lemma PercentageBits(pct: nat)
    requires pct <= 25500
    ensures Shr(pct, 8) < Pow2(8) && Shr(pct, 18) == 0
  {
    hide Shr;
    Pow2Values();
    assert Pow2(15) == 0x8000 by { Pow2Adds(11); Pow2Adds(7); }
    ShrBounds(pct, 8, 8);
    ShrBounds(pct, 18, 0);
    assert Pow2(16) == 2 * Pow2(15);
  }

  lemma PercentageBound(cfg: Settings, data: nat)
    requires data > 0
    ensures DetermineSplit(cfg, data).percentage <= 25500
  {
  }

  /**
   A receiver recovers shard index, data count, percentage and parity count from every packet of a
   protected block exactly when `CountsFit`.
   */
  lemma {:induction false} ReceiverRecoversCounts(e: Element, ps: seq<Packet>, block: nat, last: nat, rs: Encoder)
    requires ps != [] && !Skipped(e.cfg, |ps|)
    ensures var b, out := DetermineSplit(e.cfg, |ps|), Protect(e, ps, block, last, rs);
      (forall i :: 0 <= i < |out| ==> ReadsBack(out[i], i, b)) <==> CountsFit(e.cfg, |ps|)
  {
    hide Or, Shr, Low, Protect, Pow2, Skipped;
    var b, out := DetermineSplit(e.cfg, |ps|), Protect(e, ps, block, last, rs);
    forall i | 0 <= i < |out|
      ensures ReadsBack(out[i], i, b) <==>
        Or(i, Shr(b.percentage, 8)) == i && Low(b.percentage, 8) == b.percentage
        && (b.dataShards * b.percentage + 99) / 100 == b.parityShards
    {
      ProtectedFields(e, ps, block, last, rs, i);
    }
    ProtectNotEmpty(e, ps, block, last, rs);
    ProtectedFields(e, ps, block, last, rs, 0);
    SmallPercentage(b.percentage);
    if b.percentage < 0x100 {
      forall i: nat { OrZero(i); }
      RoundsBack(e.cfg, |ps|);
    } else {
      assert !ReadsBack(out[0], 0, b);
    }
  }

  lemma ProtectNotEmpty(e: Element, ps: seq<Packet>, block: nat, last: nat, rs: Encoder)
    requires ps != [] && !Skipped(e.cfg, |ps|)
    ensures |Protect(e, ps, block, last, rs)| > 0
  {
    hide Stamp;
  }

  lemma SmallPercentage(pct: nat)
    ensures pct < 0x100 ==> Shr(pct, 8) == 0 && Low(pct, 8) == pct
    ensures pct >= 0x100 ==> Low(pct, 8) != pct
  {
    Pow2Values();
    hide Shr, Low, Pow2;
    ShrBounds(pct, 8, 0);
    if pct < 0x100 { LowIsIdentity(pct, 8); }
  }

  lemma {:induction false} RoundsBack(cfg: Settings, data: nat)
    requires data > 0
    ensures var b := DetermineSplit(cfg, data);
      (data * b.percentage + 99) / 100 == b.parityShards <==>
        (Raised(cfg, data) ==> 100 * cfg.minFecPackets % data < 100)
  {
    if Raised(cfg, data) {
      var t := 100 * cfg.minFecPackets;
      assert t == data * (t / data) + t % data;
    }
  }

  /** Every block of at most 100 data packets qualifies when at most 2 parity packets are required. */
  lemma DefaultCountsFit(cfg: Settings, data: nat)
    requires 0 < data <= 100 && cfg.minFecPackets <= 2
    ensures CountsFit(cfg, data)
  {
    assert 100 * cfg.minFecPackets / data <= 200;
  }
}
