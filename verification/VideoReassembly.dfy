/**
 The receiver's view of a frame: keep the packets whose shard index is below
 their data-shard count, join their payloads, and cut the last payload to the
 length announced in the short header.
 */
module VideoReassembly {
  import opened Bits
  import opened VideoRtp
  import opened VideoFec

  predicate IsData(p: Packet) {
    ShardIndex(p) < DataShards(p)
  }

  function Kept(ps: seq<Packet>): (r: seq<Packet>)
    ensures |r| <= |ps|
  {
    if ps == [] then []
    else (if IsData(ps[0]) then [ps[0]] else []) + Kept(ps[1..])
  }

  function Payloads(ps: seq<Packet>): (r: seq<seq<byte>>)
    ensures |r| == |ps|
  {
    seq(|ps|, i requires 0 <= i < |ps| => Payload(ps[i]))
  }

  /** Payloads joined, the last one cut to the length the short header announces. */
  function Cut(parts: seq<seq<byte>>): seq<byte> {
    var joined := Flatten(parts);
    if |joined| < SHORT_HEADER_SIZE then joined
    else
      var len := FromLE16(joined[4..6]);
      var last := |parts[|parts| - 1]|;
      if len <= last <= |joined| then joined[..|joined| - last + len] else joined
  }

  function Joined(ps: seq<Packet>): seq<byte> {
    Cut(Payloads(ps))
  }

  function Reassemble(ps: seq<Packet>): seq<byte> {
    Joined(Kept(ps))
  }

  // ---- filtering

  lemma {:induction false} KeptConcat(a: seq<Packet>, b: seq<Packet>)
    ensures Kept(a + b) == Kept(a) + Kept(b)
  {
    hide IsData;
    if a == [] {
      assert a + b == b;
    } else {
      assert (a + b)[1..] == a[1..] + b;
      KeptConcat(a[1..], b);
    }
  }

  lemma {:induction false} KeptAll(a: seq<Packet>)
    requires forall i :: 0 <= i < |a| ==> IsData(a[i])
    ensures Kept(a) == a
  {
    hide IsData;
    if a != [] {
      KeptAll(a[1..]);
    }
  }

  lemma {:induction false} KeptNone(a: seq<Packet>)
    requires forall i :: 0 <= i < |a| ==> !IsData(a[i])
    ensures Kept(a) == []
  {
    hide IsData;
    if a != [] {
      KeptNone(a[1..]);
    }
  }

  lemma {:induction false} KeptSome(a: seq<Packet>, i: nat)
    requires i < |a| && !IsData(a[i])
    ensures |Kept(a)| < |a|
  {
    hide IsData;
    if i > 0 {
      KeptSome(a[1..], i - 1);
    }
  }

  /** `b` carries the payloads, flags and stream indices of `a`, packet by packet. */
  predicate SameContent(a: seq<Packet>, b: seq<Packet>) {
    |a| == |b| && forall i :: 0 <= i < |a| ==> SamePacket(a[i], b[i])
  }

  predicate SamePacket(p: Packet, q: Packet) {
    Payload(p) == Payload(q) && Flags(p) == Flags(q) && StreamIndex(p) == StreamIndex(q)
  }

  // ---- one protected block

  /** The high bits of the percentage share bits with the shard index: the block must be a multiple of
      what they span. */
  predicate IndicesSurvive(cfg: Settings, data: nat)
    requires data > 0
  {
    !Skipped(cfg, data) ==> data % Pow2(BitLength(Shr(DetermineSplit(cfg, data).percentage, 8))) == 0
  }

  /** What that means to a receiver: every data index is read back as one below the count. */
  lemma IndicesReadBelow(cfg: Settings, data: nat)
    requires data > 0 && !Skipped(cfg, data)
    ensures IndicesSurvive(cfg, data) <==>
              StaysBelow(data, Shr(DetermineSplit(cfg, data).percentage, 8))
  {
    hide Pow2, BitLength, StaysBelow, Shr;
    OrStaysBelow(data, Shr(DetermineSplit(cfg, data).percentage, 8));
  }

  lemma {:induction false} SmallPercentageSurvives(cfg: Settings, data: nat)
    requires data > 0 && (Raised(cfg, data) ==> 100 * cfg.minFecPackets / data < 0x100)
    ensures IndicesSurvive(cfg, data)
  {
    var pct := DetermineSplit(cfg, data).percentage;
    Pow2Values();
    ShrBounds(pct, 8, 0);
    assert BitLength(0) == 0 && Pow2(0) == 1;
  }

  /** A parity packet never passes for a data packet. */
  lemma {:induction false} ParityIsNotData(e: Element, ps: seq<Packet>, block: nat, last: nat, rs: Encoder, i: nat)
    requires ps != [] && !Skipped(e.cfg, |ps|)
    requires |ps| <= i < |Protect(e, ps, block, last, rs)|
    ensures !IsData(Protect(e, ps, block, last, rs)[i])
  {
    ProtectedFields(e, ps, block, last, rs, i);
    OrAtLeast(i, Shr(DetermineSplit(e.cfg, |ps|).percentage, 8));
  }

  lemma {:induction false} ParityDropped(e: Element, ps: seq<Packet>, block: nat, last: nat, rs: Encoder)
    requires ps != [] && !Skipped(e.cfg, |ps|)
    ensures Kept(Protect(e, ps, block, last, rs)) ==
            Kept(StampedData(ps, e, DetermineSplit(e.cfg, |ps|), block, last))
  {
    hide IsData, Stamp, ParityRow;
    var b, out := DetermineSplit(e.cfg, |ps|), Protect(e, ps, block, last, rs);
    var d := StampedData(ps, e, b, block, last);
    var q := StampedParity(DataArea(ps, b.blockSize), e, b, block, last, rs);
    forall j | 0 <= j < |q| ensures !IsData(q[j]) {
      assert q[j] == out[|ps| + j];
      ParityIsNotData(e, ps, block, last, rs, |ps| + j);
    }
    KeptConcat(d, q);
    KeptNone(q);
  }

  /** How a receiver takes data packet `i` of a protected block. */
  lemma DataReadAs(e: Element, ps: seq<Packet>, block: nat, last: nat, rs: Encoder, i: nat)
    requires ps != [] && !Skipped(e.cfg, |ps|) && i < |ps|
    ensures var b := DetermineSplit(e.cfg, |ps|);
      var d := StampedData(ps, e, b, block, last);
      && (IsData(d[i]) <==> Or(i, Shr(b.percentage, 8)) < |ps|)
      && SamePacket(d[i], ps[i])
  {
    hide Or, Shr, Stamp, ParityRow, DataArea;
    var b, out := DetermineSplit(e.cfg, |ps|), Protect(e, ps, block, last, rs);
    assert StampedData(ps, e, b, block, last)[i] == out[i];
    ProtectedFields(e, ps, block, last, rs, i);
  }

  lemma {:induction false} DataKept(e: Element, ps: seq<Packet>, block: nat, last: nat, rs: Encoder)
    requires ps != [] && !Skipped(e.cfg, |ps|)
    ensures var d := StampedData(ps, e, DetermineSplit(e.cfg, |ps|), block, last);
      && SameContent(d, ps)
      && if IndicesSurvive(e.cfg, |ps|) then Kept(d) == d else |Kept(d)| < |d|
  {
    hide IndicesSurvive, Or, Shr, StampedData, DetermineSplit, Kept, IsData, SamePacket, Skipped;
    var b := DetermineSplit(e.cfg, |ps|);
    var d := StampedData(ps, e, b, block, last);
    var h := Shr(b.percentage, 8);
    forall i | 0 <= i < |ps|
      ensures IsData(d[i]) <==> Or(i, h) < |ps|
      ensures SamePacket(d[i], ps[i])
    {
      DataReadAs(e, ps, block, last, rs, i);
    }
    IndicesReadBelow(e.cfg, |ps|);
    if IndicesSurvive(e.cfg, |ps|) {
      KeptAll(d);
    } else {
      var i: nat :| i < |ps| && Or(i, h) >= |ps|;
      KeptSome(d, i);
    }
  }

  /** No payload is longer than `c`. */
  predicate Bounded(ps: seq<Packet>, c: nat) {
    forall p :: p in ps ==> |Payload(p)| <= c
  }

  /** `k` is what is kept of `ps`: all of it, or fewer packets, none of them longer than `c`. */
  predicate KeptOf(k: seq<Packet>, ps: seq<Packet>, all: bool, c: nat) {
    && (if all then SameContent(k, ps) else |k| < |ps|)
    && Bounded(k, c)
  }

  lemma {:induction false} KeptFrom(a: seq<Packet>)
    ensures forall q :: q in Kept(a) ==> q in a
  {
    hide IsData;
    if a != [] {
      KeptFrom(a[1..]);
    }
  }

  lemma SkippedStays(e: Element, ps: seq<Packet>, block: nat, last: nat, rs: Encoder)
    requires ps != [] && Skipped(e.cfg, |ps|)
    ensures Protect(e, ps, block, last, rs) == ps && IndicesSurvive(e.cfg, |ps|)
  {}

  /** One block, skipped or protected, when its packets were data packets before. */
  lemma {:induction false} ProtectKept(e: Element, ps: seq<Packet>, block: nat, last: nat, rs: Encoder, c: nat)
    requires ps != [] && Bounded(ps, c)
    requires Skipped(e.cfg, |ps|) ==> forall p :: p in ps ==> IsData(p)
    ensures KeptOf(Kept(Protect(e, ps, block, last, rs)), ps, IndicesSurvive(e.cfg, |ps|), c)
  {
    hide Protect, StampedData, Kept, IndicesSurvive, IsData, DetermineSplit;
    if Skipped(e.cfg, |ps|) {
      SkippedStays(e, ps, block, last, rs);
      KeptAll(ps);
    } else {
      var d := StampedData(ps, e, DetermineSplit(e.cfg, |ps|), block, last);
      ParityDropped(e, ps, block, last, rs);
      DataKept(e, ps, block, last, rs);
      KeptFrom(d);
      assert forall i :: 0 <= i < |ps| ==> ps[i] in ps;
    }
  }

  lemma KeptOfConcat(k: seq<Packet>, ps: seq<Packet>, all: bool, l: seq<Packet>, qs: seq<Packet>, more: bool, c: nat)
    requires KeptOf(k, ps, all, c) && KeptOf(l, qs, more, c)
    ensures KeptOf(k + l, ps + qs, all && more, c)
  {
  }

  predicate AllSurvive(cfg: Settings, n: nat, block: nat)
    requires n > SINGLE_BLOCK_MAX && block <= NR_BLOCKS
    decreases NR_BLOCKS - block
  {
    block < NR_BLOCKS ==>
      && IndicesSurvive(cfg, BlockLength(n, block))
      && AllSurvive(cfg, n, block + 1)
  }

  function BlockLength(n: nat, block: nat): (len: nat)
    requires n > SINGLE_BLOCK_MAX && block < NR_BLOCKS
    ensures len > 0
  {
    Min((block + 1) * PerBlock(n), n) - block * PerBlock(n)
  }

  /** The macro blocks from `block` on, one after the other. */
  function BlocksFrom(ps: seq<Packet>, block: nat): seq<Packet>
    requires |ps| > SINGLE_BLOCK_MAX && block <= NR_BLOCKS
    decreases NR_BLOCKS - block
  {
    if block == NR_BLOCKS then [] else SubList(ps, block) + BlocksFrom(ps, block + 1)
  }

  /** The three macro blocks are not empty and cover the frame, in order. */
  lemma {:induction false} BlocksCover(ps: seq<Packet>)
    requires |ps| > SINGLE_BLOCK_MAX
    ensures BlocksFrom(ps, 0) == ps
    ensures forall b :: 0 <= b < NR_BLOCKS ==> SubList(ps, b) != []
  {
    var n := PerBlock(|ps|);
    assert SubList(ps, 0) == ps[..n] && SubList(ps, 1) == ps[n..2 * n] && SubList(ps, 2) == ps[2 * n..];
    assert BlocksFrom(ps, 2) == ps[2 * n..];
    assert BlocksFrom(ps, 1) == ps[n..2 * n] + ps[2 * n..];
    ThreeParts(ps, n);
  }

  lemma ThreeParts(ps: seq<Packet>, n: nat)
    requires 2 * n <= |ps|
    ensures ps[..n] + (ps[n..2 * n] + ps[2 * n..]) == ps
  {
  }

  lemma NothingKept()
    ensures Kept([]) == []
  {}

  lemma SubListPart(ps: seq<Packet>, block: nat)
    requires |ps| > SINGLE_BLOCK_MAX && block < NR_BLOCKS
    ensures |SubList(ps, block)| == BlockLength(|ps|, block)
    ensures forall p :: p in SubList(ps, block) ==> p in ps
  {}

  lemma {:induction false} MultiKept(e: Element, ps: seq<Packet>, block: nat, rs: Encoder, c: nat)
    requires |ps| > SINGLE_BLOCK_MAX && block <= NR_BLOCKS && Bounded(ps, c)
    requires forall p :: p in ps ==> IsData(p)
    ensures KeptOf(Kept(MultiBlocks(e, ps, block, rs).packets), BlocksFrom(ps, block),
                   AllSurvive(e.cfg, |ps|, block), c)
    decreases NR_BLOCKS - block
  {
    hide Protect, IndicesSurvive, Kept, SubList, BlockLength, IsData;
    if block == NR_BLOCKS {
      NothingKept();
    } else {
      var sub := SubList(ps, block);
      SubListPart(ps, block);
      var first := Protect(e, sub, block, LAST_BLOCK_INDEX, rs);
      var next := Advance(e, |first|);
      ProtectKept(e, sub, block, LAST_BLOCK_INDEX, rs, c);
      MultiKept(next, ps, block + 1, rs, c);
      var rest := MultiBlocks(next, ps, block + 1, rs).packets;
      KeptConcat(first, rest);
      KeptOfConcat(Kept(first), sub, IndicesSurvive(e.cfg, |sub|), Kept(rest), BlocksFrom(ps, block + 1),
                   AllSurvive(e.cfg, |ps|, block + 1), c);
    }
  }

  // ---- the whole frame

  /** Freshly made packets are data packets as long as their count fits its 10-bit field. */
  lemma {:induction false} FreshAreData(e: Element, full: seq<byte>, k: nat)
    requires k < PacketCount(e.cfg, full)
    ensures PacketCount(e.cfg, full) < 0x400 ==> IsData(RtpPacket(e, full, k))
    ensures PacketCount(e.cfg, full) >= 0x400 && k == 0x3ff ==> !IsData(RtpPacket(e, full, k))
  {
    var n := PacketCount(e.cfg, full);
    HeaderFields(e, full, k);
    FecInfoUnpacks(k, n, 0);
    Pow2Values();
    assert Shr(0, 8) == 0 && Shr(0, 18) == 0 by {
      ShrBounds(0, 8, 0);
      ShrBounds(0, 18, 0);
    }
    OrZero(k);
    ShrBounds(k, 10, 0);
    OrZero(n);
    if k < 0x400 {
      LowIsIdentity(k, 10);
      if n < 0x400 {
        LowIsIdentity(n, 10);
      }
    }
  }

  lemma LargeIsSkipped(e: Element, ps: seq<Packet>, block: nat, last: nat, rs: Encoder)
    requires |ps| > DATA_SHARDS_MAX
    ensures Protect(e, ps, block, last, rs) == ps
  {
  }

  /** A frame of 1024 packets or more is never protected. */
  lemma {:induction false} MultiSkipped(e: Element, ps: seq<Packet>, block: nat, rs: Encoder)
    requires |ps| >= 0x400 && block <= NR_BLOCKS
    ensures MultiBlocks(e, ps, block, rs).packets == BlocksFrom(ps, block)
    decreases NR_BLOCKS - block
  {
    hide Protect;
    if block < NR_BLOCKS {
      var sub := SubList(ps, block);
      LargeIsSkipped(e, sub, block, LAST_BLOCK_INDEX, rs);
      MultiSkipped(Advance(e, |sub|), ps, block + 1, rs);
    }
  }

  /** When every data packet of a frame of `n` packets passes for one at the receiver. */
  predicate Recoverable(cfg: Settings, n: nat)
    requires n > 0
  {
    && n < 0x400
    && (cfg.fecPercentage > 0 ==>
          if n > SINGLE_BLOCK_MAX then AllSurvive(cfg, n, 0) else IndicesSurvive(cfg, n))
  }

  lemma {:induction false} FrameKept(e: Element, full: seq<byte>, rs: Encoder)
    requires |full| > 0
    ensures |RtpPackets(e, full)| > 0
    ensures var ps := RtpPackets(e, full);
      KeptOf(Kept(WithFec(e, ps, rs).packets), ps, Recoverable(e.cfg, |ps|), e.cfg.Capacity())
  {
    hide Protect, IndicesSurvive, PacketCount, MultiBlocks, RtpPackets, Kept, BlocksFrom;
    var ps, c := RtpPackets(e, full), e.cfg.Capacity();
    FreshKept(e, full);
    if |ps| >= 0x400 {
      MultiSkipped(e, ps, 0, rs);
      BlocksCover(ps);
    } else if e.cfg.fecPercentage > 0 {
      if |ps| > SINGLE_BLOCK_MAX {
        MultiKept(e, ps, 0, rs, c);
        BlocksCover(ps);
      } else {
        ProtectKept(e, ps, 0, 0, rs, c);
      }
    }
  }

  /** Before they are protected, the packets of a frame are data packets to a receiver,
      unless their count overflows its field. */
  lemma FreshKept(e: Element, full: seq<byte>)
    requires |full| > 0
    ensures var ps, c := RtpPackets(e, full), e.cfg.Capacity();
      |ps| > 0 && Bounded(ps, c)
      && (|ps| < 0x400 ==> forall p :: p in ps ==> IsData(p))
      && KeptOf(Kept(ps), ps, |ps| < 0x400, c)
  {
    hide PacketCount, IsData, Payload;
    var ps, c := RtpPackets(e, full), e.cfg.Capacity();
    PacketBoundsPositive(e.cfg, full);
    forall k | 0 <= k < |ps|
      ensures |Payload(ps[k])| <= c
      ensures |ps| < 0x400 ==> IsData(ps[k])
    {
      HeaderFields(e, full, k);
      FreshAreData(e, full, k);
    }
    if |ps| < 0x400 {
      KeptAll(ps);
    } else {
      FreshAreData(e, full, 0x3ff);
      KeptSome(ps, 0x3ff);
      KeptFrom(ps);
    }
  }

  // ---- joining the payloads

  lemma {:induction false} FlattenLength(ps: seq<Packet>, c: nat)
    requires Bounded(ps, c)
    ensures |Flatten(Payloads(ps))| <= |ps| * c
  {
    if ps != [] {
      assert ps[0] in ps;
      assert Payloads(ps)[1..] == Payloads(ps[1..]);
      FlattenLength(ps[1..], c);
      assert |ps| * c == c + (|ps| - 1) * c;
    }
  }

  function FirstPayloads(cfg: Settings, full: seq<byte>, k: nat): seq<seq<byte>>
    requires k <= PacketCount(cfg, full)
  {
    seq(k, i requires 0 <= i < k => PacketPayload(cfg, full, i))
  }

  /** The packets before the last carry the frame up to where the last one starts. */
  lemma {:induction false} JoinedPrefix(cfg: Settings, full: seq<byte>, k: nat)
    requires k < PacketCount(cfg, full)
    ensures k * cfg.Capacity() < |full|
    ensures Flatten(FirstPayloads(cfg, full, k)) == full[..k * cfg.Capacity()]
  {
    var c := cfg.Capacity();
    PacketBounds(|full|, c, k);
    if k > 0 {
      JoinedPrefix(cfg, full, k - 1);
      PacketBounds(|full|, c, k - 1);
      assert (k - 1 + 1) * c == (k - 1) * c + c;
      var s := PacketPayload(cfg, full, k - 1);
      assert s == full[(k - 1) * c..k * c];
      assert FirstPayloads(cfg, full, k) == FirstPayloads(cfg, full, k - 1) + [s];
      FlattenSnoc(FirstPayloads(cfg, full, k - 1), s);
    }
  }

  lemma {:induction false} LastLength(cfg: Settings, n: nat)
    ensures var full, c := n + SHORT_HEADER_SIZE, cfg.Capacity();
      var t := CeilDiv(full, c);
      t > 0 && LastPayloadLen(cfg, n) == full - (t - 1) * c
  {
    var full, c := n + SHORT_HEADER_SIZE, cfg.Capacity();
    var t := CeilDiv(full, c);
    assert t >= 1;
    PacketBounds(full, c, t - 1);
    var len := full - (t - 1) * c;
    assert t * c == (t - 1) * c + c;
    if len == c {
      DivisionIsUnique(full, c, t, 0);
    } else {
      DivisionIsUnique(full, c, t - 1, len);
    }
  }

  /** Where the payload of the last packet starts. */
  function LastStart(cfg: Settings, full: seq<byte>): (start: nat)
    requires |full| > 0
    ensures start <= |full|
  {
    PacketBoundsPositive(cfg, full);
    PacketBounds(|full|, cfg.Capacity(), PacketCount(cfg, full) - 1);
    (PacketCount(cfg, full) - 1) * cfg.Capacity()
  }

  lemma {:induction false} LastPayload(cfg: Settings, isKey: bool, frame: seq<byte>)
    ensures var full, len := FullPayload(cfg, isKey, frame), LastPayloadLen(cfg, |frame|);
      && PacketCount(cfg, full) > 0
      && LastStart(cfg, full) + len == |full|
      && var last := PacketPayload(cfg, full, PacketCount(cfg, full) - 1);
      && len <= |last|
      && last == full[LastStart(cfg, full)..] + Zeros(|last| - len)
  {
    hide LastPayloadLen;
    var full := FullPayload(cfg, isKey, frame);
    LastLength(cfg, |frame|);
    PacketBounds(|full|, cfg.Capacity(), PacketCount(cfg, full) - 1);
  }

  lemma {:induction false} FreshPayloads(e: Element, full: seq<byte>)
    ensures Payloads(RtpPackets(e, full)) == FirstPayloads(e.cfg, full, PacketCount(e.cfg, full))
  {
    forall i | 0 <= i < PacketCount(e.cfg, full) {
      HeaderFields(e, full, i);
    }
  }

  /** All payloads joined: the short header and the frame, then the padding of the last packet. */
  lemma {:induction false} JoinedFrame(e: Element, isKey: bool, frame: seq<byte>)
    ensures var full := FullPayload(e.cfg, isKey, frame);
      var parts, len := Payloads(RtpPackets(e, full)), LastPayloadLen(e.cfg, |frame|);
      && parts != []
      && len <= |full|
      && len <= |parts[|parts| - 1]|
      && Flatten(parts) == full + Zeros(|parts[|parts| - 1]| - len)
  {
    hide FullPayload, PacketPayload, PacketCount, LastPayloadLen, RtpPackets;
    hide Config.Capacity;
    var full := FullPayload(e.cfg, isKey, frame);
    LastPayload(e.cfg, isKey, frame);
    var k := PacketCount(e.cfg, full) - 1;
    JoinedPrefix(e.cfg, full, k);
    FreshPayloads(e, full);
    var last, firsts := PacketPayload(e.cfg, full, k), FirstPayloads(e.cfg, full, k);
    assert FirstPayloads(e.cfg, full, k + 1) == firsts + [last];
    FlattenSnoc(firsts, last);
    var start := LastStart(e.cfg, full);
    assert full[..start] + full[start..] == full;
  }

  /**
   What the receiver reassembles is the short header followed by the frame, exactly when the headers
   of the frame's data packets leave all of them recognisable.
   */
  lemma {:induction false} ReassemblyExact(e: Element, isKey: bool, frame: seq<byte>, rs: Encoder)
    ensures var full := FullPayload(e.cfg, isKey, frame);
      && PacketCount(e.cfg, full) > 0
      && (Reassemble(SplitIntoRtp(e, isKey, frame, rs).packets) == full <==>
            Recoverable(e.cfg, PacketCount(e.cfg, full)))
  {
    var full := FullPayload(e.cfg, isKey, frame);
    var ps := RtpPackets(e, full);
    FrameKept(e, full, rs);
    if Recoverable(e.cfg, |ps|) {
      AllKeptRestores(e, isKey, frame, Kept(WithFec(e, ps, rs).packets));
    } else {
      SomeLostFails(e, full, Kept(WithFec(e, ps, rs).packets));
    }
  }

  lemma {:induction false} AllKeptRestores(e: Element, isKey: bool, frame: seq<byte>, kept: seq<Packet>)
    requires SameContent(kept, RtpPackets(e, FullPayload(e.cfg, isKey, frame)))
    ensures Joined(kept) == FullPayload(e.cfg, isKey, frame)
  {
    hide RtpPackets;
    var full, len := FullPayload(e.cfg, isKey, frame), LastPayloadLen(e.cfg, |frame|);
    JoinedFrame(e, isKey, frame);
    var ps := RtpPackets(e, full);
    assert Payloads(kept) == Payloads(ps);
    assert full[4..6] == LE16(len);
    CutsPadding(kept, full, len);
  }

  lemma LengthRead(len: nat)
    requires len < TWO_16
    ensures FromLE16(LE16(len)) == len
  {}

  lemma CutsPadding(ps: seq<Packet>, full: seq<byte>, len: nat)
    requires ps != [] && |full| >= SHORT_HEADER_SIZE && len <= |full| && len < TWO_16
    requires full[4..6] == LE16(len)
    requires var last := |Payload(ps[|ps| - 1])|; len <= last && Flatten(Payloads(ps)) == full + Zeros(last - len)
    ensures Joined(ps) == full
  {
    hide Flatten, FromLE16, LE16;
    var joined := Flatten(Payloads(ps));
    LengthRead(len);
    var pad := Zeros(|joined| - |full|);
    assert joined == full + pad;
    assert (full + pad)[4..6] == full[4..6];
    assert (full + pad)[..|full|] == full;
  }

  lemma {:induction false} SomeLostFails(e: Element, full: seq<byte>, kept: seq<Packet>)
    requires |full| > 0
    requires |kept| < |RtpPackets(e, full)| && Bounded(kept, e.cfg.Capacity())
    ensures |Joined(kept)| < |full|
  {
    var n, c := |RtpPackets(e, full)|, e.cfg.Capacity();
    FlattenLength(kept, c);
    ProductGrows(|kept|, n - 1, c);
    PacketBounds(|full|, c, n - 1);
  }

  /** With the registered default of 2 required parity packets (or fewer),
      every frame below 1024 packets is recoverable. */
  lemma {:induction false} DefaultRecoverable(cfg: Settings, n: nat)
    requires 0 < n < 0x400 && cfg.minFecPackets <= 2
    ensures Recoverable(cfg, n)
  {
    forall d: nat | d > 0 ensures IndicesSurvive(cfg, d) {
      assert 100 * cfg.minFecPackets / d <= 200;
      SmallPercentageSurvives(cfg, d);
    }
    if n > SINGLE_BLOCK_MAX {
      assert AllSurvive(cfg, n, 2);
      assert AllSurvive(cfg, n, 1);
    }
  }

  /** 200 required parity packets and 33 data packets: the index is read with a bit of the percentage in it. */
  lemma HighMinimumLosesPackets()
    ensures !Recoverable(Config(1392, true, 20, 200), 33)
  {
    var cfg: Settings := Config(1392, true, 20, 200);
    assert DetermineSplit(cfg, 33).percentage == 606;
    assert Shr(606, 8) == 2;
    assert BitLength(2) == 2 && Pow2(2) == 4;
  }
}
