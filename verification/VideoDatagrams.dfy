/** The payloader's packets on the paced sink: they are longer than the packet size that the pace is computed from. */
module VideoDatagrams {
  import opened Bits
  import opened VideoRtp
  import opened Sender
  import opened SenderPacing
  import opened VideoPay

  ghost predicate Sizes(ps: seq<Packet>, least: nat, most: nat) {
    forall i :: 0 <= i < |ps| ==> least <= |ps[i]| <= most
  }

  /** The shortest packet: a whole block with padding, and otherwise its headers. */
  function Least(cfg: Settings): nat {
    if cfg.addPadding then cfg.BlockSize() else HEADERS_SIZE
  }

  lemma {:induction false} FreshSizes(e: Element, full: seq<byte>)
    ensures Sizes(RtpPackets(e, full), Least(e.cfg), e.cfg.BlockSize())
  {
    var n, c := PacketCount(e.cfg, full), e.cfg.Capacity();
    forall k | 0 <= k < n
      ensures |PacketPayload(e.cfg, full, k)| <= c && (e.cfg.addPadding ==> |PacketPayload(e.cfg, full, k)| == c)
    {
      PacketBounds(|full|, c, k);
      assert (k + 1) * c == k * c + c;
    }
  }

  lemma ProtectSizes(e: Element, ps: seq<Packet>, block: nat, last: nat, rs: Encoder)
    requires ps != [] && Sizes(ps, Least(e.cfg), e.cfg.BlockSize())
    ensures Sizes(Protect(e, ps, block, last, rs), Least(e.cfg), e.cfg.BlockSize())
  {
    hide Stamp, ParityRow, DataArea, Skipped, Least;
    var b, out := DetermineSplit(e.cfg, |ps|), Protect(e, ps, block, last, rs);
    LeastFits(e.cfg);
    if !Skipped(e.cfg, |ps|) {
      forall i | 0 <= i < |out| ensures Least(e.cfg) <= |out[i]| <= e.cfg.BlockSize() {
        var p := if i < |ps| then ps[i] else ParityRow(DataArea(ps, b.blockSize), b, i - |ps|, rs);
        assert out[i] == Stamp(p, e, i, b.dataShards, b.percentage, block, last);
      }
    }
  }

  lemma LeastFits(cfg: Settings)
    ensures Least(cfg) <= cfg.BlockSize()
  {}

  lemma {:induction false} MultiSizes(e: Element, ps: seq<Packet>, block: nat, rs: Encoder)
    requires |ps| > SINGLE_BLOCK_MAX && block <= NR_BLOCKS && Sizes(ps, Least(e.cfg), e.cfg.BlockSize())
    ensures Sizes(MultiBlocks(e, ps, block, rs).packets, Least(e.cfg), e.cfg.BlockSize())
    decreases NR_BLOCKS - block
  {
    hide Protect;
    if block < NR_BLOCKS {
      var sub := SubList(ps, block);
      ProtectSizes(e, sub, block, LAST_BLOCK_INDEX, rs);
      MultiSizes(Advance(e, |Protect(e, sub, block, LAST_BLOCK_INDEX, rs)|), ps, block + 1, rs);
    }
  }

  /** No packet of a frame is longer than payload size and 16 bytes; with padding every one is exactly as long. */
  lemma FrameSizes(e: Element, isKey: bool, frame: seq<byte>, rs: Encoder)
    ensures Sizes(SplitIntoRtp(e, isKey, frame, rs).packets, Least(e.cfg), e.cfg.payloadSize + 16)
  {
    hide Protect, MultiBlocks, RtpPackets;
    var full := FullPayload(e.cfg, isKey, frame);
    PacketBoundsPositive(e.cfg, full);
    var ps := RtpPackets(e, full);
    FreshSizes(e, full);
    if e.cfg.fecPercentage > 0 {
      if |ps| > SINGLE_BLOCK_MAX { MultiSizes(e, ps, 0, rs); } else { ProtectSizes(e, ps, 0, 0, rs); }
    }
  }

  /** So the paced video keeps to the rate exactly when a window of packets with their 16 bytes more does. */
  lemma VideoRate(cfg: Settings)
    ensures WithinRate(MaxPacketsPerMs(cfg.payloadSize), cfg.payloadSize + 16) <==>
              MaxPacketsPerMs(cfg.payloadSize) * ((cfg.payloadSize + 16) * 8) <= LINK_RATE
  {
    hide WithinRate, MaxPacketsPerMs;
    RateExactly(MaxPacketsPerMs(cfg.payloadSize), cfg.payloadSize + 16);
  }

  /** What a padded frame of at least a window's packets has released when it starts: the bound is reached. */
  lemma PaddedBurst(e: Element, isKey: bool, frame: seq<byte>, rs: Encoder)
    requires e.cfg.addPadding
    requires |SplitIntoRtp(e, isKey, frame, rs).packets| >= MaxPacketsPerMs(e.cfg.payloadSize)
    ensures var (ps, max) := (SplitIntoRtp(e, isKey, frame, rs).packets, MaxPacketsPerMs(e.cfg.payloadSize));
            var log := seq(max, i requires 0 <= i < max => Datagram(ps[i], "", 0));
            Paced(Stamps(0, max), 0, max)
            && ReleasedBits(log, Stamps(0, max), 0) == max * ((e.cfg.payloadSize + 16) * 8)
  {
    hide ReleasedBits, SplitIntoRtp, MaxPacketsPerMs;
    var ps, max := SplitIntoRtp(e, isKey, frame, rs).packets, MaxPacketsPerMs(e.cfg.payloadSize);
    FrameSizes(e, isKey, frame, rs);
    Burst(seq(max, i requires 0 <= i < max => Datagram(ps[i], "", 0)), e.cfg.payloadSize + 16);
    BurstPaced(max);
  }

  /** With packets of 1024 bytes it does not: 97 datagrams of 1040 bytes are released in one window. */
  lemma VideoExceedsRate()
    ensures MaxPacketsPerMs(1024) == 97 && !WithinRate(97, 1040)
  {
    hide WithinRate;
    RateExactly(97, 1040);
  }

  /** With the default of 1392 bytes it does. */
  lemma DefaultWithinRate()
    ensures WithinRate(MaxPacketsPerMs(1392), 1392 + 16)
  {
    hide WithinRate;
    RateExactly(MaxPacketsPerMs(1392), 1408);
  }

  /** A batch is no larger than a window, so a frame that goes out at once stays within its first window. */
  lemma BatchWithinWindow(packetSize: nat)
    requires 0 < packetSize <= 65536
    ensures MaxBatchSize(packetSize) <= MaxPacketsPerMs(packetSize)
  {
    var (b, m) := (65536 / packetSize, LINK_RATE / (packetSize * 8));
    Quotient(65536, packetSize);
    SmallerQuotient(b, packetSize, m);
  }

  lemma SmallerQuotient(b: nat, packetSize: nat, m: nat)
    requires packetSize > 0 && b * packetSize <= 65536 && m == LINK_RATE / (packetSize * 8)
    ensures b <= m
  {
    assert b * (packetSize * 8) <= LINK_RATE;
    FitsQuotient(b, packetSize * 8, LINK_RATE);
  }

  lemma FitsQuotient(b: nat, d: nat, n: nat)
    requires d > 0 && b * d <= n
    ensures b <= n / d
  {
    var q, r := n / d, n % d;
    assert n == q * d + r;
    EarlierWindow(q, b, d);
  }

  lemma LogGrows(from: Snapshot, to: Snapshot, msgs: seq<Datagram>)
    requires Accepted(from, to, msgs)
    ensures |from.log| <= |to.log| && |from.times| <= |to.times|
  {}

  /** One frame from the payloader to the kernel. */
  method StreamFrame(pay: RtpMoonlightPayVideo, sink: UDPSink, kernel: Kernel,
      isKey: bool, frame: seq<byte>, rs: Encoder)
      returns (flow: FlowReturn, ghost sent: nat, ghost start: int)
    requires sink.Valid() && kernel.Valid() && sink.pacingEnabled
    requires sink.maxPacketsPerMs == MaxPacketsPerMs(pay.cfg.payloadSize)
      && sink.maxBatchSize == MaxBatchSize(pay.cfg.payloadSize)
    modifies pay, sink, kernel
    ensures sink.Valid() && kernel.Valid() && pay.cfg == old(pay.cfg)
    ensures var packets := VideoRtp.SplitIntoRtp(old(pay.Now()), isKey, frame, rs).packets;
            sent <= |packets| && (flow == FlowOk <==> sent == |packets|)
            && Accepted(old(kernel.State()), kernel.State(), old(AsDatagrams(packets, sink.sendInfo))[..sent])
    ensures flow == FlowOk || sink.sendInfo.nativeSocket < 0 || Excused(old(kernel.journal), kernel.journal)
    ensures start >= old(kernel.now) && start >= old(sink.nextFrameStart)
    ensures var (log, times) := (kernel.log[old(|kernel.log|)..], kernel.times[old(|kernel.times|)..]);
            |log| == |times|
            && forall t :: ReleasedBits(log, times, t) <=
                 sink.maxPacketsPerMs * ((old(pay.cfg.payloadSize) + 16) * 8) * WindowsOpen(start, t)
  {
    hide Accepted, Later, Paced, SplitIntoRtp, MaxPacketsPerMs, MaxBatchSize;
    ghost var from, e, max, size := kernel.State(), pay.Now(), sink.maxPacketsPerMs, pay.cfg.payloadSize + 16;
    var packets := pay.SplitIntoRtp(isKey, frame, rs);
    FrameSizes(e, isKey, frame, rs);
    var list := seq(|packets|, i requires 0 <= i < |packets| => Buffer(packets[i], true));
    ghost var all := AsDatagrams(packets, sink.sendInfo);
    assert sink.Datagrams(list) == all;
    ghost var pace;
    flow, sent, start, pace := sink.SendBufferBatched(list, kernel);
    if |packets| <= sink.maxBatchSize || sent == 0 {
      start := if old(sink.nextFrameStart) > from.now then old(sink.nextFrameStart) else from.now;
    }
    BatchWithinWindow(pay.cfg.payloadSize);
    ghost var to := kernel.State();
    assert AtMost(all[..sent], size);
    assert to.log == kernel.log && to.times == kernel.times;
    LogGrows(from, to, all[..sent]);
    SentBits(from, to, all[..sent], pace.handoffs, start, max, size, 0);
    forall t
      ensures ReleasedBits(to.log[|from.log|..], to.times[|from.times|..], t) <=
                max * (size * 8) * WindowsOpen(start, t)
    {
      SentBits(from, to, all[..sent], pace.handoffs, start, max, size, t);
    }
  }

  function AsDatagrams(ps: seq<Packet>, info: SendInfo): (ds: seq<Datagram>)
    ensures |ds| == |ps|
  {
    seq(|ps|, i requires 0 <= i < |ps| => Datagram(ps[i], info.address, info.port))
  }
}
