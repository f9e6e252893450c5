/**
 RTP sequence numbers (RFC 3550, section 5.1) of the video packets, in the order
 they are emitted, over whole runs of frames.
 */
module VideoSequence {
  import opened Bits
  import opened VideoRtp
  import opened VideoFec

  /** Consecutive sequence numbers, modulo 65536, starting at `from`. */
  predicate Numbered(ps: seq<Packet>, from: nat) {
    forall i :: 0 <= i < |ps| ==> SequenceNumber(ps[i]) == (from + i) % TWO_16
  }

  lemma NumberedConcat(a: seq<Packet>, b: seq<Packet>, from: nat)
    ensures Numbered(a + b, from) <==> Numbered(a, from) && Numbered(b, from + |a|)
  {
    var c := a + b;
    assert forall i :: 0 <= i < |a| ==> c[i] == a[i];
    assert forall i :: 0 <= i < |b| ==> c[|a| + i] == b[i];
    if Numbered(c, from) {
      forall i | 0 <= i < |b|
        ensures SequenceNumber(b[i]) == (from + |a| + i) % TWO_16
      {
        assert SequenceNumber(c[|a| + i]) == (from + (|a| + i)) % TWO_16;
      }
    }
  }

  lemma NumberedModulo(ps: seq<Packet>, s: nat, t: nat)
    requires ps != []
    requires Numbered(ps, s)
    ensures Numbered(ps, t) <==> s % TWO_16 == t % TWO_16
  {
    assert SequenceNumber(ps[0]) == (s + 0) % TWO_16;
    if s % TWO_16 == t % TWO_16 {
      forall i | 0 <= i < |ps| ensures SequenceNumber(ps[i]) == (t + i) % TWO_16 {
        ModuloShift(s, t, i);
      }
    } else {
      assert SequenceNumber(ps[0]) != (t + 0) % TWO_16;
    }
  }

  lemma FreshlyNumbered(e: Element, full: seq<byte>)
    ensures Numbered(RtpPackets(e, full), e.curSeq)
  {
    forall k | 0 <= k < PacketCount(e.cfg, full) {
      HeaderFields(e, full, k);
    }
  }

  /** A block at least as large as a skipped one is skipped too. */
  lemma {:induction false} SkippingGrows(cfg: Settings, a: nat, b: nat)
    requires 0 < a <= b && Skipped(cfg, a)
    ensures Skipped(cfg, b)
  {
    ProductGrows(a, b, cfg.fecPercentage);
  }

  lemma {:induction false} ProtectSequence(e: Element, ps: seq<Packet>, block: nat, last: nat, rs: Encoder)
    requires ps != []
    requires Skipped(e.cfg, |ps|) ==> Numbered(ps, e.curSeq)
    ensures Numbered(Protect(e, ps, block, last, rs), e.curSeq)
  {
    if !Skipped(e.cfg, |ps|) {
      var out := Protect(e, ps, block, last, rs);
      forall i | 0 <= i < |out| {
        ProtectedFields(e, ps, block, last, rs, i);
      }
    }
  }

  /** The sub-lists start one after the other and never get longer. */
  lemma {:induction false} SubListShape(ps: seq<Packet>, block: nat)
    requires |ps| > SINGLE_BLOCK_MAX && block < NR_BLOCKS
    ensures block * PerBlock(|ps|) + |SubList(ps, block)| == Min((block + 1) * PerBlock(|ps|), |ps|)
    ensures block < 2 ==> |SubList(ps, block)| == PerBlock(|ps|)
    ensures |SubList(ps, block)| <= PerBlock(|ps|)
  {
  }

  lemma {:induction false} SubListNumbered(ps: seq<Packet>, block: nat, base: nat)
    requires |ps| > SINGLE_BLOCK_MAX && block < NR_BLOCKS
    requires Numbered(ps, base)
    ensures Numbered(SubList(ps, block), base + block * PerBlock(|ps|))
  {
    var sub := SubList(ps, block);
    var start := block * PerBlock(|ps|);
    SubListShape(ps, block);
    assert ps == ps[..start] + sub + ps[start + |sub|..];
    NumberedConcat(ps[..start] + sub, ps[start + |sub|..], base);
    NumberedConcat(ps[..start], sub, base);
  }

  /** If macro block `block` is going to be skipped, the counter stands where its packets were numbered. */
  predicate CounterInStep(e: Element, ps: seq<Packet>, block: nat, base: nat)
    requires |ps| > SINGLE_BLOCK_MAX
  {
    block < NR_BLOCKS && Skipped(e.cfg, |SubList(ps, block)|) ==>
      e.curSeq % TWO_16 == (base + block * PerBlock(|ps|)) % TWO_16
  }

  /** Skipped blocks come before protected ones, so the counter stays in step. */
  lemma {:induction false} StaysInStep(e: Element, ps: seq<Packet>, block: nat, base: nat, rs: Encoder)
    requires |ps| > SINGLE_BLOCK_MAX && block < NR_BLOCKS
    requires CounterInStep(e, ps, block, base)
    ensures CounterInStep(Advance(e, |Protect(e, SubList(ps, block), block, LAST_BLOCK_INDEX, rs)|),
      ps, block + 1, base)
  {
    var sub := SubList(ps, block);
    var first := Protect(e, sub, block, LAST_BLOCK_INDEX, rs);
    if block + 1 < NR_BLOCKS && Skipped(e.cfg, |SubList(ps, block + 1)|) {
      SubListShape(ps, block);
      SubListShape(ps, block + 1);
      SkippingGrows(e.cfg, |SubList(ps, block + 1)|, |sub|);
      assert first == sub;
      WrapsTogether(e.curSeq + |sub|);
      ModuloShift(e.curSeq, base + block * PerBlock(|ps|), |sub|);
    }
  }

  lemma {:induction false} MultiSequence(e: Element, ps: seq<Packet>, block: nat, base: nat, rs: Encoder)
    requires |ps| > SINGLE_BLOCK_MAX && block <= NR_BLOCKS
    requires Numbered(ps, base)
    requires CounterInStep(e, ps, block, base)
    ensures var o := MultiBlocks(e, ps, block, rs);
      && Numbered(o.packets, e.curSeq)
      && o.after == Advance(e, |o.packets|)
    decreases NR_BLOCKS - block
  {
    if block < NR_BLOCKS {
      var sub := SubList(ps, block);
      SubListNumbered(ps, block, base);
      NumberedModulo(sub, base + block * PerBlock(|ps|), e.curSeq);
      ProtectSequence(e, sub, block, LAST_BLOCK_INDEX, rs);
      StaysInStep(e, ps, block, base, rs);
      var first := Protect(e, sub, block, LAST_BLOCK_INDEX, rs);
      var next := Advance(e, |first|);
      MultiSequence(next, ps, block + 1, base, rs);
      var rest := MultiBlocks(next, ps, block + 1, rs);
      Rejoin(e, first, rest.packets);
    }
  }

  lemma NothingNumbered(from: nat)
    ensures Numbered([], from)
  {}

  lemma Rejoin(e: Element, first: seq<Packet>, rest: seq<Packet>)
    requires Numbered(first, e.curSeq)
    requires Numbered(rest, Advance(e, |first|).curSeq)
    ensures Numbered(first + rest, e.curSeq)
    ensures Advance(Advance(e, |first|), |rest|) == Advance(e, |first + rest|)
  {
    hide Numbered, Advance;
    NumberedConcat(first, rest, e.curSeq);
    CounterMoves(e, |first|);
    AdvancesJoin(e, |first|, |rest|);
    if rest == [] {
      NothingNumbered(e.curSeq + |first|);
    } else {
      NumberedModulo(rest, Advance(e, |first|).curSeq, e.curSeq + |first|);
    }
  }

  lemma AdvancesJoin(e: Element, m: nat, n: nat)
    ensures Advance(Advance(e, m), n) == Advance(e, m + n)
  {}

  lemma ModuloShift(a: nat, b: nat, k: nat)
    requires a % TWO_16 == b % TWO_16
    ensures (a + k) % TWO_16 == (b + k) % TWO_16
  {
  }

  lemma {:induction false} FecSequence(e: Element, ps: seq<Packet>, rs: Encoder)
    requires ps != [] && Numbered(ps, e.curSeq)
    ensures var o := WithFec(e, ps, rs);
      && o.packets != []
      && Numbered(o.packets, e.curSeq)
      && o.after == if e.cfg.fecPercentage > 0 then Advance(e, |o.packets|) else e
  {
    if e.cfg.fecPercentage > 0 {
      if |ps| > SINGLE_BLOCK_MAX {
        MultiSequence(e, ps, 0, e.curSeq, rs);
      } else {
        ProtectSequence(e, ps, 0, 0, rs);
      }
    }
  }

  lemma NoAdvance(a: nat, k: nat)
    ensures a % TWO_16 == (a + k) % TWO_16 <==> k % TWO_16 == 0
  {
  }

  lemma CounterMoves(e: Element, n: nat)
    ensures Advance(e, n).curSeq % TWO_16 == (e.curSeq + n) % TWO_16
    ensures e.curSeq % TWO_16 == (e.curSeq + n) % TWO_16 <==> n % TWO_16 == 0
  {
    WrapsTogether(e.curSeq + n);
    NoAdvance(e.curSeq, n);
  }

  /**
   The packets of one frame are consecutive from the carried counter; the counter then stands at the
   next number exactly when FEC is on (or the frame happens to be a multiple of 65536 packets).
   */
  lemma {:induction false} FrameSequence(e: Element, isKey: bool, frame: seq<byte>, rs: Encoder)
    ensures var o := SplitIntoRtp(e, isKey, frame, rs);
      && o.packets != []
      && Numbered(o.packets, e.curSeq)
      && (o.after.curSeq % TWO_16 == (e.curSeq + |o.packets|) % TWO_16 <==>
            e.cfg.fecPercentage > 0 || |o.packets| % TWO_16 == 0)
  {
    hide WithFec, RtpPackets, Numbered, FullPayload, Advance;
    var full := FullPayload(e.cfg, isKey, frame);
    PayloadNotEmpty(e.cfg, isKey, frame);
    PacketBoundsPositive(e.cfg, full);
    FreshlyNumbered(e, full);
    FecSequence(e, RtpPackets(e, full), rs);
    CounterAfter(e, WithFec(e, RtpPackets(e, full), rs));
  }

  lemma PayloadNotEmpty(cfg: Settings, isKey: bool, frame: seq<byte>)
    ensures FullPayload(cfg, isKey, frame) != []
  {}

  lemma CounterAfter(e: Element, o: Output)
    requires o.after == if e.cfg.fecPercentage > 0 then Advance(e, |o.packets|) else e
    ensures o.after.curSeq % TWO_16 == (e.curSeq + |o.packets|) % TWO_16 <==>
              e.cfg.fecPercentage > 0 || |o.packets| % TWO_16 == 0
  {
    hide Advance;
    CounterMoves(e, |o.packets|);
  }

  /** A frame handed to the element, with the property values in force at that moment. */
  datatype Frame = Frame(cfg: Settings, isKey: bool, data: seq<byte>, rs: Encoder)

  function OneFrame(e: Element, f: Frame): Output {
    SplitIntoRtp(e.(cfg := f.cfg), f.isKey, f.data, f.rs)
  }

  lemma OneFrameSequence(e: Element, f: Frame)
    ensures var o := OneFrame(e, f);
      && o.packets != []
      && Numbered(o.packets, e.curSeq)
      && (o.after.curSeq % TWO_16 == (e.curSeq + |o.packets|) % TWO_16 <==>
            f.cfg.fecPercentage > 0 || |o.packets| % TWO_16 == 0)
  {
    FrameSequence(e.(cfg := f.cfg), f.isKey, f.data, f.rs);
  }

  function Run(e: Element, fs: seq<Frame>): Output
    decreases |fs|
  {
    if fs == [] then Output([], e)
    else
      var first := OneFrame(e, fs[0]);
      var rest := Run(first.after, fs[1..]);
      Output(first.packets + rest.packets, rest.after)
  }

  /** Every frame that is followed by another one leaves the counter at the next number. */
  predicate CounterKept(e: Element, fs: seq<Frame>)
    decreases |fs|
  {
    |fs| >= 2 ==>
      && (fs[0].cfg.fecPercentage > 0 || |OneFrame(e, fs[0]).packets| % TWO_16 == 0)
      && CounterKept(OneFrame(e, fs[0]).after, fs[1..])
  }

  lemma RunNotEmpty(e: Element, fs: seq<Frame>)
    requires fs != []
    ensures Run(e, fs).packets != []
  {
    OneFrameSequence(e, fs[0]);
  }

  /** Over any run, the emitted packets are numbered consecutively if and only if the counter is kept. */
  lemma {:induction false} RunSequence(e: Element, fs: seq<Frame>)
    ensures Numbered(Run(e, fs).packets, e.curSeq) <==> CounterKept(e, fs)
    decreases |fs|
  {
    if |fs| >= 2 {
      RunSequence(OneFrame(e, fs[0]).after, fs[1..]);
      RunStep(e, fs);
    } else if fs != [] {
      OneFrameSequence(e, fs[0]);
      assert Run(e, fs).packets == OneFrame(e, fs[0]).packets;
    }
  }

  lemma RunStep(e: Element, fs: seq<Frame>)
    requires |fs| >= 2
    ensures var first, tail := OneFrame(e, fs[0]), fs[1..];
      Numbered(Run(e, fs).packets, e.curSeq) <==>
        && Numbered(Run(first.after, tail).packets, first.after.curSeq)
        && (fs[0].cfg.fecPercentage > 0 || |first.packets| % TWO_16 == 0)
  {
    hide OneFrame;
    var first, tail := OneFrame(e, fs[0]), fs[1..];
    OneFrameSequence(e, fs[0]);
    RunNotEmpty(first.after, tail);
    RunNeverRenumbers(first.after, tail, e.curSeq + |first.packets|);
    TailContinues(first.packets, e.curSeq, Run(first.after, tail).packets, first.after.curSeq);
  }

  lemma TailContinues(first: seq<Packet>, s: nat, rest: seq<Packet>, t: nat)
    requires Numbered(first, s) && rest != []
    requires !Numbered(rest, t) ==> !Numbered(rest, s + |first|)
    ensures Numbered(first + rest, s) <==> Numbered(rest, t) && t % TWO_16 == (s + |first|) % TWO_16
  {
    NumberedConcat(first, rest, s);
    if Numbered(rest, t) {
      NumberedModulo(rest, t, s + |first|);
    }
  }

  /** A run that is not consecutive from its own counter is not consecutive from any number. */
  lemma {:induction false} RunNeverRenumbers(e: Element, fs: seq<Frame>, from: nat)
    requires fs != []
    ensures !Numbered(Run(e, fs).packets, e.curSeq) ==> !Numbered(Run(e, fs).packets, from)
  {
    var first := OneFrame(e, fs[0]);
    OneFrameSequence(e, fs[0]);
    var ps := Run(e, fs).packets;
    if Numbered(ps, from) {
      assert SequenceNumber(ps[0]) == (from + 0) % TWO_16;
      assert SequenceNumber(first.packets[0]) == (e.curSeq + 0) % TWO_16;
      NumberedModulo(ps, from, e.curSeq);
    }
  }

  /** Without FEC the next frame starts with the number of this one's first packet. */
  lemma UnprotectedRunRepeats(e: Element, f: Frame, g: Frame)
    requires f.cfg.fecPercentage == 0 && |f.data| + SHORT_HEADER_SIZE < TWO_16
    ensures var (ps, n) := (Run(e, [f, g]).packets, |OneFrame(e, f).packets|);
            0 < n < |ps| && SequenceNumber(ps[n]) == SequenceNumber(ps[0]) && !Numbered(ps, e.curSeq)
  {
    hide OneFrame;
    var first := OneFrame(e, f);
    var second := OneFrame(first.after, g);
    assert [f, g][1..] == [g] && [g][1..] == [];
    assert Run(first.after, [g]).packets == second.packets;
    OneFrameSequence(e, f);
    OneFrameSequence(first.after, g);
    UnprotectedFrame(e, f);
    RunSequence(e, [f, g]);
    assert SequenceNumber(first.packets[0]) == (e.curSeq + 0) % TWO_16;
    assert SequenceNumber(second.packets[0]) == (first.after.curSeq + 0) % TWO_16;
  }

  lemma UnprotectedFrame(e: Element, f: Frame)
    requires f.cfg.fecPercentage == 0
    ensures OneFrame(e, f).after.curSeq == e.curSeq
    ensures |OneFrame(e, f).packets| <= |f.data| + SHORT_HEADER_SIZE
  {
    hide RtpPackets, CeilDiv;
    QuotientNoLarger(|f.data| + SHORT_HEADER_SIZE, f.cfg.Capacity());
  }

  lemma QuotientNoLarger(n: nat, m: nat)
    requires n > 0 && m > 0
    ensures CeilDiv(n, m) <= n
  {
    var t := CeilDiv(n, m);
    if t > n { ProductGrows(n + 1, t, m); ProductGrows(1, m, n); }
  }

  /** With FEC on for every frame, the numbering is consecutive over every run. */
  lemma {:induction false} FecKeepsSequence(e: Element, fs: seq<Frame>)
    requires forall f :: f in fs ==> f.cfg.fecPercentage > 0
    ensures Numbered(Run(e, fs).packets, e.curSeq)
  {
    RunSequence(e, fs);
    FecKeepsCounter(e, fs);
  }

  lemma {:induction false} FecKeepsCounter(e: Element, fs: seq<Frame>)
    requires forall f :: f in fs ==> f.cfg.fecPercentage > 0
    ensures CounterKept(e, fs)
    decreases |fs|
  {
    if |fs| >= 2 {
      FecKeepsCounter(OneFrame(e, fs[0]).after, fs[1..]);
    }
  }
}
