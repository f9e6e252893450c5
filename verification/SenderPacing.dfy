/** The paced sink in front of `send_batch`, and the rate it keeps to. */
module SenderPacing {
  import opened Bits
  import opened Sender

  datatype Buffer = Buffer(data: seq<byte>, mappable: bool)
  datatype FlowReturn = FlowOk | FlowError

  /** 80% of a gigabit, in bits per millisecond. */
  const LINK_RATE: nat := 1000000000 * 80 / 100 / 1000

  /** The link rate over the bits of a packet; at least one. */
  function MaxPacketsPerMs(packetSize: nat): (max: nat)
    requires packetSize > 0
    ensures max > 0
  {
    var rate := LINK_RATE / (packetSize * 8);
    if rate < 1 then 1 else rate
  }

  function MaxBatchSize(packetSize: nat): nat
    requires packetSize > 0
  {
    Min(16, 65536 / packetSize)
  }

  /** The sizes that a sink is given: as many packets a millisecond as 800000 bits hold, but one at least, and
      batches of 16 packets, or of what 64 KiB hold. */
  lemma SizesChosen(packetSize: nat)
    requires packetSize > 0
    ensures var max := MaxPacketsPerMs(packetSize);
            (max + 1) * (packetSize * 8) > 800000 && (max > 1 ==> max * (packetSize * 8) <= 800000)
    ensures var batch := MaxBatchSize(packetSize);
            batch <= 16 && batch * packetSize <= 65536 && (batch < 16 ==> (batch + 1) * packetSize > 65536)
  {
    Quotients(800000, packetSize * 8);
    Quotients(65536, packetSize);
    ProductGrows(MaxBatchSize(packetSize), 65536 / packetSize, packetSize);
  }

  lemma Quotients(n: nat, d: nat)
    requires d > 0
    ensures n / d * d <= n < (n / d + 1) * d
  {
    var q, r := n / d, n % d;
    assert n == q * d + r && (q + 1) * d == q * d + d;
  }

  /** When packet `i` of a frame that starts at `start` may be released. */
  function Due(start: int, max: nat, i: nat): int
    requires max > 0
  {
    start + 1000000 * (i / max)
  }

  /** Every packet after the first window is released no earlier than its window. */
  ghost predicate Paced(times: seq<int>, start: int, max: nat)
    requires max > 0
  {
    forall i :: max <= i < |times| ==> times[i] >= Due(start, max, i)
  }

  /** What the kernel accepts after `from` it accepts no earlier than it was handed over. */
  ghost predicate Later(from: Snapshot, to: Snapshot, handoffs: seq<int>) {
    |from.times| <= |to.times| && NoEarlier(to.times[|from.times|..], handoffs)
  }

  ghost predicate NoEarlier(times: seq<int>, handoffs: seq<int>) {
    |times| <= |handoffs| && forall i :: 0 <= i < |times| ==> times[i] >= handoffs[i]
  }

  /** Where a paced frame stands: when each packet was handed over, the latest time slept until before that,
      and how many packets the current window has had. */
  datatype Pace = Pace(handoffs: seq<int>, alarms: seq<int>, used: nat, window: nat) {
    function Next(at: Snapshot, count: nat): Pace {
      Pace(handoffs + Stamps(at.now, count), alarms + Stamps(at.journal.alarm, count), used + count, window)
    }
  }

  datatype Rate = Rate(start: int, max: nat, batch: nat) {
    ghost predicate Valid() { max > 0 && 0 < batch <= 16 }
  }

  /** The end of a paced frame: what the kernel has of it, that no packet went early or was held, and why it ended. */
  ghost predicate PacedTo(frame: seq<Datagram>, sent: nat, p: Pace, r: Rate, from: Snapshot, to: Snapshot,
      ok: bool, socket: int)
    requires r.Valid()
  {
    && sent <= |p.handoffs| == |p.alarms| <= |frame|
    && Accepted(from, to, frame[..sent]) && Later(from, to, p.handoffs)
    && Paced(p.handoffs, r.start, r.max) && Prompt(p.alarms, r.start, r.max) && LastIs(p.alarms, to.journal.alarm)
    && if socket < 0 then to.journal == from.journal
       else Ended(from.journal, to.journal, ok, HandOvers(|p.handoffs|, r.max, r.batch))
  }

  ghost predicate LastIs(alarms: seq<int>, alarm: int) {
    alarms != [] && alarms[|alarms| - 1] == alarm
  }

  class UDPSink {
    const pacingEnabled: bool
    const maxPacketsPerMs: nat
    const maxBatchSize: nat
    var nextFrameStart: int
    var sendInfo: SendInfo

    /** A batch is never empty: otherwise the scheduler would not come to an end. */
    ghost predicate Valid()
      reads this
    {
      maxPacketsPerMs > 0 && 0 < maxBatchSize <= 16 && sendInfo.payloadSize == 0
    }

    constructor (packetSize: nat, enabled: bool, now: int, socket: int, address: string, port: nat)
      requires packetSize > 0
      ensures Valid() <==> packetSize <= 65536
      ensures pacingEnabled == enabled && nextFrameStart == now
      ensures maxPacketsPerMs == MaxPacketsPerMs(packetSize) && maxBatchSize == MaxBatchSize(packetSize)
      ensures sendInfo.nativeSocket == socket && sendInfo.address == address && sendInfo.port == port
    {
      pacingEnabled, nextFrameStart := enabled, now;
      maxPacketsPerMs, maxBatchSize := MaxPacketsPerMs(packetSize), MaxBatchSize(packetSize);
      sendInfo := SendInfo([], 0, 0, 0, socket, address, port);
      BatchNeverEmpty(packetSize, 1, 1);
    }

    /** A run of blocks through `send_batch`. */
    method SendBlocks(offset: nat, count: nat, kernel: Kernel) returns (ok: bool, ghost part: nat)
      requires kernel.Valid() && offset + count <= sendInfo.Blocks()
      modifies this`sendInfo, kernel
      ensures kernel.Valid() && part <= count && sendInfo.All() == old(sendInfo.All())
      ensures sendInfo == old(sendInfo).(blockOffset := offset, blockCount := count)
      ensures Accepted(old(kernel.State()), kernel.State(), sendInfo.All()[offset..offset + part])
      ensures ok <==> sendInfo.nativeSocket >= 0 && part == count
      ensures sendInfo.nativeSocket < 0 ==> part == 0 && kernel.journal == old(kernel.journal)
      ensures sendInfo.nativeSocket >= 0 ==> Ended(old(kernel.journal), kernel.journal, ok, Batches(count))
      ensures kernel.journal.alarm == old(kernel.journal.alarm) && kernel.now >= old(kernel.now)
    {
      ghost var before := kernel.State();
      hide Accepted, Ended;
      sendInfo := sendInfo.(blockOffset := offset, blockCount := count);
      ok, part := SendBatch(sendInfo, kernel);
      AcceptedLater(before, kernel.State(), sendInfo.Messages(offset, offset + part));
      assert sendInfo.All() == old(sendInfo.All());
      assert sendInfo.Messages(offset, offset + part) == sendInfo.All()[offset..offset + part];
    }

    method WaitUntil(due: int, kernel: Kernel)
      requires kernel.Valid()
      modifies kernel`now, kernel`journal
      ensures kernel.Valid() && kernel.now >= due && kernel.now >= old(kernel.now)
      ensures Accepted(old(kernel.State()), kernel.State(), [])
      ensures kernel.journal == old(kernel.journal) || kernel.journal == old(kernel.journal).(alarm := due)
    {
      var now := kernel.Now();
      if now < due {
        ghost var mid := kernel.State();
        kernel.SleepUntil(due);
        AcceptedNothing(old(kernel.State()), mid, kernel.State(), []);
      }
    }

    /** The window scheduler. */
    method SendPaced(numBuffers: nat, kernel: Kernel)
        returns (success: bool, ghost sent: nat, ghost start: int, ghost handed: nat, ghost pace: Pace)
      requires Valid() && kernel.Valid()
      requires numBuffers == sendInfo.Blocks() > 0
      modifies this, kernel
      ensures Valid() && kernel.Valid() && handed <= sent <= numBuffers
      ensures success <==> sent == numBuffers
      ensures success ==> handed == sent
      ensures PacedTo(old(sendInfo.All()), sent, pace, Rate(start, maxPacketsPerMs, maxBatchSize),
                      old(kernel.State()), kernel.State(), success, old(sendInfo.nativeSocket))
      ensures start >= old(nextFrameStart) && start >= old(kernel.now)
      ensures start == old(nextFrameStart) || start <= kernel.now
      ensures nextFrameStart == start + MILLISECOND * handed / maxPacketsPerMs
      ensures sendInfo.nativeSocket == old(sendInfo.nativeSocket)
    {
      hide Accepted, Kept, PacedTo, Ended;
      hide SendInfo.All, SendInfo.Messages, SendInfo.FixedSize;
      ghost var from, socket := kernel.State(), sendInfo.nativeSocket;
      NothingYet(from, sendInfo.All());
      var now := kernel.Now();
      AcceptedNothing(from, from, kernel.State(), sendInfo.All()[..0]);
      var frameStart := if nextFrameStart > now then nextFrameStart else now;
      var packetsSent: nat, packetsInWindow: nat := 0, 0;
      ghost var frame, rate := sendInfo.All(), Rate(frameStart, maxPacketsPerMs, maxBatchSize);
      success, sent, start, handed, pace := true, 0, frameStart, 0, Pace([], [], 0, 0);
      KeptFirst(frame, rate, from, kernel.State(), socket);
      while packetsSent < numBuffers
        invariant sent == packetsSent == |pace.handoffs| <= numBuffers == |frame| == sendInfo.Blocks()
        invariant packetsInWindow == pace.used <= maxPacketsPerMs && kernel.now >= now
        invariant Valid() && kernel.Valid() && sendInfo.All() == frame && sendInfo.nativeSocket == socket
        invariant Kept(frame, pace, rate, from, kernel.State(), socket)
        decreases numBuffers - packetsSent, packetsInWindow
      {
        var remaining := numBuffers - packetsSent;
        var budget := maxPacketsPerMs - packetsInWindow;
        ghost var before := kernel.State();
        if budget == 0 {
          var due := frameStart + MILLISECOND * packetsSent / maxPacketsPerMs;
          WaitUntil(due, kernel);
          KeptWindow(frame, pace, rate, from, before, kernel.State(), socket);
          packetsInWindow := 0;
          pace := pace.(used := 0, window := pace.window + 1);
          continue;
        }
        var batch := Min(Min(budget, maxBatchSize), remaining);
        ghost var part;
        success, part := SendBlocks(packetsSent, batch, kernel);
        KeptBatch(frame, pace, rate, from, before, kernel.State(), socket, batch, part, success);
        pace := pace.Next(before, batch);
        sent := packetsSent + part;
        packetsInWindow := packetsInWindow + batch;
        if !success { break; }
        packetsSent := packetsSent + batch;
      }
      handed := packetsSent;
      if success { KeptAll(frame, pace, rate, from, kernel.State(), socket); }
      nextFrameStart := frameStart + MILLISECOND * packetsSent / maxPacketsPerMs;
    }

    function Datagrams(list: seq<Buffer>): seq<Datagram>
      reads this
    {
      var (address, port) := (sendInfo.address, sendInfo.port);
      seq(|list|, i requires 0 <= i < |list| => Datagram(list[i].data, address, port))
    }

    /** `send_buffer_batched`: hands a prefix of the frame to the kernel, all of it exactly on
        success; frames larger than a batch are released window by window. */
    method SendBufferBatched(list: seq<Buffer>, kernel: Kernel)
        returns (flow: FlowReturn, ghost sent: nat, ghost start: int, ghost pace: Pace)
      requires Valid() && kernel.Valid()
      modifies this, kernel
      ensures Valid() && kernel.Valid() && sent <= |list|
      ensures Accepted(old(kernel.State()), kernel.State(), old(Datagrams(list))[..sent])
      ensures flow == FlowOk <==> sent == |list|
      ensures sendInfo.nativeSocket == old(sendInfo.nativeSocket)
      ensures (exists b :: b in list && !b.mappable) ==> sent == 0
      ensures pacingEnabled && |list| > maxBatchSize && (forall b :: b in list ==> b.mappable) ==>
                (Paced(pace.handoffs, start, maxPacketsPerMs) && Prompt(pace.alarms, start, maxPacketsPerMs)
                && sent <= |pace.handoffs| == |pace.alarms| <= |list|
                && Later(old(kernel.State()), kernel.State(), pace.handoffs)
                && start >= old(nextFrameStart) && start >= old(kernel.now)
                && (start == old(nextFrameStart) || start <= kernel.now)
                && (flow == FlowOk ==> nextFrameStart == start + MILLISECOND * |list| / maxPacketsPerMs)
                && pace.handoffs != [] && kernel.journal.alarm <= Due(start, maxPacketsPerMs, |pace.handoffs| - 1))
      ensures !pacingEnabled || |list| <= maxBatchSize ==>
                nextFrameStart == old(nextFrameStart) && kernel.journal.alarm == old(kernel.journal.alarm)
      ensures (exists b :: b in list && !b.mappable) || sendInfo.nativeSocket < 0 ==>
                kernel.journal == old(kernel.journal)
      ensures (forall b :: b in list ==> b.mappable) && sendInfo.nativeSocket >= 0 ==>
                Ended(old(kernel.journal), kernel.journal, flow == FlowOk,
                      if !pacingEnabled || |list| <= maxBatchSize then Batches(|list|)
                      else HandOvers(|pace.handoffs|, maxPacketsPerMs, maxBatchSize))
    {
      NothingYet(kernel.State(), Datagrams(list));
      hide Accepted, Later, Paced, Prompt, HandOvers;
      sent, start, pace := 0, nextFrameStart, Pace([], [], 0, 0);
      if |list| == 0 { return FlowOk, 0, start, pace; }
      var buffers := [];
      for i := 0 to |list|
        invariant |buffers| == i && forall k :: 0 <= k < i ==> buffers[k] == list[k].data && list[k].mappable
      {
        if !list[i].mappable { return FlowError, 0, start, pace; }
        buffers := buffers + [list[i].data];
      }
      sendInfo := sendInfo.(payloadBuffers := buffers);
      assert sendInfo.All() == old(Datagrams(list));
      var success;
      if !pacingEnabled || |list| <= maxBatchSize {
        success, sent := SendBlocks(0, |list|, kernel);
      } else {
        ghost var handed;
        success, sent, start, handed, pace := SendPaced(|list|, kernel);
      }
      flow := if success then FlowOk else FlowError;
    }
  }

  /** The batch is non-empty, and the scheduler makes progress, exactly for packets of up to 64 KiB. */
  lemma BatchNeverEmpty(packetSize: nat, budget: nat, remaining: nat)
    requires packetSize > 0 && budget > 0 && remaining > 0
    ensures Min(Min(budget, MaxBatchSize(packetSize)), remaining) > 0 <==> packetSize <= 65536
  {
    if packetSize <= 65536 {
      assert 65536 / packetSize >= 1;
    }
  }

  /** The first packet of a window. */
  function WindowStart(window: nat, max: nat): nat {
    window * max
  }

  /** The scheduler has handed over `used` packets in this window, and all of them in time. */
  ghost predicate InWindow(handoffs: seq<int>, used: nat, window: nat, start: int, max: nat, now: int)
    requires max > 0
  {
    && used <= max && |handoffs| == WindowStart(window, max) + used
    && (window > 0 ==> now >= start + MILLISECOND * window)
    && Paced(handoffs, start, max)
  }

  lemma FirstWindow(start: int, max: nat, now: int)
    requires max > 0
    ensures InWindow([], 0, 0, start, max, now)
  {}

  /** A full window is followed by the next when its time has come. */
  lemma NextWindow(handoffs: seq<int>, window: nat, start: int, max: nat, before: int, now: int)
    requires max > 0 && InWindow(handoffs, max, window, start, max, before)
    requires now >= start + MILLISECOND * |handoffs| / max
    ensures InWindow(handoffs, 0, window + 1, start, max, now)
  {
    hide Paced;
    WindowEnds(window, max);
  }

  lemma WindowEnds(window: nat, max: nat)
    requires max > 0
    ensures WindowStart(window + 1, max) == WindowStart(window, max) + max
    ensures MILLISECOND * WindowStart(window + 1, max) / max == MILLISECOND * (window + 1)
  {
    var q := MILLISECOND * (window + 1);
    assert MILLISECOND * (window * max + max) == q * max;
    DivisionIsUnique(q * max, max, q, 0);
  }

  // ---- nothing waits for longer than its window, and every batch is as large as it may be

  /** The latest time slept until before each packet was handed over: when its window opened, or earlier. */
  ghost predicate Prompt(alarms: seq<int>, start: int, max: nat)
    requires max > 0
  {
    forall i :: 0 <= i < |alarms| ==> alarms[i] <= Due(start, max, i)
  }

  ghost predicate Unheld(alarms: seq<int>, used: nat, window: nat, start: int, max: nat, alarm: int)
    requires max > 0
  {
    && used <= max && |alarms| == WindowStart(window, max) + used
    && alarm <= start + MILLISECOND * window
    && Prompt(alarms, start, max)
  }

  lemma BatchUnheld(alarms: seq<int>, used: nat, count: nat, window: nat, start: int, max: nat, alarm: int)
    requires max > 0 && used + count <= max && Unheld(alarms, used, window, start, max, alarm)
    ensures Unheld(alarms + Stamps(alarm, count), used + count, window, start, max, alarm)
  {
    var after := alarms + Stamps(alarm, count);
    forall i | 0 <= i < |after| ensures after[i] <= Due(start, max, i) {
      if i >= |alarms| { InThisWindow(i, window, max, i - |alarms| + used); }
    }
  }

  lemma NextUnheld(alarms: seq<int>, window: nat, start: int, max: nat, was: int, alarm: int)
    requires max > 0 && Unheld(alarms, max, window, start, max, was)
    requires alarm == was || alarm == start + MILLISECOND * |alarms| / max
    ensures Unheld(alarms, 0, window + 1, start, max, alarm)
  {
    hide Prompt;
    WindowEnds(window, max);
  }

  lemma AlarmSet(a: Journal, b: Journal, c: Journal, calls: nat)
    requires Ended(a, b, true, calls) && c == b.(alarm := c.alarm)
    ensures Ended(a, c, true, calls)
  {}

  /** How many batches `n` packets of a window take. */
  function Parts(n: nat, batch: nat): nat
    requires batch > 0
  {
    (n + batch - 1) / batch
  }

  /** How many batches the first `n` packets of a frame take. */
  function HandOvers(n: nat, max: nat, batch: nat): nat
    requires max > 0 && batch > 0
  {
    if n <= max then Parts(n, batch) else Parts(max, batch) + HandOvers(n - max, max, batch)
  }

  /** Only whole batches have been handed over in a window that is not over. */
  ghost predicate Tight(used: nat, max: nat, batch: nat)
    requires batch > 0
  {
    used % batch == 0 || used == max
  }

  lemma BatchTight(used: nat, count: nat, max: nat, batch: nat)
    requires 0 < batch && used < max && Tight(used, max, batch)
    ensures count == batch || count == max - used ==> Tight(used + count, max, batch)
  {
    if count == batch { DivisionIsUnique(used + batch, batch, used / batch + 1, 0); }
  }

  lemma OnePart(used: nat, count: nat, batch: nat)
    requires 0 < count <= batch && used % batch == 0
    ensures Parts(used + count, batch) == Parts(used, batch) + 1
  {
    var q := used / batch;
    DivisionIsUnique(used + count + batch - 1, batch, q + 1, count - 1);
    DivisionIsUnique(used + batch - 1, batch, q, batch - 1);
  }

  lemma {:induction false} BatchCounted(window: nat, used: nat, count: nat, max: nat, batch: nat)
    requires 0 < count <= batch && used < max && used + count <= max && Tight(used, max, batch)
    ensures HandOvers(WindowStart(window, max) + used + count, max, batch)
         == HandOvers(WindowStart(window, max) + used, max, batch) + 1
  {
    hide WindowStart, Parts;
    NextStart(window, max);
    if window > 0 { NextStart(window - 1, max); }
    NoParts(batch);
    OnePart(used, count, batch);
    if window > 0 { BatchCounted(window - 1, used, count, max, batch); }
  }

  lemma NoParts(batch: nat)
    requires batch > 0
    ensures Parts(0, batch) == 0
  {}

  lemma NextStart(window: nat, max: nat)
    ensures if window == 0 then WindowStart(window, max) == 0
            else WindowStart(window, max) == WindowStart(window - 1, max) + max
  {}

  // ---- what the scheduler keeps up

  ghost predicate Kept(frame: seq<Datagram>, p: Pace, r: Rate, from: Snapshot, to: Snapshot, socket: int)
    requires r.Valid()
  {
    && |p.handoffs| == |p.alarms| <= |frame|
    && InWindow(p.handoffs, p.used, p.window, r.start, r.max, to.now)
    && Unheld(p.alarms, p.used, p.window, r.start, r.max, to.journal.alarm)
    && Accepted(from, to, frame[..|p.handoffs|]) && Later(from, to, p.handoffs)
    && Ended(from.journal, to.journal, true, HandOvers(|p.handoffs|, r.max, r.batch))
    && (if |p.handoffs| < |frame| then Tight(p.used, r.max, r.batch) else LastIs(p.alarms, to.journal.alarm))
    && (socket < 0 ==> p.handoffs == [] && to.journal == from.journal)
  }

  lemma KeptFirst(frame: seq<Datagram>, r: Rate, from: Snapshot, to: Snapshot, socket: int)
    requires r.Valid() && frame != [] && Accepted(from, to, frame[..0]) && to.journal == from.journal
    requires to.journal.alarm <= r.start
    ensures Kept(frame, Pace([], [], 0, 0), r, from, to, socket)
  {
    FirstWindow(r.start, r.max, to.now);
    NowLater(from, to);
  }

  lemma KeptWindow(frame: seq<Datagram>, p: Pace, r: Rate, from: Snapshot, before: Snapshot, to: Snapshot, socket: int)
    requires r.Valid() && Kept(frame, p, r, from, before, socket) && p.used == r.max
    requires |p.handoffs| < |frame|
    requires Accepted(before, to, [])
    requires var due := r.start + MILLISECOND * |p.handoffs| / r.max;
             to.now >= due && (to.journal == before.journal || to.journal == before.journal.(alarm := due))
    ensures Kept(frame, p.(used := 0, window := p.window + 1), r, from, to, socket)
  {
    hide Accepted, InWindow, Unheld, Later, Ended, HandOvers, WindowStart, Tight;
    AcceptedNothing(from, before, to, frame[..|p.handoffs|]);
    NothingLater(from, before, to, p.handoffs);
    NextWindow(p.handoffs, p.window, r.start, r.max, before.now, to.now);
    NextUnheld(p.alarms, p.window, r.start, r.max, before.journal.alarm, to.journal.alarm);
    AlarmSet(from.journal, before.journal, to.journal, HandOvers(|p.handoffs|, r.max, r.batch));
    NoneUsed(p, r, before.now);
  }

  lemma KeptBatch(frame: seq<Datagram>, p: Pace, r: Rate, from: Snapshot, before: Snapshot, to: Snapshot, socket: int,
      count: nat, part: nat, ok: bool)
    requires r.Valid() && Kept(frame, p, r, from, before, socket) && p.used < r.max
    requires count == Min(Min(r.max - p.used, r.batch), |frame| - |p.handoffs|) && part <= count && 0 < count
    requires Accepted(before, to, frame[|p.handoffs|..|p.handoffs| + part])
    requires ok <==> socket >= 0 && part == count
    requires to.journal.alarm == before.journal.alarm
    requires if socket < 0 then part == 0 && to.journal == before.journal
             else Ended(before.journal, to.journal, ok, Batches(count))
    ensures if ok then Kept(frame, p.Next(before, count), r, from, to, socket)
            else PacedTo(frame, |p.handoffs| + part, p.Next(before, count), r, from, to, ok, socket)
  {
    hide Accepted, InWindow, Unheld, Later, Ended, HandOvers, WindowStart, Tight, Paced, Prompt, Stamps;
    var n, q := |p.handoffs|, p.Next(before, count);
    BatchInWindow(p.handoffs, p.used, count, p.window, r.start, r.max, before.now);
    AcceptedLater(before, to, frame[n..n + part]);
    StillInWindow(q.handoffs, q.used, p.window, r.start, r.max, before.now, to.now);
    BatchUnheld(p.alarms, p.used, count, p.window, r.start, r.max, before.journal.alarm);
    AcceptedChain(from, before, to, frame[..n], frame[n..n + part]);
    assert frame[..n] + frame[n..n + part] == frame[..n + part];
    StaysLater(from, before, to, frame[..n], frame[n..n + part], p.handoffs, count);
    BatchTight(p.used, count, r.max, r.batch);
    BatchCalls(p, r, before, count);
    BatchIsLast(p, before, count);
    if socket >= 0 {
      EndedChain(from.journal, before.journal, to.journal, ok, HandOvers(n, r.max, r.batch), 1);
    }
    WindowPaced(q.handoffs, q.used, q.window, r.start, r.max, to.now);
    UnheldPrompt(q.alarms, q.used, q.window, r.start, r.max, to.journal.alarm);
  }

  lemma BatchCalls(p: Pace, r: Rate, at: Snapshot, count: nat)
    requires r.Valid() && 0 < count <= r.batch && p.used + count <= r.max && p.used < r.max
    requires Tight(p.used, r.max, r.batch) && |p.handoffs| == WindowStart(p.window, r.max) + p.used
    ensures |p.Next(at, count).handoffs| == |p.handoffs| + count && Batches(count) == 1
    ensures HandOvers(|p.handoffs| + count, r.max, r.batch) == HandOvers(|p.handoffs|, r.max, r.batch) + 1
  {
    hide WindowStart, HandOvers, Tight;
    BatchCounted(p.window, p.used, count, r.max, r.batch);
  }

  lemma BatchIsLast(p: Pace, at: Snapshot, count: nat)
    requires count > 0
    ensures LastIs(p.Next(at, count).alarms, at.journal.alarm)
  {}

  lemma NoneUsed(p: Pace, r: Rate, now: int)
    requires r.Valid() && InWindow(p.handoffs, p.used, p.window, r.start, r.max, now)
    ensures Tight(0, r.max, r.batch) && (p.used > 0 ==> p.handoffs != [])
  {}

  lemma UnheldPrompt(alarms: seq<int>, used: nat, window: nat, start: int, max: nat, alarm: int)
    requires max > 0 && Unheld(alarms, used, window, start, max, alarm)
    ensures Prompt(alarms, start, max)
  {}

  lemma KeptAll(frame: seq<Datagram>, p: Pace, r: Rate, from: Snapshot, to: Snapshot, socket: int)
    requires r.Valid() && Kept(frame, p, r, from, to, socket) && |p.handoffs| == |frame|
    ensures PacedTo(frame, |frame|, p, r, from, to, true, socket)
  {
    hide Accepted, Later, Ended, HandOvers, Prompt, Paced;
    WindowPaced(p.handoffs, p.used, p.window, r.start, r.max, to.now);
    UnheldPrompt(p.alarms, p.used, p.window, r.start, r.max, to.journal.alarm);
  }

  lemma NowLater(from: Snapshot, to: Snapshot)
    requires Accepted(from, to, [])
    ensures Later(from, to, [])
  {}

  lemma NothingLater(from: Snapshot, mid: Snapshot, to: Snapshot, handoffs: seq<int>)
    requires Later(from, mid, handoffs) && Accepted(mid, to, [])
    ensures Later(from, to, handoffs)
  {
    assert to.times == mid.times;
  }

  lemma StaysLater(from: Snapshot, mid: Snapshot, to: Snapshot, m: seq<Datagram>, n: seq<Datagram>,
      handoffs: seq<int>, count: nat)
    requires Accepted(from, mid, m) && Later(from, mid, handoffs) && |m| == |handoffs|
    requires Accepted(mid, to, n) && |n| <= count
    ensures Later(from, to, handoffs + Stamps(mid.now, count))
  {
    var after, base := handoffs + Stamps(mid.now, count), |from.times|;
    forall i | 0 <= i < |to.times| - base ensures to.times[base..][i] >= after[i] {
      assert to.times[base..][i] == to.times[base + i];
      if i < |handoffs| { assert mid.times[base..][i] == to.times[base + i]; }
    }
  }

  /** What is accepted later than paced hand-offs is paced. */
  lemma LaterIsPaced(times: seq<int>, handoffs: seq<int>, start: int, max: nat)
    requires max > 0 && Paced(handoffs, start, max) && NoEarlier(times, handoffs)
    ensures Paced(times, start, max)
  {
    hide Due;
  }

  /** A batch handed over within its window. */
  lemma BatchInWindow(before: seq<int>, used: nat, count: nat, window: nat, start: int, max: nat, at: int)
    requires max > 0 && used + count <= max && InWindow(before, used, window, start, max, at)
    ensures InWindow(before + Stamps(at, count), used + count, window, start, max, at)
  {
    var after := before + Stamps(at, count);
    forall i | max <= i < |after| ensures after[i] >= Due(start, max, i) {
      if i >= |before| {
        InThisWindow(i, window, max, i - |before| + used);
      }
    }
  }

  lemma StillInWindow(handoffs: seq<int>, used: nat, window: nat, start: int, max: nat, before: int, now: int)
    requires max > 0 && InWindow(handoffs, used, window, start, max, before) && before <= now
    ensures InWindow(handoffs, used, window, start, max, now)
  {
    hide Paced;
  }

  lemma InThisWindow(i: nat, window: nat, max: nat, used: nat)
    requires used < max && i == WindowStart(window, max) + used
    ensures i / max == window && (i >= max ==> window > 0)
  {
    DivisionIsUnique(i, max, window, used);
  }

  lemma WindowPaced(handoffs: seq<int>, used: nat, window: nat, start: int, max: nat, now: int)
    requires max > 0 && InWindow(handoffs, used, window, start, max, now)
    ensures Paced(handoffs, start, max)
  {}

  /** How many of the packets released at `times` are out at time `t`. */
  function Released(times: seq<int>, t: int): (n: nat)
    ensures n <= |times|
  {
    if times == [] then 0
    else Released(times[..|times| - 1], t) + (if times[|times| - 1] <= t then 1 else 0)
  }

  /** Millisecond windows that have begun at `t`. */
  function WindowsOpen(start: int, t: int): nat {
    if t < start then 1 else 1 + (t - start) / 1000000
  }

  lemma {:induction false} ReleasedBefore(times: seq<int>, t: int, bound: nat)
    requires forall i :: bound <= i < |times| ==> times[i] > t
    ensures Released(times, t) <= bound
  {
    if |times| > bound {
      ReleasedBefore(times[..|times| - 1], t, bound);
    }
  }

  lemma EarlierWindow(q: nat, w: nat, max: nat)
    ensures q < w ==> q * max + max <= w * max
  {
    if q < w {
      ProductGrows(q + 1, w, max);
      assert (q + 1) * max == q * max + max;
    }
  }

  /** At no time is a paced frame ahead of its windows. */
  lemma {:induction false} PacedRelease(times: seq<int>, start: int, max: nat, t: int)
    requires max > 0 && Paced(times, start, max)
    ensures Released(times, t) <= max * WindowsOpen(start, t)
  {
    hide Released, WindowsOpen;
    var w := WindowsOpen(start, t);
    LeastOpen(start, t);
    ProductGrows(1, w, max);
    forall i | w * max <= i < |times| ensures times[i] > t {
      LaterWindow(i, w, max);
      assert times[i] >= Due(start, max, i);
      NotYetOpen(start, t, i / max);
    }
    ReleasedBefore(times, t, w * max);
  }

  lemma LeastOpen(start: int, t: int)
    ensures WindowsOpen(start, t) >= 1
  {}

  lemma LaterWindow(i: nat, w: nat, max: nat)
    requires max > 0 && i >= w * max
    ensures i / max >= w
  {
    assert i == i / max * max + i % max;
    EarlierWindow(i / max, w, max);
  }

  lemma NotYetOpen(start: int, t: int, q: nat)
    requires q >= WindowsOpen(start, t)
    ensures start + 1000000 * q > t
  {}

  lemma Quotient(n: nat, d: nat)
    requires d > 0
    ensures n / d * d <= n && (n / d >= 1 <==> n >= d)
  {
    assert n == n / d * d + n % d;
  }

  // ---- the rate, in bits of the datagrams themselves

  /** The bits of the datagrams in `log` that are out at time `t`. */
  function ReleasedBits(log: seq<Datagram>, times: seq<int>, t: int): nat
    requires |log| == |times|
  {
    if log == [] then 0 else
    var n := |log| - 1;
    ReleasedBits(log[..n], times[..n], t) + (if times[n] <= t then 8 * |log[n].payload| else 0)
  }

  ghost predicate AtMost(log: seq<Datagram>, size: nat) {
    forall i :: 0 <= i < |log| ==> |log[i].payload| <= size
  }

  lemma {:induction false} BitsOfReleased(log: seq<Datagram>, times: seq<int>, t: int, size: nat)
    requires |log| == |times| && AtMost(log, size)
    ensures ReleasedBits(log, times, t) <= Released(times, t) * (size * 8)
  {
    if log != [] {
      var n := |log| - 1;
      BitsOfReleased(log[..n], times[..n], t, size);
      var r, bits := Released(times[..n], t), size * 8;
      assert (r + 1) * bits == r * bits + bits;
    }
  }

  /** Whatever the datagrams, at every time a paced frame has released at most a window's
      worth for each window begun. */
  lemma {:induction false} PacedBits(log: seq<Datagram>, times: seq<int>, start: int, max: nat, size: nat, t: int)
    requires |log| == |times| && AtMost(log, size)
    requires max > 0 && Paced(times, start, max)
    ensures ReleasedBits(log, times, t) <= max * (size * 8) * WindowsOpen(start, t)
  {
    hide WindowsOpen, Paced, Released;
    var w, bits := WindowsOpen(start, t), size * 8;
    PacedRelease(times, start, max, t);
    BitsOfReleased(log, times, t, size);
    ProductGrows(Released(times, t), max * w, bits);
    Commute(max, w, bits);
  }

  lemma Commute(a: nat, b: nat, c: nat)
    ensures a * b * c == a * c * b
  {}

  /** What an enabled sink has released of a frame: the kernel's own log and times give the bits. */
  lemma SentBits(from: Snapshot, to: Snapshot, msgs: seq<Datagram>, handoffs: seq<int>, start: int,
      max: nat, size: nat, t: int)
    requires Accepted(from, to, msgs) && AtMost(msgs, size) && max > 0
    requires |msgs| > max ==> Paced(handoffs, start, max) && Later(from, to, handoffs)
    ensures to.log[|from.log|..] == msgs && |to.times[|from.times|..]| == |msgs|
    ensures ReleasedBits(msgs, to.times[|from.times|..], t) <= max * (size * 8) * WindowsOpen(start, t)
  {
    hide ReleasedBits, WindowsOpen, AtMost, NoEarlier;
    var times := to.times[|from.times|..];
    if |msgs| > max {
      LaterIsPaced(times, handoffs, start, max);
    }
    PacedBits(msgs, times, start, max, size, t);
  }

  /** Every frame of datagrams of up to `size` bytes keeps to 80% of a gigabit at all times. */
  ghost predicate WithinRate(max: nat, size: nat)
    requires max > 0
  {
    forall log, times, start, t {:trigger ReleasedBits(log, times, t), Paced(times, start, max)} ::
      |log| == |times| && AtMost(log, size) && Paced(times, start, max) ==>
        ReleasedBits(log, times, t) <= LINK_RATE * WindowsOpen(start, t)
  }

  /** That is so exactly when one full window of the largest datagrams fits into a millisecond. */
  lemma {:induction false} RateExactly(max: nat, size: nat)
    requires max > 0
    ensures WithinRate(max, size) <==> max * (size * 8) <= LINK_RATE
  {
    hide ReleasedBits, Paced, WindowsOpen;
    if max * (size * 8) <= LINK_RATE {
      forall log, times, start, t | |log| == |times| && AtMost(log, size) && Paced(times, start, max)
        ensures ReleasedBits(log, times, t) <= LINK_RATE * WindowsOpen(start, t)
      {
        PacedBits(log, times, start, max, size, t);
        ProductGrows(max * (size * 8), LINK_RATE, WindowsOpen(start, t));
      }
    } else {
      var d := Datagram(Zeros(size), "", 0);
      var log, times := seq(max, _ => d), Stamps(0, max);
      Burst(log, size);
      assert AtMost(log, size);
      BurstPaced(max);
      assert ReleasedBits(log, times, 0) > LINK_RATE * WindowsOpen(0, 0);
    }
  }

  lemma BurstPaced(max: nat)
    requires max > 0
    ensures Paced(Stamps(0, max), 0, max) && WindowsOpen(0, 0) == 1
  {}

  /** Datagrams of one size, all released at once. */
  lemma {:induction false} Burst(log: seq<Datagram>, size: nat)
    requires forall i :: 0 <= i < |log| ==> |log[i].payload| == size
    ensures ReleasedBits(log, Stamps(0, |log|), 0) == |log| * (size * 8)
  {
    if log != [] {
      var n := |log| - 1;
      Burst(log[..n], size);
      assert Stamps(0, |log|)[..n] == Stamps(0, n);
      assert |log| * (size * 8) == n * (size * 8) + size * 8;
    }
  }

  lemma RateFits(packetSize: nat)
    requires packetSize > 0
    ensures MaxPacketsPerMs(packetSize) * (packetSize * 8) <= LINK_RATE <==> packetSize <= 100000
  {
    Quotient(LINK_RATE, packetSize * 8);
  }

  /** Datagrams of up to the packet size keep to the rate, unless one a millisecond is already too many. */
  lemma RateIsCapped(packetSize: nat)
    requires packetSize > 0
    ensures WithinRate(MaxPacketsPerMs(packetSize), packetSize) <==> packetSize <= 100000
  {
    hide MaxPacketsPerMs, WithinRate;
    RateExactly(MaxPacketsPerMs(packetSize), packetSize);
    RateFits(packetSize);
  }
}
