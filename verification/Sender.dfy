/**
 The paced, batched UDP sender: a window scheduler over a retrying `sendmmsg` loop.
 The kernel is seen through the datagrams it has accepted and the time it accepted each.
 */
module Sender {
  import opened Bits

  const MAX_BATCH: nat := 64
  const MAX_RETRIES: nat := 10
  /** One millisecond of the steady clock, in nanoseconds. */
  const MILLISECOND: int := 1000000

  datatype Datagram = Datagram(payload: seq<byte>, address: string, port: nat)
  datatype Errno = WouldBlock | Interrupted | Failed

  function Stamps(t: int, n: nat): (r: seq<int>)
    ensures |r| == n
  {
    seq(n, _ => t)
  }

  /** What went on between a sender and the kernel: system calls, those that took only a part, those that were
      interrupted or found no room after all, those that failed, and polls that timed out, `inRow` of them since
      a message was last accepted.  The latest time that was slept until is `alarm`. */
  datatype Journal = Journal(calls: nat, partial: nat, stalled: nat, faults: nat, timeouts: nat, inRow: nat, alarm: int)
  {
    function Trouble(): nat { partial + stalled + faults + timeouts }
  }

  /** What can be seen of the kernel at one moment. */
  datatype Snapshot = Snapshot(now: int, stalls: nat, log: seq<Datagram>, times: seq<int>, journal: Journal)

  /** From one moment to another the kernel has accepted `msgs`, in order, and none before the first moment. */
  ghost predicate Accepted(a: Snapshot, b: Snapshot, msgs: seq<Datagram>) {
    && |a.log| == |a.times| && |b.log| == |b.times|
    && a.now <= b.now && b.stalls <= a.stalls
    && b.log == a.log + msgs && a.times <= b.times
    && forall i :: |a.times| <= i < |b.times| ==> a.now <= b.times[i]
  }

  lemma AcceptedChain(a: Snapshot, b: Snapshot, c: Snapshot, m: seq<Datagram>, n: seq<Datagram>)
    requires Accepted(a, b, m) && Accepted(b, c, n)
    ensures Accepted(a, c, m + n)
  {
    assert forall i :: |a.times| <= i < |b.times| ==> c.times[i] == b.times[i];
  }

  lemma AcceptedNothing(a: Snapshot, b: Snapshot, c: Snapshot, m: seq<Datagram>)
    requires Accepted(a, b, m) && Accepted(b, c, [])
    ensures Accepted(a, c, m)
  {
    AcceptedChain(a, b, c, m, []);
    assert m + [] == m;
  }

  lemma AcceptedLater(a: Snapshot, b: Snapshot, m: seq<Datagram>)
    requires Accepted(a, b, m)
    ensures a.now <= b.now
  {}

  /** A send fails only when the kernel does, or when it had no room for ten polls in a row. */
  ghost predicate Excused(a: Journal, b: Journal) {
    b.faults > a.faults || (b.timeouts >= a.timeouts + 10 && b.inRow >= 10)
  }

  /** How a send may have gone: every further system call than `calls` has its reason. */
  ghost predicate Ended(a: Journal, b: Journal, ok: bool, calls: nat) {
    && a.faults <= b.faults && a.timeouts <= b.timeouts
    && (if ok then b.faults == a.faults else Excused(a, b))
    && b.calls + a.Trouble() <= a.calls + b.Trouble() + calls
  }

  lemma EndedChain(a: Journal, b: Journal, c: Journal, ok: bool, m: nat, n: nat)
    requires Ended(a, b, true, m) && Ended(b, c, ok, n)
    ensures Ended(a, c, ok, m + n)
  {}

  /** The operating system: any clock that never goes back, any behaviour of the socket. */
  class Kernel {
    var now: int
    /** How often the socket will still interrupt a call, or report room it does not have. */
    var stalls: nat
    var log: seq<Datagram>
    var times: seq<int>
    ghost var journal: Journal

    ghost predicate Valid()
      reads this
    {
      |log| == |times| && journal.alarm <= now
    }

    ghost function State(): Snapshot
      reads this
    {
      Snapshot(now, stalls, log, times, journal)
    }

    constructor ()
      ensures Valid() && log == []
    {
      now, stalls, log, times := *, *, [], [];
      journal := Journal(0, 0, 0, 0, 0, 0, now);
    }

    method Elapse()
      requires Valid()
      modifies this`now
      ensures Valid() && Accepted(old(State()), State(), [])
    {
      var passed: int := *;
      if passed > 0 { now := now + passed; }
      assert log + [] == log;
    }

    method Now() returns (t: int)
      requires Valid()
      modifies this`now
      ensures Valid() && t == now && Accepted(old(State()), State(), [])
    {
      Elapse();
      t := now;
    }

    method SleepUntil(due: int)
      requires Valid()
      modifies this`now, this`journal
      ensures Valid() && now >= due && Accepted(old(State()), State(), [])
      ensures journal == old(journal).(alarm := if due > old(journal.alarm) then due else old(journal.alarm))
    {
      if now < due { now := due; }
      if due > journal.alarm { journal := journal.(alarm := due); }
      assert log + [] == log;
      ghost var mid := State();
      Elapse();
      AcceptedNothing(old(State()), mid, State(), []);
    }

    method Sendmmsg(msgs: seq<Datagram>) returns (sent: int, errno: Errno)
      requires Valid() && msgs != []
      modifies this
      ensures Valid() && stalls <= old(stalls)
      ensures sent < 0 ==> Accepted(old(State()), State(), [])
      ensures sent < 0 && errno == Interrupted ==> stalls < old(stalls)
      ensures sent >= 0 ==> 1 <= sent <= |msgs| && Accepted(old(State()), State(), msgs[..sent])
      ensures var before := old(journal).(calls := old(journal.calls) + 1);
              journal ==
                if sent == |msgs| then before.(inRow := 0)
                else if sent >= 0 then before.(inRow := 0, partial := before.partial + 1)
                else if errno == Interrupted then before.(stalled := before.stalled + 1)
                else if errno == Failed then before.(faults := before.faults + 1)
                else before
    {
      Elapse();
      journal := journal.(calls := journal.calls + 1);
      sent, errno := *, *;
      if 1 <= sent <= |msgs| {
        log := log + msgs[..sent];
        times := times + Stamps(now, sent);
        journal := journal.(inRow := 0, partial := journal.partial + if sent < |msgs| then 1 else 0);
      } else {
        sent := -1;
        if errno == Interrupted {
          if stalls == 0 { errno := Failed; } else { stalls := stalls - 1; }
        }
        journal := journal.(stalled := journal.stalled + if errno == Interrupted then 1 else 0,
                            faults := journal.faults + if errno == Failed then 1 else 0);
      }
    }

    /** `poll` for room to send: negative on failure, zero on timeout. */
    method Poll() returns (ready: int)
      requires Valid()
      modifies this`now, this`stalls, this`journal
      ensures Valid() && stalls <= old(stalls) && Accepted(old(State()), State(), [])
      ensures ready > 0 ==> stalls < old(stalls)
      ensures var before := old(journal);
              journal ==
                if ready > 0 then before.(stalled := before.stalled + 1)
                else if ready < 0 then before.(faults := before.faults + 1)
                else before.(timeouts := before.timeouts + 1, inRow := before.inRow + 1)
    {
      Elapse();
      ready := *;
      if ready > 0 {
        if stalls == 0 { ready := 0; } else { stalls := stalls - 1; }
      }
      if ready > 0 {
        journal := journal.(stalled := journal.stalled + 1);
      } else if ready < 0 {
        journal := journal.(faults := journal.faults + 1);
      } else {
        journal := journal.(timeouts := journal.timeouts + 1, inRow := journal.inRow + 1);
      }
    }
  }

  datatype SendInfo = SendInfo(
    payloadBuffers: seq<seq<byte>>, payloadSize: nat,
    blockOffset: nat, blockCount: nat,
    nativeSocket: int, address: string, port: nat)
  {
    /** One buffer cut into blocks of equal size, instead of one buffer for each block. */
    predicate FixedSize() { payloadSize > 0 && |payloadBuffers| == 1 }

    function Blocks(): nat {
      if FixedSize() then |payloadBuffers[0]| / payloadSize else |payloadBuffers|
    }

    predicate Valid() { blockOffset + blockCount <= Blocks() }

    lemma BlockFits(i: nat)
      requires FixedSize() && i < Blocks()
      ensures i * payloadSize <= (i + 1) * payloadSize <= |payloadBuffers[0]|
      ensures i * payloadSize + payloadSize == (i + 1) * payloadSize
    {
      var size := |payloadBuffers[0]|;
      ProductGrows(i + 1, size / payloadSize, payloadSize);
      assert size == (size / payloadSize) * payloadSize + size % payloadSize;
    }

    function Message(i: nat): Datagram
      requires i < Blocks()
    {
      var payload :=
        if FixedSize() then
          BlockFits(i);
          payloadBuffers[0][i * payloadSize..(i + 1) * payloadSize]
        else payloadBuffers[i];
      Datagram(payload, address, port)
    }

    function All(): (ms: seq<Datagram>)
      ensures |ms| == Blocks()
    {
      Messages(0, Blocks())
    }

    /** Blocks `from` up to `to` as datagrams. */
    function Messages(from: nat, to: nat): (ms: seq<Datagram>)
      requires from <= to <= Blocks()
    {
      seq(to - from, i requires 0 <= i < to - from => Message(from + i))
    }
  }

  /** The region of the buffers' joint contents that starts at `offset`, up to its buffer's end. */
  method BufferForPayloadOffset(buffers: seq<seq<byte>>, offset: nat) returns (region: seq<byte>)
    ensures region == [] <==> offset >= |Flatten(buffers)|
    ensures offset <= |Flatten(buffers)| ==> region <= Flatten(buffers)[offset..]
    ensures |buffers| == 1 && offset < |buffers[0]| ==> region == buffers[0][offset..]
  {
    var offset: nat := offset;
    ghost var start, all := offset, Flatten(buffers);
    assert buffers[0..] == buffers;
    for i := 0 to |buffers|
      invariant 0 <= start - offset <= |all|
      invariant Flatten(buffers[i..]) == all[start - offset..]
      invariant i == 0 ==> offset == start
      invariant i > 0 && |buffers| == 1 ==> start >= |buffers[0]|
    {
      assert buffers[i..][1..] == buffers[i + 1..];
      if offset < |buffers[i]| {
        return buffers[i][offset..];
      } else {
        offset := offset - |buffers[i]|;
      }
    }
    return [];
  }

  lemma MessagesJoin(info: SendInfo, a: nat, b: nat, c: nat)
    requires a <= b <= c <= info.Blocks()
    ensures info.Messages(a, b) + info.Messages(b, c) == info.Messages(a, c)
    ensures info.Messages(a, c)[..b - a] == info.Messages(a, b)
  {}

  /** With fixed-size blocks the payloads are the buffer's whole blocks end to end, otherwise the buffers themselves. */
  lemma {:induction false} BlocksAreTheBuffer(info: SendInfo, n: nat)
    requires n <= info.Blocks()
    ensures var payloads := seq(n, i requires 0 <= i < n => info.Messages(0, n)[i].payload);
            if info.payloadSize > 0 && |info.payloadBuffers| == 1 then
              && n * info.payloadSize <= |info.payloadBuffers[0]|
              && Flatten(payloads) == info.payloadBuffers[0][..n * info.payloadSize]
              && forall i :: 0 <= i < n ==> |payloads[i]| == info.payloadSize
            else payloads == info.payloadBuffers[..n]
    ensures forall i :: 0 <= i < n ==>
              info.Messages(0, n)[i].address == info.address && info.Messages(0, n)[i].port == info.port
  {
    if n > 0 && info.FixedSize() {
      var m := n - 1;
      BlocksAreTheBuffer(info, m);
      info.BlockFits(m);
      var before := seq(m, i requires 0 <= i < m => info.Messages(0, m)[i].payload);
      var all := seq(n, i requires 0 <= i < n => info.Messages(0, n)[i].payload);
      var last := info.payloadBuffers[0][m * info.payloadSize..n * info.payloadSize];
      assert all == before + [last];
      FlattenSnoc(before, last);
    } else if info.FixedSize() {
      assert info.payloadBuffers[0][..0] == [];
    }
  }

  method BuildBatch(info: SendInfo, from: nat, count: nat) returns (msgs: seq<Datagram>)
    requires from + count <= info.Blocks()
    ensures msgs == info.Messages(from, from + count)
  {
    msgs := [];
    for i := 0 to count
      invariant msgs == info.Messages(from, from + i)
    {
      var block := from + i;
      MessagesJoin(info, from, block, block + 1);
      assert info.Messages(block, block + 1) == [info.Message(block)];
      if info.FixedSize() {
        info.BlockFits(block);
        var region := BufferForPayloadOffset(info.payloadBuffers, block * info.payloadSize);
        assert region[..info.payloadSize] == info.Message(block).payload;
        msgs := msgs + [Datagram(region[..info.payloadSize], info.address, info.port)];
      } else {
        msgs := msgs + [Datagram(info.payloadBuffers[block], info.address, info.port)];
      }
    }
  }

  /** The retry loop around `sendmmsg`. */
  method Transmit(kernel: Kernel, msgs: seq<Datagram>) returns (ok: bool, ghost sent: nat)
    requires kernel.Valid()
    modifies kernel
    ensures kernel.Valid() && sent <= |msgs| && Accepted(old(kernel.State()), kernel.State(), msgs[..sent])
    ensures ok <==> sent == |msgs|
    ensures Ended(old(kernel.journal), kernel.journal, ok, if msgs == [] then 0 else 1)
    ensures kernel.journal.alarm == old(kernel.journal.alarm)
  {
    NothingYet(kernel.State(), msgs);
    hide Accepted;
    ghost var start, journal := kernel.State(), kernel.journal;
    var retries, batchSent: nat := 0, 0;
    while batchSent < |msgs| && retries < MAX_RETRIES
      invariant batchSent <= |msgs| && retries <= MAX_RETRIES
      invariant batchSent == |msgs| ==> retries == 0
      invariant kernel.Valid() && Accepted(start, kernel.State(), msgs[..batchSent])
      invariant Ended(journal, kernel.journal, true, if batchSent == |msgs| > 0 then 1 else 0)
      invariant kernel.journal.timeouts >= journal.timeouts + retries && kernel.journal.inRow >= retries
      invariant kernel.journal.alarm == journal.alarm
      decreases |msgs| - batchSent, kernel.stalls, MAX_RETRIES - retries
    {
      ghost var before := kernel.State();
      var sentNow, errno := kernel.Sendmmsg(msgs[batchSent..]);
      ghost var mid := kernel.State();
      if sentNow < 0 {
        AcceptedNothing(start, before, mid, msgs[..batchSent]);
        if errno == WouldBlock {
          var ready := kernel.Poll();
          AcceptedNothing(start, mid, kernel.State(), msgs[..batchSent]);
          if ready < 0 {
            return false, batchSent;
          } else if ready == 0 {
            retries := retries + 1;
          }
        } else if errno != Interrupted {
          return false, batchSent;
        }
      } else {
        AcceptedChain(start, before, mid, msgs[..batchSent], msgs[batchSent..][..sentNow]);
        assert msgs[..batchSent] + msgs[batchSent..][..sentNow] == msgs[..batchSent + sentNow];
        batchSent := batchSent + sentNow;
        retries := 0;
      }
    }
    return retries < MAX_RETRIES, batchSent;
  }

  lemma NothingYet(a: Snapshot, msgs: seq<Datagram>)
    requires |a.log| == |a.times|
    ensures Accepted(a, a, []) && Accepted(a, a, msgs[..0])
  {
    assert a.log + [] == a.log && msgs[..0] == [];
  }

  lemma BatchAccepted(info: SendInfo, start: Snapshot, before: Snapshot, now: Snapshot, from: nat, part: nat, size: nat)
    requires info.blockOffset <= from && part <= size && from + size <= info.Blocks()
    requires Accepted(start, before, info.Messages(info.blockOffset, from))
    requires Accepted(before, now, info.Messages(from, from + size)[..part])
    ensures Accepted(start, now, info.Messages(info.blockOffset, from + part))
  {
    hide Accepted, SendInfo.Messages, SendInfo.Blocks, SendInfo.FixedSize;
    MessagesJoin(info, from, from + part, from + size);
    MessagesJoin(info, info.blockOffset, from, from + part);
    AcceptedChain(start, before, now, info.Messages(info.blockOffset, from), info.Messages(from, from + part));
  }

  /** How many batches of up to 64 a number of blocks takes. */
  function Batches(blocks: nat): nat {
    (blocks + 63) / 64
  }

  /** `send_batch`: it is true exactly when the kernel has every block; otherwise a prefix, and then the socket is
      invalid, the kernel has failed, or it had no room for ten polls in a row. */
  method SendBatch(info: SendInfo, kernel: Kernel) returns (ok: bool, ghost sent: nat)
    requires info.Valid() && kernel.Valid()
    modifies kernel
    ensures kernel.Valid() && sent <= info.blockCount
    ensures Accepted(old(kernel.State()), kernel.State(), info.Messages(info.blockOffset, info.blockOffset + sent))
    ensures ok <==> info.nativeSocket >= 0 && sent == info.blockCount
    ensures info.nativeSocket < 0 ==> sent == 0 && kernel.journal == old(kernel.journal)
    ensures info.nativeSocket >= 0 ==> Ended(old(kernel.journal), kernel.journal, ok, Batches(info.blockCount))
    ensures kernel.journal.alarm == old(kernel.journal.alarm)
  {
    NothingYet(kernel.State(), []);
    assert info.Messages(info.blockOffset, info.blockOffset) == [];
    hide Accepted, SendInfo.Messages, SendInfo.Blocks, SendInfo.FixedSize;
    ghost var start, journal := kernel.State(), kernel.journal;
    if info.nativeSocket < 0 { return false, 0; }
    var remaining: nat, blocksSent: nat := info.blockCount, 0;
    while remaining > 0
      invariant blocksSent + remaining == info.blockCount && kernel.Valid()
      invariant Ended(journal, kernel.journal, true, Batches(info.blockCount) - Batches(remaining))
      invariant Batches(remaining) <= Batches(info.blockCount) && kernel.journal.alarm == journal.alarm
      invariant Accepted(start, kernel.State(), info.Messages(info.blockOffset, info.blockOffset + blocksSent))
    {
      var batchSize := Min(remaining, MAX_BATCH);
      ghost var from, before := info.blockOffset + blocksSent, kernel.State();
      var msgs := BuildBatch(info, info.blockOffset + blocksSent, batchSize);
      ghost var part;
      ok, part := Transmit(kernel, msgs);
      BatchAccepted(info, start, before, kernel.State(), from, part, batchSize);
      if !ok { return false, blocksSent + part; }
      blocksSent := blocksSent + batchSize;
      remaining := remaining - batchSize;
    }
    return blocksSent >= info.blockCount, blocksSent;
  }
}
