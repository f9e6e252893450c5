/**
 The video payloader element: the code that builds and rewrites the buffers,
 proved to put out exactly the packets described in `VideoRtp`.
 */
module VideoPay {
  import opened Bits
  import opened VideoRtp

  /** Every packet fills a whole shard, except possibly the last. */
  predicate Sized(ps: seq<Packet>, size: nat) {
    forall i :: 0 <= i < |ps| ==> |ps[i]| <= size && (i + 1 < |ps| ==> |ps[i]| == size)
  }

  function Overwrite(s: seq<byte>, at: nat, b: seq<byte>): (r: seq<byte>)
    requires at + |b| <= |s|
    ensures |r| == |s|
  {
    s[..at] + b + s[at + |b|..]
  }

  function StampAt(s: seq<byte>, pos: nat, e: Element, shardIdx: nat, b: Blocks, block: nat, last: nat): seq<byte>
    requires pos + HEADERS_SIZE <= |s|
  {
    Overwrite(s, pos, Stamp(s[pos..pos + HEADERS_SIZE], e, shardIdx, b.dataShards, b.percentage, block, last))
  }

  /** `update_fec_info`, on a header lying at `pos` in a mapped buffer. */
  method UpdateFecInfo(a: array<byte>, pos: nat, e: Element, shardIdx: nat, b: Blocks, block: nat, last: nat)
    requires pos + HEADERS_SIZE <= a.Length
    modifies a
    ensures a[..] == StampAt(old(a[..]), pos, e, shardIdx, b, block, last)
  {
    hide Or, Shl, LE32, BE16, FecInfo, SeqAt, StampAt;
    var frameIndex, fecInfo := LE32(e.frameNum), LE32(FecInfo(shardIdx, b.dataShards, b.percentage));
    var sequenceNumber, blocks := BE16(SeqAt(e, shardIdx)), Or(Shl(block, 4), last) % 0x100;
    for i := 0 to 4
      invariant forall k :: 0 <= k < a.Length ==> (
        a[k] == if pos + 20 <= k < pos + 20 + i then frameIndex[k - pos - 20]
                else if pos + 28 <= k < pos + 28 + i then fecInfo[k - pos - 28]
                else old(a[k]))
    {
      a[pos + 20 + i] := frameIndex[i];
      a[pos + 28 + i] := fecInfo[i];
    }
    a[pos + 26], a[pos + 27] := 0x10, blocks;
    a[pos], a[pos + 2], a[pos + 3] := 0x90, sequenceNumber[0], sequenceNumber[1];
    FieldsLie(old(a[..]), a[..], pos, frameIndex, fecInfo, sequenceNumber, blocks);
    HeaderOfFields(old(a[..]), a[..], pos, e, shardIdx, b, block, last);
  }

  /** Byte `k` of a buffer whose header at `pos` has been rewritten. */
  function FieldAt(s: seq<byte>, pos: nat, frameIndex: seq<byte>, fecInfo: seq<byte>, seqNr: seq<byte>,
      blocks: byte, k: nat): byte
    requires pos + HEADERS_SIZE <= |s| && k < |s| && |frameIndex| == |fecInfo| == 4 && |seqNr| == 2
  {
    if k == pos then 0x90
    else if pos + 2 <= k < pos + 4 then seqNr[k - pos - 2]
    else if pos + 20 <= k < pos + 24 then frameIndex[k - pos - 20]
    else if k == pos + 26 then 0x10
    else if k == pos + 27 then blocks
    else if pos + 28 <= k < pos + 32 then fecInfo[k - pos - 28]
    else s[k]
  }

  /** Byte by byte is field by field. */
  lemma FieldsLie(s: seq<byte>, r: seq<byte>, pos: nat, frameIndex: seq<byte>, fecInfo: seq<byte>, seqNr: seq<byte>,
      blocks: byte)
    requires pos + HEADERS_SIZE <= |s| == |r| && |frameIndex| == |fecInfo| == 4 && |seqNr| == 2
    requires forall k :: 0 <= k < |s| ==> r[k] == FieldAt(s, pos, frameIndex, fecInfo, seqNr, blocks, k)
    ensures r[..pos] == s[..pos] && r[pos + HEADERS_SIZE..] == s[pos + HEADERS_SIZE..]
    ensures r[pos] == 0x90 && r[pos + 1] == s[pos + 1] && r[pos + 2..pos + 4] == seqNr
    ensures r[pos + 4..pos + 20] == s[pos + 4..pos + 20] && r[pos + 20..pos + 24] == frameIndex
    ensures r[pos + 24..pos + 26] == s[pos + 24..pos + 26]
    ensures r[pos + 26] == 0x10 && r[pos + 27] == blocks && r[pos + 28..pos + 32] == fecInfo
  {
    SliceIs(r, pos + 2, seqNr);
    SliceIs(r, pos + 20, frameIndex);
    SliceIs(r, pos + 28, fecInfo);
    SliceSame(s, r, 0, pos);
    SliceSame(s, r, pos + 4, pos + 20);
    SliceSame(s, r, pos + 24, pos + 26);
    SliceSame(s, r, pos + HEADERS_SIZE, |s|);
    assert r[0..pos] == r[..pos] && s[0..pos] == s[..pos];
    assert r[pos + HEADERS_SIZE..|s|] == r[pos + HEADERS_SIZE..] &&
      s[pos + HEADERS_SIZE..|s|] == s[pos + HEADERS_SIZE..];
  }

  lemma SliceSame(s: seq<byte>, r: seq<byte>, i: nat, j: nat)
    requires |s| == |r| && i <= j <= |s|
    requires forall k :: i <= k < j ==> r[k] == s[k]
    ensures r[i..j] == s[i..j]
  {}

  lemma HeaderOfFields(s: seq<byte>, r: seq<byte>, pos: nat, e: Element, shardIdx: nat, b: Blocks,
      block: nat, last: nat)
    requires pos + HEADERS_SIZE <= |s| == |r|
    requires r[..pos] == s[..pos] && r[pos + HEADERS_SIZE..] == s[pos + HEADERS_SIZE..]
    requires r[pos] == 0x90 && r[pos + 1] == s[pos + 1] && r[pos + 2..pos + 4] == BE16(SeqAt(e, shardIdx))
    requires r[pos + 4..pos + 20] == s[pos + 4..pos + 20] && r[pos + 20..pos + 24] == LE32(e.frameNum)
    requires r[pos + 24..pos + 26] == s[pos + 24..pos + 26]
    requires r[pos + 26] == 0x10 && r[pos + 27] == Or(Shl(block, 4), last) % 0x100
    requires r[pos + 28..pos + 32] == LE32(FecInfo(shardIdx, b.dataShards, b.percentage))
    ensures r == StampAt(s, pos, e, shardIdx, b, block, last)
  {
    hide Or, Shl, LE32, BE16, FecInfo, SeqAt, Zeros;
    var h := s[pos..pos + HEADERS_SIZE];
    var t := Stamp(h, e, shardIdx, b.dataShards, b.percentage, block, last);
    PartOf(s, pos, 4, 20);
    PartOf(s, pos, 24, 26);
    var w := r[pos..pos + HEADERS_SIZE];
    HeaderParts(w);
    PartOf(r, pos, 2, 4);
    PartOf(r, pos, 4, 20);
    PartOf(r, pos, 20, 24);
    PartOf(r, pos, 24, 26);
    PartOf(r, pos, 28, 32);
    assert w[0] == r[pos] && w[1] == r[pos + 1] && h[1] == s[pos + 1];
    SliceIs(w, 0, [0x90, h[1]]);
    assert w[26] == r[pos + 26] && w[27] == r[pos + 27];
    SliceIs(w, 26, [0x10, Or(Shl(block, 4), last) % 0x100]);
    assert t == w by { assert Payload(h) == []; }
    assert r == r[..pos] + w + r[pos + HEADERS_SIZE..];
  }

  lemma PartOf(s: seq<byte>, pos: nat, i: nat, j: nat)
    requires i <= j <= HEADERS_SIZE && pos + HEADERS_SIZE <= |s|
    ensures s[pos..pos + HEADERS_SIZE][i..j] == s[pos + i..pos + j]
  {
    var a, b := s[pos..pos + HEADERS_SIZE][i..j], s[pos + i..pos + j];
    assert |a| == |b|;
    assert forall k :: 0 <= k < |a| ==> a[k] == s[pos + i + k] == b[k];
  }

  lemma SliceIs(r: seq<byte>, i: nat, v: seq<byte>)
    requires i + |v| <= |r|
    requires forall k :: 0 <= k < |v| ==> v[k] == r[i + k]
    ensures r[i..i + |v|] == v
  {}

  lemma HeaderParts(w: seq<byte>)
    requires |w| == HEADERS_SIZE
    ensures w == w[..2] + w[2..4] + (w[4..20] + w[20..24]) + w[24..26] + w[26..28] + w[28..32]
  {}

  // ---- the flat buffer of shards

  lemma {:induction false} RowBounds(i: nat, n: nat, size: nat)
    requires i < n
    ensures 0 <= i * size <= (i + 1) * size <= n * size
    ensures (i + 1) * size == i * size + size
  {
    ProductGrows(i + 1, n, size);
    assert (i + 1) * size == i * size + size;
  }

  lemma {:induction false} DataAreaLength(ps: seq<Packet>, size: nat)
    requires Sized(ps, size)
    ensures |DataArea(ps, size)| == |ps| * size
  {
    if ps != [] {
      DataAreaTail(ps, size);
      DataAreaLength(ps[1..], size);
      assert |ps| * size == size + (|ps| - 1) * size;
    }
  }

  lemma DataAreaTail(ps: seq<Packet>, size: nat)
    requires ps != []
    ensures DataArea(ps, size) == Extended(ps[0], size) + DataArea(ps[1..], size)
  {
    var rows := seq(|ps|, i requires 0 <= i < |ps| => Extended(ps[i], size));
    assert rows[1..] == seq(|ps[1..]|, i requires 0 <= i < |ps[1..]| => Extended(ps[1..][i], size));
  }

  /** Data shard `i` is packet `i`, extended with zeros to the size of a shard. */
  lemma {:induction false} DataShardIsPacket(ps: seq<Packet>, size: nat, i: nat)
    requires Sized(ps, size) && i < |ps|
    ensures |DataArea(ps, size)| == |ps| * size
    ensures i * size <= (i + 1) * size <= |ps| * size
    ensures DataArea(ps, size)[i * size..(i + 1) * size] == Extended(ps[i], size)
  {
    DataAreaLength(ps, size);
    RowBounds(i, |ps|, size);
    DataAreaTail(ps, size);
    if i > 0 {
      DataShardIsPacket(ps[1..], size, i - 1);
      assert i * size == (i - 1) * size + size;
    }
  }

  /** Only the last packet may be short, so padding the unfolded list at its end extends that packet. */
  lemma {:induction false} PaddedUnfold(ps: seq<Packet>, size: nat)
    requires ps != [] && Sized(ps, size)
    ensures (|ps| - 1) * size < |Flatten(ps)| <= |ps| * size
    ensures Flatten(ps) + Zeros(|ps| * size - |Flatten(ps)|) == DataArea(ps, size)
  {
    var rest, n := ps[1..], (|ps| - 1) * size;
    DataAreaTail(ps, size);
    assert |ps| * size == size + n;
    if |ps| == 1 {
      OnePacket(ps, size);
    } else {
      PaddedUnfold(rest, size);
      hide DataArea, Flatten, Zeros;
      assert n == size + (|ps| - 2) * size;
      FirstIsWhole(ps, size);
      assert Flatten(ps) + Zeros(n + size - |Flatten(ps)|) == ps[0] + (Flatten(rest) + Zeros(n - |Flatten(rest)|));
    }
  }

  lemma OnePacket(ps: seq<Packet>, size: nat)
    requires |ps| == 1 && Sized(ps, size)
    ensures Flatten(ps) == ps[0] && DataArea(ps[1..], size) == []
      && Extended(ps[0], size) == ps[0] + Zeros(size - |ps[0]|)
  {
    assert ps[1..] == [];
  }

  lemma FirstIsWhole(ps: seq<Packet>, size: nat)
    requires |ps| > 1 && Sized(ps, size)
    ensures Flatten(ps) == ps[0] + Flatten(ps[1..]) && |ps[0]| == size && Extended(ps[0], size) == ps[0]
  {}

  lemma {:induction false} FullWhenAligned(n: nat, size: nat, len: nat)
    requires n > 0 && size > 0 && (n - 1) * size < len <= n * size
    ensures len % size == 0 ==> len == n * size
  {
    if len % size == 0 {
      var q := len / size;
      assert len == q * size;
      if q <= n - 1 {
        ProductGrows(q, n - 1, size);
      }
      ProductGrows(n, q, size);
    }
  }

  /** `gst_buffer_list_unfold` */
  method Unfold(ps: seq<Packet>) returns (payload: seq<byte>)
    ensures payload == Flatten(ps)
  {
    payload := [];
    for i := 0 to |ps|
      invariant payload == Flatten(ps[..i])
    {
      payload := payload + ps[i];
      assert ps[..i + 1] == ps[..i] + [ps[i]];
      FlattenSnoc(ps[..i], ps[i]);
    }
    assert ps[..|ps|] == ps;
  }

  lemma {:induction false} ShardsTotal(d: nat, m: nat, size: nat)
    ensures (d + m) * size == d * size + m * size
  {
  }

  /** Lays the packets and room for their parity out in one buffer. */
  method BuildShards(ps: seq<Packet>, b: Blocks) returns (flat: array<byte>)
    requires ps != [] && b.dataShards == |ps| && b.blockSize > 0 && Sized(ps, b.blockSize)
    ensures fresh(flat)
    ensures flat[..] == DataArea(ps, b.blockSize) + Zeros(b.parityShards * b.blockSize)
    ensures flat.Length == (b.dataShards + b.parityShards) * b.blockSize
  {
    var payload := Unfold(ps);
    var dataSize, paritySize := b.dataShards * b.blockSize, b.parityShards * b.blockSize;
    PaddedUnfold(ps, b.blockSize);
    FullWhenAligned(|ps|, b.blockSize, |payload|);
    DataAreaLength(ps, b.blockSize);
    ShardsTotal(b.dataShards, b.parityShards, b.blockSize);
    if |payload| % b.blockSize != 0 {
      payload := payload + Zeros(dataSize - |payload|);
    } else {
      assert payload == Flatten(ps) + Zeros(0);
    }
    payload := payload + Zeros(paritySize);
    flat := new byte[|payload|](i requires 0 <= i < |payload| => payload[i]);
  }

  function ParityArea(area: seq<byte>, b: Blocks, rs: Encoder): (r: seq<byte>)
    ensures |r| == b.parityShards * b.blockSize
  {
    seq(b.parityShards * b.blockSize, k requires 0 <= k => rs(area, b.dataShards, b.parityShards, k))
  }

  /** Reed-Solomon encoding: reads the data shards, writes the parity shards and nothing else. */
  method Encode(flat: array<byte>, b: Blocks, rs: Encoder)
    requires flat.Length == (b.dataShards + b.parityShards) * b.blockSize
    requires 0 <= b.dataShards * b.blockSize <= flat.Length
    modifies flat
    ensures flat[..] == old(flat[..b.dataShards * b.blockSize])
                        + ParityArea(old(flat[..b.dataShards * b.blockSize]), b, rs)
  {
    var size := b.dataShards * b.blockSize;
    var area := flat[..size];
    var parity := ParityArea(area, b, rs);
    ShardsTotal(b.dataShards, b.parityShards, b.blockSize);
    for k := 0 to |parity|
      invariant flat[..size] == area
      invariant flat[size..size + k] == parity[..k]
    {
      flat[size + k] := parity[k];
      assert parity[..k + 1] == parity[..k] + [parity[k]];
    }
    assert flat[..] == flat[..size] + flat[size..size + |parity|];
  }

  /** Stamping a header inside a buffer stamps the packet that starts there and leaves what follows it. */
  lemma {:induction false} StampedInPlace(s: seq<byte>, pos: nat, size: nat, e: Element, i: nat, b: Blocks,
      block: nat, last: nat)
    requires size >= HEADERS_SIZE && pos + size <= |s|
    ensures var r := StampAt(s, pos, e, i, b, block, last);
      && r[pos..pos + size] == Stamp(s[pos..pos + size], e, i, b.dataShards, b.percentage, block, last)
      && r[pos + size..] == s[pos + size..]
  {
    hide Stamp;
    var p, h := s[pos..pos + size], s[pos..pos + HEADERS_SIZE];
    assert h == p[..HEADERS_SIZE];
    StampOfHeader(p, e, i, b.dataShards, b.percentage, block, last);
    var stamped := Stamp(h, e, i, b.dataShards, b.percentage, block, last);
    assert p[HEADERS_SIZE..] == s[pos + HEADERS_SIZE..pos + size];
    SpliceParts(s, pos, size, stamped);
  }

  /** Stamping rewrites the header and keeps the payload. */
  lemma StampOfHeader(p: Packet, e: Element, i: nat, dataShards: nat, percentage: nat, block: nat, last: nat)
    ensures Stamp(p, e, i, dataShards, percentage, block, last)
         == Stamp(p[..HEADERS_SIZE], e, i, dataShards, percentage, block, last) + p[HEADERS_SIZE..]
  {
    hide Or, Shl, LE32, BE16, FecInfo, SeqAt;
    var h := p[..HEADERS_SIZE];
    assert p[1] == h[1] && p[4..20] == h[4..20] && p[24..26] == h[24..26] && h[HEADERS_SIZE..] == [];
  }

  lemma SpliceParts(s: seq<byte>, pos: nat, size: nat, b: seq<byte>)
    requires |b| <= size && pos + size <= |s|
    ensures var r := Overwrite(s, pos, b);
            r[pos..pos + size] == b + s[pos + |b|..pos + size] && r[pos + size..] == s[pos + size..]
  {}

  lemma {:induction false} ParityRowAt(area: seq<byte>, b: Blocks, j: nat, rs: Encoder)
    requires j < b.parityShards
    ensures var start := RowStart(j, b.blockSize);
            start + b.blockSize <= b.parityShards * b.blockSize
            && ParityArea(area, b, rs)[start..start + b.blockSize] == ParityRow(area, b, j, rs)
  {
    RowBounds(j, b.parityShards, b.blockSize);
  }

  method StampPacket(p: Packet, e: Element, i: nat, b: Blocks, block: nat, last: nat) returns (r: Packet)
    ensures r == Stamp(p, e, i, b.dataShards, b.percentage, block, last)
  {
    var a := new byte[|p|](k requires 0 <= k < |p| => p[k]);
    assert a[..] == p;
    UpdateFecInfo(a, 0, e, i, b, block, last);
    StampedInPlace(p, 0, |p|, e, i, b, block, last);
    assert p[0..|p|] == p;
    r := a[..];
    assert a[0..|p|] == a[..];
  }

  /** Rewrites the headers of the data packets, one after the other. */
  method StampDataPackets(ps: seq<Packet>, e: Element, b: Blocks, block: nat, last: nat) returns (out: seq<Packet>)
    ensures out == StampedData(ps, e, b, block, last)
  {
    out := ps;
    ghost var stamped := StampedData(ps, e, b, block, last);
    for i := 0 to |ps|
      invariant |out| == |ps|
      invariant forall k :: 0 <= k < |ps| ==> out[k] == if k < i then stamped[k] else ps[k]
    {
      var p := StampPacket(out[i], e, i, b, block, last);
      out := out[i := p];
    }
  }

  /** Stamps one parity shard where it lies in the flat buffer and copies it out as a packet. */
  method TakeParityPacket(flat: array<byte>, position: nat, e: Element, i: nat, b: Blocks, block: nat, last: nat)
    returns (p: Packet)
    requires b.blockSize >= HEADERS_SIZE && position + b.blockSize <= flat.Length
    modifies flat
    ensures p == Stamp(old(flat[position..position + b.blockSize]), e, i, b.dataShards, b.percentage, block, last)
    ensures flat[position + b.blockSize..] == old(flat[position + b.blockSize..])
  {
    ghost var s := flat[..];
    StampedInPlace(s, position, b.blockSize, e, i, b, block, last);
    UpdateFecInfo(flat, position, e, i, b, block, last);
    p := flat[position..position + b.blockSize];
    assert s[position..position + b.blockSize] == old(flat[position..position + b.blockSize]);
    assert p == flat[..][position..position + b.blockSize];
    assert flat[position + b.blockSize..] == flat[..][position + b.blockSize..] == s[position + b.blockSize..];
  }

  lemma StampedRowAt(area: seq<byte>, e: Element, b: Blocks, block: nat, last: nat, rs: Encoder, j: nat)
    requires b.blockSize >= HEADERS_SIZE && j < b.parityShards
    ensures StampedParity(area, e, b, block, last, rs)[j]
         == Stamp(ParityRow(area, b, j, rs), e, b.dataShards + j, b.dataShards, b.percentage, block, last)
  {
    hide Stamp, ParityRow;
  }

  /** The parity area is the parity rows, one after the other. */
  ghost predicate IsParity(parity: seq<byte>, area: seq<byte>, b: Blocks, rs: Encoder) {
    |parity| == RowStart(b.parityShards, b.blockSize)
    && forall j {:trigger ParityRow(area, b, j, rs)} :: 0 <= j < b.parityShards ==>
      RowIs(parity, j, b.blockSize, ParityRow(area, b, j, rs))
  }

  ghost predicate RowIs(parity: seq<byte>, j: nat, size: nat, row: seq<byte>) {
    RowStart(j, size) + size <= |parity| && parity[RowStart(j, size)..RowStart(j, size) + size] == row
  }

  lemma ParityAreaIs(area: seq<byte>, b: Blocks, rs: Encoder)
    ensures IsParity(ParityArea(area, b, rs), area, b, rs)
  {
    hide ParityArea, ParityRow;
    forall j | 0 <= j < b.parityShards
      ensures RowIs(ParityArea(area, b, rs), j, b.blockSize, ParityRow(area, b, j, rs))
    {
      ParityRowAt(area, b, j, rs);
    }
  }

  method TakeParityPackets(flat: array<byte>, ghost area: seq<byte>, ghost parity: seq<byte>, e: Element, b: Blocks,
                           block: nat, last: nat, rs: Encoder)
    returns (out: seq<Packet>)
    requires b.blockSize >= HEADERS_SIZE && |area| == RowStart(b.dataShards, b.blockSize)
    requires flat[..] == area + parity && IsParity(parity, area, b, rs)
    modifies flat
    ensures out == StampedParity(area, e, b, block, last, rs)
  {
    FirstRow(b.blockSize);
    hide Stamp, ParityRow, StampedParity, RowStart;
    ghost var stamped := StampedParity(area, e, b, block, last, rs);
    out := [];
    for j := 0 to b.parityShards
      invariant RowStart(j, b.blockSize) <= |parity| && flat.Length == |area| + |parity|
      invariant flat[|area| + RowStart(j, b.blockSize)..] == parity[RowStart(j, b.blockSize)..]
      invariant out == stamped[..j]
    {
      StampedRowAt(area, e, b, block, last, rs, j);
      RowStarts(b.dataShards, j, b.parityShards, b.blockSize);
      assert RowIs(parity, j, b.blockSize, ParityRow(area, b, j, rs));
      var position := RowStart(b.dataShards + j, b.blockSize);
      RowOf(flat[..], |area|, parity, RowStart(j, b.blockSize), b.blockSize);
      var p := TakeParityPacket(flat, position, e, b.dataShards + j, b, block, last);
      out := out + [p];
    }
  }

  lemma FirstRow(size: nat)
    ensures RowStart(0, size) == 0
  {}

  /** Where a row of the flat buffer starts. */
  function RowStart(row: nat, size: nat): nat {
    row * size
  }

  lemma RowStarts(d: nat, j: nat, m: nat, size: nat)
    requires j < m
    ensures RowStart(d + j, size) == RowStart(d, size) + RowStart(j, size)
    ensures RowStart(j + 1, size) == RowStart(j, size) + size <= RowStart(m, size)
  {
    RowBounds(j, m, size);
    ShardsTotal(d, j, size);
  }

  /** The next row of what is left of the parity area. */
  lemma RowOf(s: seq<byte>, base: nat, parity: seq<byte>, offset: nat, size: nat)
    requires |s| == base + |parity| && offset + size <= |parity| && s[base + offset..] == parity[offset..]
    ensures s[base + offset..base + offset + size] == parity[offset..offset + size]
    ensures s[base + offset + size..] == parity[offset + size..]
  {
    assert s[base + offset..base + offset + size] == s[base + offset..][..size];
    assert s[base + offset + size..] == s[base + offset..][size..];
    assert parity[offset..offset + size] == parity[offset..][..size]
      && parity[offset + size..] == parity[offset..][size..];
  }

  class RtpMoonlightPayVideo {
    var cfg: Settings
    var curSeqNumber: uint32
    var frameNum: uint32

    /** A new element has the registered defaults and both counters at zero. */
    constructor ()
      ensures Now() == Element(Config(1392, true, 20, 2), 0, 0)
    {
      cfg, curSeqNumber, frameNum := Config(1392, true, 20, 2), 0, 0;
    }

    function Now(): Element
      reads this
    {
      Element(cfg, curSeqNumber, frameNum)
    }

    /** The payload of one packet: its region of the buffer, padded if asked to. */
    method CopyPayload(full: seq<byte>, packetNr: nat) returns (payload: seq<byte>)
      requires packetNr < PacketCount(cfg, full)
      ensures payload == PacketPayload(cfg, full, packetNr)
    {
      var payloadSize := cfg.payloadSize - MAX_RTP_HEADER_SIZE;
      PacketBounds(|full|, payloadSize, packetNr);
      var begin := packetNr * payloadSize;
      assert (packetNr + 1) * payloadSize == begin + payloadSize;
      var remaining := |full| - begin;
      payload := full[begin..begin + Min(remaining, payloadSize)];
      if remaining < payloadSize && cfg.addPadding {
        payload := payload + Zeros(payloadSize - remaining);
      }
    }

    method GenerateRtpPackets(full: seq<byte>) returns (packets: seq<Packet>)
      ensures packets == RtpPackets(Now(), full)
    {
      hide PacketPayload, PacketCount, NewPacket;
      var total := PacketCount(cfg, full);
      packets := [];
      for packetNr := 0 to total
        invariant packets == RtpPackets(Now(), full)[..packetNr]
      {
        var payload := CopyPayload(full, packetNr);
        packets := packets + [NewPacket(Now(), packetNr, total, payload)];
      }
    }

    method GenerateFecPackets(packets: seq<Packet>, block: nat, last: nat, rs: Encoder) returns (out: seq<Packet>)
      requires packets != [] && Sized(packets, cfg.BlockSize())
      ensures out == Protect(Now(), packets, block, last, rs)
    {
      var b := DetermineSplit(cfg, |packets|);
      if b.dataShards + b.parityShards > DATA_SHARDS_MAX {
        return packets;
      }
      var flat := BuildShards(packets, b);
      ghost var area := DataArea(packets, b.blockSize);
      DataAreaLength(packets, b.blockSize);
      ShardsTotal(b.dataShards, b.parityShards, b.blockSize);
      assert flat[..b.dataShards * b.blockSize] == area;
      Encode(flat, b, rs);
      out := StampDataPackets(packets, Now(), b, block, last);
      ParityAreaIs(area, b, rs);
      var parity := TakeParityPackets(flat, area, ParityArea(area, b, rs), Now(), b, block, last, rs);
      out := out + parity;
    }

    /** `gst_buffer_list_sub` */
    method ListSub(packets: seq<Packet>, start: nat, end: nat) returns (res: seq<Packet>)
      requires start <= end <= |packets|
      ensures res == packets[start..end]
    {
      res := [];
      for idx := start to end
        invariant res == packets[start..idx]
      {
        res := res + [packets[idx]];
      }
    }

    /** One macro block. */
    method GenerateBlock(packets: seq<Packet>, block: nat, perBlock: nat, rs: Encoder)
      returns (blockPackets: seq<Packet>)
      requires |packets| > SINGLE_BLOCK_MAX && block < NR_BLOCKS && perBlock == PerBlock(|packets|)
      requires Sized(packets, cfg.BlockSize())
      modifies this`curSeqNumber
      ensures blockPackets == Protect(old(Now()), SubList(packets, block), block, LAST_BLOCK_INDEX, rs)
      ensures Now() == Advance(old(Now()), |blockPackets|)
    {
      hide Protect, PerBlock;
      BlockBounds(|packets|, block, perBlock);
      blockPackets := ListSub(packets, block * perBlock, Min((block + 1) * perBlock, |packets|));
      PartSized(packets, cfg.BlockSize(), block * perBlock, Min((block + 1) * perBlock, |packets|));
      assert blockPackets == SubList(packets, block);
      blockPackets := GenerateFecPackets(blockPackets, block, LAST_BLOCK_INDEX, rs);
      curSeqNumber := (curSeqNumber + |blockPackets|) % TWO_32;
    }

    method GenerateFecMultiBlocks(packets: seq<Packet>, rs: Encoder) returns (final: seq<Packet>)
      requires |packets| > SINGLE_BLOCK_MAX && Sized(packets, cfg.BlockSize())
      modifies this`curSeqNumber
      ensures Output(final, Now()) == MultiBlocks(old(Now()), packets, 0, rs)
    {
      hide Protect, MultiBlocks, SubList, PerBlock, Sized, Advance;
      final := [];
      var perBlock := PerBlock(|packets|);
      ghost var all := MultiBlocks(Now(), packets, 0, rs);
      for block := 0 to NR_BLOCKS
        invariant unchanged(this`cfg) && unchanged(this`frameNum)
        invariant var rest := MultiBlocks(Now(), packets, block, rs); Output(final + rest.packets, rest.after) == all
      {
        ghost var before, soFar := Now(), final;
        var blockPackets := GenerateBlock(packets, block, perBlock, rs);
        final := final + blockPackets;
        BlockDone(before, packets, block, rs, soFar);
      }
      BlocksDone(Now(), packets, rs);
    }

    /** One frame in, its packets out; the counters move on to the next frame. */
    method SplitIntoRtp(isKey: bool, frame: seq<byte>, rs: Encoder) returns (packets: seq<Packet>)
      modifies this`curSeqNumber, this`frameNum
      ensures Output(packets, Now()) == VideoRtp.SplitIntoRtp(old(Now()), isKey, frame, rs)
    {
      hide Protect, MultiBlocks;
      var full := FullPayload(cfg, isKey, frame);
      PacketBoundsPositive(cfg, full);
      packets := GenerateRtpPackets(full);
      if cfg.fecPercentage > 0 {
        SizedPackets(Now(), full);
        if |packets| > SINGLE_BLOCK_MAX {
          packets := GenerateFecMultiBlocks(packets, rs);
        } else {
          packets := GenerateFecPackets(packets, 0, 0, rs);
          curSeqNumber := (curSeqNumber + |packets|) % TWO_32;
        }
      }
      frameNum := (frameNum + 1) % TWO_32;
    }
  }

  lemma PartSized(ps: seq<Packet>, size: nat, i: nat, j: nat)
    requires Sized(ps, size) && i <= j <= |ps|
    ensures Sized(ps[i..j], size)
  {}

  /** A block put behind those done so far leaves the later ones to do. */
  lemma BlockDone(e: Element, ps: seq<Packet>, block: nat, rs: Encoder, soFar: seq<Packet>)
    requires |ps| > SINGLE_BLOCK_MAX && block < NR_BLOCKS
    ensures var first := Protect(e, SubList(ps, block), block, LAST_BLOCK_INDEX, rs);
            var (rest, later) := (MultiBlocks(e, ps, block, rs), MultiBlocks(Advance(e, |first|), ps, block + 1, rs));
            soFar + rest.packets == soFar + first + later.packets && rest.after == later.after
  {
    hide Protect, SubList, Advance;
    var first := Protect(e, SubList(ps, block), block, LAST_BLOCK_INDEX, rs);
    var later := MultiBlocks(Advance(e, |first|), ps, block + 1, rs).packets;
    assert soFar + (first + later) == soFar + first + later;
  }

  lemma BlocksDone(e: Element, ps: seq<Packet>, rs: Encoder)
    requires |ps| > SINGLE_BLOCK_MAX
    ensures MultiBlocks(e, ps, NR_BLOCKS, rs) == Output([], e)
  {}

  lemma BlockBounds(n: nat, block: nat, perBlock: nat)
    requires n > SINGLE_BLOCK_MAX && block < NR_BLOCKS && perBlock == PerBlock(n)
    ensures 0 <= block * perBlock <= Min((block + 1) * perBlock, n) <= n
  {
    assert block == 0 || block == 1 || block == 2;
    assert 0 * perBlock == 0 && 1 * perBlock == perBlock && 2 * perBlock <= n;
  }

  lemma {:induction false} SizedPackets(e: Element, full: seq<byte>)
    ensures Sized(RtpPackets(e, full), e.cfg.BlockSize())
  {
    var n, c := PacketCount(e.cfg, full), e.cfg.Capacity();
    forall k | 0 <= k < n
      ensures |PacketPayload(e.cfg, full, k)| <= c
      ensures k + 1 < n ==> |PacketPayload(e.cfg, full, k)| == c
    {
      PacketBounds(|full|, c, k);
      assert (k + 1) * c == k * c + c;
    }
  }
}
