/** What a client reads off the audio packets, and what it can repair when some are lost. */
module AudioReceiver {
  import opened Bits
  import opened Erasure
  import opened Audio

  /** The most significant byte first. */
  function Big16(s: seq<byte>, at: nat): nat
    requires at + 2 <= |s|
  {
    0x100 * s[at] as int + s[at + 1]
  }

  function Big32(s: seq<byte>, at: nat): nat
    requires at + 4 <= |s|
  {
    0x100_0000 * s[at] as int + 0x1_0000 * s[at + 1] as int + 0x100 * s[at + 2] as int + s[at + 3]
  }

  /** The initialisation vector of packet number `n`: the sum in the first four bytes, and zeros. */
  ghost predicate IsVector(v: seq<byte>, iv: uint32, n: nat) {
    |v| == 16 && Big32(v, 0) == (iv + n) % TWO_32 && forall k :: 4 <= k < 16 ==> v[k] == 0
  }

  lemma BytesOf(x: uint32)
    ensures Big32(BE32(x), 0) == x
  {
    var hi, lo := x / TWO_16, x % TWO_16;
    assert BE32(x) == [hi / 0x100, hi % 0x100, lo / 0x100, lo % 0x100];
  }

  lemma ReadsBig16(s: seq<byte>, at: nat, n: nat)
    requires at + 2 <= |s| && s[at..at + 2] == BE16(n)
    ensures Big16(s, at) == n % TWO_16
  {
    NumberRead(n);
    assert s[at] == s[at..at + 2][0] && s[at + 1] == s[at..at + 2][1];
  }

  lemma ReadsBig32(s: seq<byte>, at: nat, x: uint32)
    requires at + 4 <= |s| && s[at..at + 4] == BE32(x)
    ensures Big32(s, at) == x
  {
    hide BE32;
    BytesOf(x);
    var b := s[at..at + 4];
    assert b[0] == s[at] && b[1] == s[at + 1] && b[2] == s[at + 2] && b[3] == s[at + 3];
  }

  lemma VectorIs(iv: uint32, n: nat)
    ensures IsVector(DeriveIv(iv, n), iv, n)
  {
    hide BE32, Big32;
    assert DeriveIv(iv, n)[0..4] == BE32((iv + n) % TWO_32);
    ReadsBig32(DeriveIv(iv, n), 0, (iv + n) % TWO_32);
  }

  lemma OneVector(v: seq<byte>, w: seq<byte>, iv: uint32, n: nat)
    requires IsVector(v, iv, n) && IsVector(w, iv, n)
    ensures v == w
  {
    SameWords(v[0], v[1], v[2], v[3], w[0], w[1], w[2], w[3]);
  }

  lemma SameWords(a: byte, b: byte, c: byte, d: byte, a': byte, b': byte, c': byte, d': byte)
    requires 0x100_0000 * a as int + 0x1_0000 * b as int + 0x100 * c as int + d
          == 0x100_0000 * a' as int + 0x1_0000 * b' as int + 0x100 * c' as int + d'
    ensures a == a' && b == b' && c == c' && d == d'
  {}

  /** The header of packet `i`, byte by byte: type, number and time. */
  ghost predicate DataHeader(p: seq<byte>, i: nat, duration: nat)
    requires |p| >= 12
  {
    && p[0] == 0x80 && p[1] == 97 && Big16(p, 2) == i % TWO_16 && Big32(p, 4) == i % TWO_16 * duration
    && forall k :: 8 <= k < 12 ==> p[k] == 0
  }

  lemma HeaderReads(cfg: Settings, i: nat, payload: seq<byte>)
    requires cfg.InRange()
    ensures var p := DataPacket(cfg, i % TWO_16, payload);
      DataHeader(p, i, cfg.packetDuration)
      && p[12..] == if cfg.encrypts then cfg.cipher(DeriveIv(cfg.iv, i % TWO_16), payload) else payload
  {
    hide DeriveIv, BE32, BE16, Big16, Big32;
    var n, p := i % TWO_16, DataPacket(cfg, i % TWO_16, payload);
    TimeFits(n, cfg.packetDuration);
    HeaderFields(cfg, n, payload);
    ReadsBig16(p, 2, n);
    ReadsBig32(p, 4, cfg.Timestamp(n));
  }

  lemma TimeFits(n: Counter, duration: nat)
    requires duration <= 60
    ensures n * duration < TWO_32
  {
    ProductGrows(duration, 60, n);
    assert duration * n == n * duration;
  }

  /** Each input comes first in what is sent for it, under its number and time, and a client that knows the key gets
      it back: with the vector of that number if the stream is encrypted, and as it is otherwise. */
  lemma InputRestored(s: Stream, i: nat, rs: Encoder, decipher: (seq<byte>, seq<byte>) -> seq<byte>, v: seq<byte>)
    requires s.Valid() && i < |s.inputs| && IsVector(v, s.cfg.iv, i % TWO_16)
    requires forall x :: decipher(v, s.cfg.cipher(v, x)) == x
    ensures var packets := s.Emitted(i, rs);
      && packets != [] && |packets[0]| >= 12 && DataHeader(packets[0], i, s.cfg.packetDuration)
      && (if s.cfg.encrypts then decipher(v, packets[0][12..]) else packets[0][12..]) == s.inputs[i]
  {
    hide DataPacket, FecPacket, DeriveIv, Stream.Slot, Stream.Group, IsVector, DataHeader;
    HeaderReads(s.cfg, i, s.inputs[i]);
    VectorIs(s.cfg.iv, i % TWO_16);
    OneVector(v, DeriveIv(s.cfg.iv, i % TWO_16), s.cfg.iv, i % TWO_16);
  }

  /** The header of parity packet `j` of the group that input `i` completes: its own number follows the last packet's,
      and it names the number and the time of the group's first packet. */
  ghost predicate ParityHeader(p: seq<byte>, i: nat, j: nat, duration: nat)
    requires |p| >= 24 && i >= 3
  {
    && p[0] == 0x80 && p[1] == 127 && Big16(p, 2) == (i + j) % TWO_16 && (forall k :: 4 <= k < 12 ==> p[k] == 0)
    && p[12] == j && p[13] == 97 && Big16(p, 14) == (i - 3) % TWO_16 && Big32(p, 16) == (i - 3) % TWO_16 * duration
    && forall k :: 20 <= k < 24 ==> p[k] == 0
  }

  lemma FecHeaderReads(cfg: Settings, i: nat, j: nat)
    requires cfg.InRange() && i % DATA_SHARDS == DATA_SHARDS - 1 && j < FEC_SHARDS
    ensures i >= 3 && i % TWO_16 >= 3 && ParityHeader(FecHeader(cfg, i % TWO_16, j), i, j, cfg.packetDuration)
  {
    hide BE32, BE16, Big16, Big32;
    GroupEnds(i);
    var n := i % TWO_16;
    GroupStarts(i, j);
    TimeFits(n - 3, cfg.packetDuration);
    var h := FecHeader(cfg, n, j);
    FecHeaderFields(cfg, n, j);
    ReadsBig16(h, 2, n + j);
    ReadsBig16(h, 14, n - 3);
    ReadsBig32(h, 16, cfg.Timestamp(n - 3));
  }

  lemma GroupStarts(i: nat, j: nat)
    requires i >= 3 && i % TWO_16 >= 3
    ensures (i - 3) % TWO_16 == i % TWO_16 - 3 && (i + j) % TWO_16 == (i % TWO_16 + j) % TWO_16
  {}

  // ---- repairing a group

  /** The encoder codes every column by itself. */
  ghost predicate Columnwise(rs: Encoder, code: Code) {
    forall rows: seq<seq<byte>>, j: nat, k: nat |
        |rows| == 4 && j < 2 && k < |rows[0]| && |rows[0]| == |rows[1]| == |rows[2]| == |rows[3]| ::
      rs(rows, j, k) == code.parity([rows[0][k], rows[1][k], rows[2][k], rows[3][k]], 2, j)
  }

  /** The six packets of the group that input `i` completes. */
  function GroupPackets(s: Stream, i: nat, rs: Encoder): (ps: seq<seq<byte>>)
    requires s.Valid() && i < |s.inputs| && i % DATA_SHARDS == DATA_SHARDS - 1
    ensures |ps| == 6
  {
    hide Stream.Valid, Stream.Slot;
    GroupEnds(i);
    EmittedCount(s, i, rs);
    [s.Emitted(i - 3, rs)[0], s.Emitted(i - 2, rs)[0], s.Emitted(i - 1, rs)[0]] + s.Emitted(i, rs)
  }

  lemma PacketsOfGroup(s: Stream, i: nat, rs: Encoder)
    requires s.Valid() && i < |s.inputs| && i % DATA_SHARDS == DATA_SHARDS - 1
    ensures i >= 3 && i % TWO_16 >= 3
    ensures var ps := GroupPackets(s, i, rs);
      && ps[0] == s.Data(i - 3) && ps[1] == s.Data(i - 2) && ps[2] == s.Data(i - 1) && ps[3] == s.Data(i)
      && forall r :: 4 <= r < 6 ==> ps[r] == FecPacket(s.cfg, i % TWO_16, r - 4, s.Group(i), |s.Data(i)|, rs)
  {
    hide Stream.Valid, Stream.Slot, Stream.Data, Stream.Group, FecPacket;
    GroupEnds(i);
    EmittedParity(s, i, rs, 0);
    EmittedParity(s, i, rs, 1);
  }

  /** The byte at offset `x` of the payload: behind 12 bytes of header, or behind 24 for parity. */
  function PayloadAt(ps: seq<seq<byte>>, r: nat, x: nat): byte {
    var at := if r < 4 then 12 + x else 24 + x;
    if r < |ps| && at < |ps[r]| then ps[r][at] else 0
  }

  function Known(ps: seq<seq<byte>>, arrived: set<nat>, x: nat): map<nat, byte> {
    map r | r in arrived :: PayloadAt(ps, r, x)
  }

  lemma PacketIsSymbol(s: Stream, i: nat, rs: Encoder, code: Code, r: nat, x: nat)
    requires s.Valid() && i < |s.inputs| && i % DATA_SHARDS == DATA_SHARDS - 1 && r < 6
    requires i >= 3 && |s.Data(i - 3)| == |s.Data(i - 2)| == |s.Data(i - 1)| == |s.Data(i)| && 12 + x < |s.Data(i)|
    requires Columnwise(rs, code)
    ensures var ps := GroupPackets(s, i, rs);
      PayloadAt(ps, r, x)
      == Symbol(code, [PayloadAt(ps, 0, x), PayloadAt(ps, 1, x), PayloadAt(ps, 2, x), PayloadAt(ps, 3, x)], 2, r)
  {
    hide Stream.Valid, Stream.Slot, Stream.Data, Stream.Group, FecHeader, GroupPackets;
    PacketsOfGroup(s, i, rs);
    EqualSizes(s, i);
    if r >= 4 {
      var p := GroupPackets(s, i, rs)[r];
      var row := ParityRow(s.Group(i), r - 4, |s.Data(i)|, rs);
      assert p[24..] == row[12..];
      assert p[24 + x] == p[24..][x] && row[12 + x] == row[12..][x];
    }
  }

  /** With packets of one size, any four of a group's six give back every byte of the payloads of its data packets. */
  lemma GroupRecovered(s: Stream, i: nat, rs: Encoder, code: Code, arrived: set<nat>, x: nat)
    requires s.Valid() && i < |s.inputs| && i % DATA_SHARDS == DATA_SHARDS - 1
    requires i >= 3 && |s.Data(i - 3)| == |s.Data(i - 2)| == |s.Data(i - 1)| == |s.Data(i)| && 12 + x < |s.Data(i)|
    requires Columnwise(rs, code) && Solves(code, 4, 2)
    requires |arrived| >= 4 && forall r <- arrived :: r < 6
    ensures var ps := GroupPackets(s, i, rs);
      code.solve(Known(ps, arrived, x), 4, 2)
      == [PayloadAt(ps, 0, x), PayloadAt(ps, 1, x), PayloadAt(ps, 2, x), PayloadAt(ps, 3, x)]
  {
    hide Stream.Valid, Stream.Data, GroupPackets, Columnwise, Symbol, PayloadAt;
    var ps := GroupPackets(s, i, rs);
    var known := Known(ps, arrived, x);
    var col := [PayloadAt(ps, 0, x), PayloadAt(ps, 1, x), PayloadAt(ps, 2, x), PayloadAt(ps, 3, x)];
    assert known.Keys == arrived;
    forall r | r in arrived
      ensures known[r] == Symbol(code, col, 2, r)
    {
      PacketIsSymbol(s, i, rs, code, r, x);
    }
  }

  /** The header of each parity packet. */
  lemma ParityReads(s: Stream, i: nat, rs: Encoder, j: nat)
    requires s.Valid() && i < |s.inputs| && i % DATA_SHARDS == DATA_SHARDS - 1 && j < 2
    ensures i >= 3
    ensures var p := GroupPackets(s, i, rs)[4 + j];
      |p| == |s.Data(i)| + 12 && ParityHeader(p[..24], i, j, s.cfg.packetDuration)
  {
    hide Stream.Valid, Stream.Slot, Stream.Data, Stream.Group, FecHeader, GroupPackets, ParityHeader, ParityRow;
    ValidRange(s);
    PacketsOfGroup(s, i, rs);
    FecHeaderReads(s.cfg, i, j);
    var p := GroupPackets(s, i, rs)[4 + j];
    assert p[..24] == FecHeader(s.cfg, i % TWO_16, j);
  }

  lemma ValidRange(s: Stream)
    requires s.Valid()
    ensures s.cfg.InRange()
  {}
}
