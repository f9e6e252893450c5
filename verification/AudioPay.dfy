/** The audio payloader element and its ring of rows. */
module AudioPay {
  import opened Bits
  import opened Audio

  class RtpMoonlightPayAudio {
    const cfg: Settings
    const rs: Encoder
    var curSeqNumber: Counter
    const packetsBuffer: array2<byte>

    /** History: what the data rows held at first, and every input so far. */
    ghost const initial: seq<seq<byte>>
    ghost var sent: seq<seq<byte>>

    function Row(r: nat, n: nat): (s: seq<byte>)
      requires r < packetsBuffer.Length0 && n <= packetsBuffer.Length1
      reads packetsBuffer
      ensures |s| == n
    {
      var rows := packetsBuffer;
      seq(n, k requires 0 <= k < n reads rows => rows[r, k])
    }

    ghost predicate Shape() {
      packetsBuffer.Length0 == DATA_SHARDS + FEC_SHARDS && packetsBuffer.Length1 == MAX_BLOCK_SIZE
    }

    ghost function History(): Stream
      reads this`sent
    {
      Stream(cfg, initial, sent)
    }

    /** What the ring holds after `n` inputs: each of the last four in the row of its number. */
    ghost predicate Holds(n: nat)
      requires Shape() && History().Valid() && n <= |sent|
      reads this`sent, packetsBuffer
    {
      forall m {:trigger History().Slot(m)} ::
        n - DATA_SHARDS <= m < n ==> Row((m + DATA_SHARDS) % DATA_SHARDS, MAX_BLOCK_SIZE) == History().Slot(m)
    }

    ghost predicate Valid()
      reads this, packetsBuffer
    {
      Shape() && History().Valid() && curSeqNumber == |sent| % TWO_16 && Holds(|sent|)
    }

    constructor (cfg: Settings, rs: Encoder)
      requires cfg.InRange()
      ensures Valid() && sent == [] && fresh(packetsBuffer)
      ensures this.cfg == cfg && this.rs == rs
    {
      hide Stream.Emitted;
      this.cfg, this.rs := cfg, rs;
      curSeqNumber := 0;
      var rows := new byte[DATA_SHARDS + FEC_SHARDS, MAX_BLOCK_SIZE];
      packetsBuffer := rows;
      initial := seq(DATA_SHARDS, r requires 0 <= r < DATA_SHARDS reads rows =>
                   seq(MAX_BLOCK_SIZE, k requires 0 <= k < MAX_BLOCK_SIZE reads rows => rows[r, k]));
      sent := [];
    }

    /** `gst_buffer_copy_into`: the rest of the row stays. */
    method CopyIntoRow(r: nat, data: seq<byte>)
      requires Shape() && r < DATA_SHARDS && |data| <= MAX_BLOCK_SIZE
      modifies packetsBuffer
      ensures Row(r, MAX_BLOCK_SIZE) == data + old(Row(r, MAX_BLOCK_SIZE))[|data|..]
      ensures forall i :: 0 <= i < DATA_SHARDS && i != r ==> Row(i, MAX_BLOCK_SIZE) == old(Row(i, MAX_BLOCK_SIZE))
    {
      for k := 0 to |data|
        invariant forall x :: 0 <= x < MAX_BLOCK_SIZE ==>
            packetsBuffer[r, x] == if x < k then data[x] else old(packetsBuffer[r, x])
        invariant forall i, x :: 0 <= i < DATA_SHARDS && i != r && 0 <= x < MAX_BLOCK_SIZE ==>
                    packetsBuffer[i, x] == old(packetsBuffer[i, x])
      {
        packetsBuffer[r, k] := data[k];
      }
    }

    /** `fec::encode`: fills the parity rows from the data rows. */
    method EncodeRows(blockSize: nat)
      requires Shape() && blockSize <= MAX_BLOCK_SIZE
      modifies packetsBuffer
      ensures forall i :: 0 <= i < DATA_SHARDS ==> Row(i, MAX_BLOCK_SIZE) == old(Row(i, MAX_BLOCK_SIZE))
      ensures forall j :: 0 <= j < FEC_SHARDS ==>
                Row(DATA_SHARDS + j, blockSize) == ParityRow(old(DataRows(blockSize)), j, blockSize, rs)
    {
      var data := DataRows(blockSize);
      for j := 0 to FEC_SHARDS
        invariant forall i, x :: 0 <= i < DATA_SHARDS && 0 <= x < MAX_BLOCK_SIZE ==>
                    packetsBuffer[i, x] == old(packetsBuffer[i, x])
        invariant forall i, x :: 0 <= i < j && 0 <= x < blockSize ==>
            packetsBuffer[DATA_SHARDS + i, x] == rs(data, i, x)
      {
        for k := 0 to blockSize
          invariant forall i, x :: 0 <= i < DATA_SHARDS && 0 <= x < MAX_BLOCK_SIZE ==>
                      packetsBuffer[i, x] == old(packetsBuffer[i, x])
          invariant forall i, x :: 0 <= i < j && 0 <= x < blockSize ==>
              packetsBuffer[DATA_SHARDS + i, x] == rs(data, i, x)
          invariant forall x :: 0 <= x < k ==> packetsBuffer[DATA_SHARDS + j, x] == rs(data, j, x)
        {
          packetsBuffer[DATA_SHARDS + j, k] := rs(data, j, k);
        }
      }
    }

    function DataRows(n: nat): (rows: seq<seq<byte>>)
      requires packetsBuffer.Length0 == DATA_SHARDS + FEC_SHARDS && n <= packetsBuffer.Length1
      reads packetsBuffer
    {
      [Row(0, n), Row(1, n), Row(2, n), Row(3, n)]
    }

    /** Keeps the packet, in the row of its number. */
    method Store(packet: seq<byte>, payload: seq<byte>)
      requires Valid() && packet == DataPacket(cfg, curSeqNumber, payload) && |packet| <= MAX_BLOCK_SIZE
      modifies this`sent, packetsBuffer
      ensures Shape() && sent == old(sent) + [payload] && History().Valid() && Holds(|sent|)
      ensures History().Data(old(|sent|)) == packet
    {
      hide DataPacket, Row;
      ghost var n, was := |sent|, History();
      WrapKeepsGroup(n);
      CopyIntoRow(curSeqNumber % DATA_SHARDS, packet);
      sent := sent + [payload];
      Extends(was, payload);
      forall m: int | n + 1 - DATA_SHARDS <= m < n + 1
        ensures Row((m + DATA_SHARDS) % DATA_SHARDS, MAX_BLOCK_SIZE) == History().Slot(m)
      {
        LastFour(n, m);
        if m == n {
          SlotOver(History(), n);
          assert old(Row(n % DATA_SHARDS, MAX_BLOCK_SIZE)) == was.Slot(n - DATA_SHARDS) by {
            LastFour(n, n - DATA_SHARDS);
          }
          assert (n + DATA_SHARDS) % DATA_SHARDS == n % DATA_SHARDS;
        } else {
          assert History().Slot(m) == was.Slot(m);
        }
      }
    }

    /** The parity packets of the group that the current packet completes. */
    method GenerateFec(blockSize: nat) returns (parity: seq<seq<byte>>)
      requires Shape() && RTP_HEADER_SIZE <= blockSize <= MAX_BLOCK_SIZE && curSeqNumber >= DATA_SHARDS - 1
      requires History().Valid() && Holds(|sent|)
      modifies packetsBuffer
      ensures Holds(|sent|)
      ensures |parity| == FEC_SHARDS
      ensures forall j :: 0 <= j < FEC_SHARDS ==>
          parity[j] == FecPacket(cfg, curSeqNumber, j, old(DataRows(blockSize)), blockSize, rs)
    {
      EncodeRows(blockSize);
      parity := [];
      for j := 0 to FEC_SHARDS
        invariant |parity| == j
        invariant forall x :: 0 <= x < j ==>
            parity[x] == FecPacket(cfg, curSeqNumber, x, old(DataRows(blockSize)), blockSize, rs)
      {
        var row := Row(DATA_SHARDS + j, blockSize);
        parity := parity + [FecHeader(cfg, curSeqNumber, j) + row[RTP_HEADER_SIZE..]];
      }
    }

    /** `split_into_rtp`: the packet and, when it completes a group, the parity of the rows of the last four. */
    method SplitIntoRtp(payload: seq<byte>) returns (packets: seq<seq<byte>>)
      requires Valid() && |DataPacket(cfg, curSeqNumber, payload)| <= MAX_BLOCK_SIZE
      modifies this, packetsBuffer
      ensures Valid() && sent == old(sent) + [payload]
      ensures packets == History().Emitted(old(|sent|), rs)
    {
      hide DataPacket, FecPacket, Row, Stream.Data, Stream.Slot, Stream.Valid, Stream.Emitted, Holds;
      ghost var n := |sent|;
      var timeToFec := (curSeqNumber + 1) % DATA_SHARDS == 0;
      var packet := DataPacket(cfg, curSeqNumber, payload);
      packets := [packet];
      WrapKeepsGroup(n);
      Store(packet, payload);
      if timeToFec {
        GroupEnds(n);
        GroupRows(n);
        var parity := GenerateFec(|packet|);
        packets := packets + parity;
        GroupEmitted(History(), n, rs, parity);
      } else {
        SingleEmitted(History(), n, rs);
      }
      curSeqNumber := (curSeqNumber + 1) % TWO_16;
    }

    lemma GroupRows(n: nat)
      requires Shape() && History().Valid() && |sent| == n + 1 && Holds(|sent|) && n % DATA_SHARDS == DATA_SHARDS - 1
      ensures n >= 3 && DataRows(|History().Data(n)|) == History().Group(n)
    {
      hide Stream.Data, Stream.Slot, Stream.Valid;
      Residues(n);
      var h, size := History(), |History().Data(n)|;
      DataFits(h, n);
      forall m: int | n - 3 <= m <= n ensures Row(m % DATA_SHARDS, size) == h.Slot(m)[..size] {
        assert (m + DATA_SHARDS) % DATA_SHARDS == m % DATA_SHARDS;
        assert Row(m % DATA_SHARDS, MAX_BLOCK_SIZE) == h.Slot(m);
        assert Row(m % DATA_SHARDS, size) == Row(m % DATA_SHARDS, MAX_BLOCK_SIZE)[..size];
      }
    }
  }

  lemma Residues(n: nat)
    requires n % DATA_SHARDS == DATA_SHARDS - 1
    ensures n >= 3 && (n - 3) % DATA_SHARDS == 0 && (n - 2) % DATA_SHARDS == 1 && (n - 1) % DATA_SHARDS == 2
  {}

  lemma DataFits(s: Stream, m: nat)
    requires s.Valid() && m < |s.inputs|
    ensures |s.Data(m)| <= MAX_BLOCK_SIZE
  {}

  lemma SingleEmitted(s: Stream, i: nat, rs: Encoder)
    requires s.Valid() && i < |s.inputs| && i % DATA_SHARDS != DATA_SHARDS - 1
    ensures s.Emitted(i, rs) == [s.Data(i)]
  {}

  lemma GroupEmitted(s: Stream, i: nat, rs: Encoder, parity: seq<seq<byte>>)
    requires s.Valid() && 3 <= i < |s.inputs| && i % DATA_SHARDS == DATA_SHARDS - 1 && i % TWO_16 >= 3
    requires |parity| == FEC_SHARDS
    requires forall j :: 0 <= j < FEC_SHARDS ==>
      parity[j] == FecPacket(s.cfg, i % TWO_16, j, s.Group(i), |s.Data(i)|, rs)
    ensures s.Emitted(i, rs) == [s.Data(i)] + parity
  {
    hide FecPacket, Stream.Data, Stream.Slot, Stream.Valid, Stream.Group;
  }

  /** A new input changes nothing about the slots before it. */
  lemma Extends(s: Stream, payload: seq<byte>)
    requires s.Valid() && |DataPacket(s.cfg, |s.inputs| % TWO_16, payload)| <= MAX_BLOCK_SIZE
    ensures var t := s.(inputs := s.inputs + [payload]);
            t.Valid() && t.Data(|s.inputs|) == DataPacket(s.cfg, |s.inputs| % TWO_16, payload)
            && forall m :: -(DATA_SHARDS as int) <= m < |s.inputs| ==> t.Slot(m) == s.Slot(m)
  {
    hide DataPacket;
    var t := s.(inputs := s.inputs + [payload]);
    assert forall m :: 0 <= m < |s.inputs| ==> t.Data(m) == s.Data(m);
    forall m: int | -(DATA_SHARDS as int) <= m < |s.inputs| ensures t.Slot(m) == s.Slot(m) {
      SlotStays(s, t, m);
    }
  }

  lemma {:induction false} SlotStays(s: Stream, t: Stream, m: int)
    requires s.Valid() && t.Valid() && t.cfg == s.cfg && t.initial == s.initial && |s.inputs| <= |t.inputs|
    requires -(DATA_SHARDS as int) <= m < |s.inputs| && forall i :: 0 <= i < |s.inputs| ==> t.Data(i) == s.Data(i)
    ensures t.Slot(m) == s.Slot(m)
    decreases m + DATA_SHARDS
  {
    hide Stream.Data, Stream.Valid;
    if m >= DATA_SHARDS { SlotStays(s, t, m - DATA_SHARDS); }
  }

  lemma SlotOver(s: Stream, n: nat)
    requires s.Valid() && n < |s.inputs|
    ensures s.Slot(n) == s.Data(n) + s.Slot(n - DATA_SHARDS)[|s.Data(n)|..]
  {
    hide Stream.Data, Stream.Valid;
  }

  lemma LastFour(n: nat, m: int)
    requires n - DATA_SHARDS <= m <= n
    ensures (m + DATA_SHARDS) % DATA_SHARDS == n % DATA_SHARDS <==> m == n || m == n - DATA_SHARDS
    ensures 0 <= (m + DATA_SHARDS) % DATA_SHARDS < DATA_SHARDS
  {}
}
