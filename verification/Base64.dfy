/** The base64 decoder (section 4 of RFC 4648): a bit accumulator in a wrapping 32-bit integer. */
module Base64 {
  import opened Bits

  // ---- bits

  type bit = b: int | 0 <= b <= 1

  /** The low `k` bits of a number, most significant first. */
  function Binary(n: nat, k: nat): (bs: seq<bit>)
    ensures |bs| == k
  {
    if k == 0 then [] else Binary(n / 2, k - 1) + [n % 2]
  }

  function Number(bs: seq<bit>): nat {
    if bs == [] then 0 else 2 * Number(bs[..|bs| - 1]) + bs[|bs| - 1]
  }

  /** The bytes that a run of bits holds; an incomplete last one is dropped. */
  function Octets(bs: seq<bit>): seq<byte> {
    if |bs| < 8 then [] else
    Below(bs[..8]);
    [Number(bs[..8])] + Octets(bs[8..])
  }

  function ByteBits(b: seq<byte>): (bs: seq<bit>)
    ensures |bs| == 8 * |b|
  {
    if b == [] then [] else Binary(b[0], 8) + ByteBits(b[1..])
  }

  lemma {:induction false} Below(bs: seq<bit>)
    ensures Number(bs) < Pow2(|bs|)
    ensures |bs| == 8 ==> Number(bs) < 256
  {
    Pow2Values();
    if bs != [] { Below(bs[..|bs| - 1]); }
  }

  lemma {:induction false} NumberOfBinary(n: nat, k: nat)
    requires n < Pow2(k)
    ensures Number(Binary(n, k)) == n
  {
    if k > 0 {
      NumberOfBinary(n / 2, k - 1);
      assert Binary(n, k)[..k - 1] == Binary(n / 2, k - 1);
    }
  }

  lemma {:induction false} NumberAppends(a: seq<bit>, b: seq<bit>)
    ensures Number(a + b) == Shl(Number(a), |b|) + Number(b)
  {
    if b == [] {
      assert a + b == a;
    } else {
      NumberAppends(a, b[..|b| - 1]);
      assert (a + b)[..|a + b| - 1] == a + b[..|b| - 1];
    }
  }

  lemma {:induction false} BinaryAppends(a: nat, i: nat, b: nat, j: nat)
    requires b < Pow2(j)
    ensures Binary(a * Pow2(j) + b, i + j) == Binary(a, i) + Binary(b, j)
  {
    if j == 0 {
      assert Binary(a, i) + [] == Binary(a, i);
    } else {
      var n := a * Pow2(j) + b;
      assert a * Pow2(j) == 2 * (a * Pow2(j - 1));
      assert n / 2 == a * Pow2(j - 1) + b / 2 && n % 2 == b % 2;
      BinaryAppends(a, i, b / 2, j - 1);
    }
  }

  lemma {:induction false} OctetsOfBytes(b: seq<byte>, rest: seq<bit>)
    requires |rest| < 8
    ensures Octets(ByteBits(b) + rest) == b
  {
    hide Binary, Number, Pow2;
    if b != [] {
      var bs := ByteBits(b) + rest;
      Pow2Values();
      NumberOfBinary(b[0], 8);
      assert bs[..8] == Binary(b[0], 8) && bs[8..] == ByteBits(b[1..]) + rest;
      OctetsOfBytes(b[1..], rest);
    }
  }

  // ---- the alphabet

  function Letter(i: nat): (c: byte)
    requires i < 64
  {
    if i < 26 then 'A' as int + i
    else if i < 52 then 'a' as int + i - 26
    else if i < 62 then '0' as int + i - 52
    else if i == 62 then '+' as int else '/' as int
  }

  function Sextet(c: byte): (v: int)
    ensures -1 <= v < 64
  {
    if 'A' as int <= c <= 'Z' as int then c - 'A' as int
    else if 'a' as int <= c <= 'z' as int then c - 'a' as int + 26
    else if '0' as int <= c <= '9' as int then c - '0' as int + 52
    else if c == '+' as int then 62
    else if c == '/' as int then 63
    else -1
  }

  /** The table of the decoder inverts the alphabet. */
  lemma Alphabet(i: nat, c: byte)
    ensures i < 64 ==> Sextet(Letter(i)) == i
    ensures Sextet(c) >= 0 ==> Letter(Sextet(c)) == c
  {}

  /** The input up to the first character outside the alphabet. */
  function Payload(s: seq<byte>): (p: seq<byte>)
    ensures p <= s && forall i :: 0 <= i < |p| ==> Sextet(p[i]) >= 0
  {
    if s == [] || Sextet(s[0]) == -1 then [] else [s[0]] + Payload(s[1..])
  }

  function LetterBits(s: seq<byte>): (bs: seq<bit>)
    requires forall i :: 0 <= i < |s| ==> Sextet(s[i]) >= 0
    ensures |bs| == 6 * |s|
  {
    if s == [] then [] else LetterBits(s[..|s| - 1]) + Binary(Sextet(s[|s| - 1]), 6)
  }

  // ---- decoding

  /** Two's complement wrap-around of a 32-bit signed integer. */
  function Wrap(x: int): int {
    (x + 0x8000_0000) % TWO_32 - 0x8000_0000
  }

  /** `(val << 6) + t` */
  function ShiftIn(val: int, t: nat): int {
    Wrap(val * 64 + t)
  }

  /** `(val >> valb) & 0xFF` */
  function ByteAbove(val: int, valb: nat): byte {
    val / Pow2(valb) % 0x100
  }

  lemma WrapKeepsLow(v: int, k: nat, m: nat)
    requires m > 0 && m * k == TWO_32
    ensures Wrap(v) % m == v % m
  {
    var q := (v + 0x8000_0000) / TWO_32;
    assert Wrap(v) == v - q * TWO_32;
    var p, r := v / m, v % m;
    assert v == p * m + r;
    assert q * (m * k) == (q * k) * m;
    assert (p - q * k) * m == p * m - (q * k) * m;
    DivisionIsUnique(Wrap(v), m, p - q * k, r);
  }

  lemma ShiftsIn(val: int, m: nat, n: nat, t: nat)
    requires m in {1, 4, 16, 64} && t < 64 && val % m == n
    ensures Wrap(val * 64 + t) % (64 * m) == 64 * n + t
  {
    hide Wrap;
    var p := val / m;
    assert p * (64 * m) == 64 * (p * m);
    DivisionIsUnique(val * 64 + t, 64 * m, p, 64 * n + t);
    WrapKeepsLow(val * 64 + t, TWO_32 / (64 * m), 64 * m);
  }

  lemma ShiftsOut(val: int, m: nat, hi: nat, lo: nat)
    requires m > 0 && hi < 256 && lo < m && val % (256 * m) == hi * m + lo
    ensures val / m % 256 == hi && val % m == lo
  {
    var p := val / (256 * m);
    assert val == p * (256 * m) + hi * m + lo;
    assert p * (256 * m) + hi * m == (256 * p + hi) * m;
    DivisionIsUnique(val, m, 256 * p + hi, lo);
    DivisionIsUnique(256 * p + hi, 256, p, hi);
  }

  lemma Powers(k: nat)
    requires k <= 6
    ensures Pow2(k + 6) == 64 * Pow2(k) && Pow2(k + 8) == 256 * Pow2(k)
    ensures k in {0, 2, 4, 6} ==> Pow2(k) in {1, 4, 16, 64}
  {
    Pow2Values();
  }

  /** The low bits of the accumulator are those not delivered yet. */
  ghost predicate Holds(val: int, rest: seq<bit>) {
    val % Pow2(|rest|) == Number(rest)
  }

  lemma SixMore(rest: seq<bit>, t: nat)
    requires t < 64
    ensures Number(rest + Binary(t, 6)) == 64 * Number(rest) + t
  {
    Powers(0);
    NumberOfBinary(t, 6);
    NumberAppends(rest, Binary(t, 6));
    hide Number, Binary;
    ShlIsProduct(Number(rest), 6);
  }

  /** Six more bits in the accumulator. */
  lemma Accumulates(val: int, rest: seq<bit>, t: nat)
    requires |rest| in {0, 2, 4, 6} && t < 64
    requires Holds(val, rest)
    ensures Holds(ShiftIn(val, t), rest + Binary(t, 6))
  {
    hide Wrap, Number, Pow2, Binary;
    Powers(|rest|);
    SixMore(rest, t);
    ShiftsIn(val, Pow2(|rest|), Number(rest), t);
  }

  /** Eight bits out of it. */
  lemma Delivers(val: int, rest: seq<bit>)
    requires |rest| in {8, 10, 12}
    requires Holds(val, rest)
    ensures ByteAbove(val, |rest| - 8) == Number(rest[..8])
    ensures Holds(val, rest[8..])
  {
    hide Number, Pow2, Shl;
    Powers(|rest| - 8);
    Below(rest[..8]);
    Below(rest[8..]);
    assert rest == rest[..8] + rest[8..];
    NumberAppends(rest[..8], rest[8..]);
    ShlIsProduct(Number(rest[..8]), |rest| - 8);
    ShiftsOut(val, Pow2(|rest| - 8), Number(rest[..8]), Number(rest[8..]));
  }

  /** Octets come off the front one at a time. */
  lemma {:induction false} OctetsGrow(bs: seq<bit>, next: seq<bit>, n: nat)
    requires |bs| == 8 * n && |next| == 8
    ensures Number(next) < 256 && Octets(bs + next) == Octets(bs) + [Number(next)]
  {
    Below(next);
    if bs == [] {
      assert bs + next == next && next[..8] == next;
    } else {
      OctetsGrow(bs[8..], next, n - 1);
      assert (bs + next)[..8] == bs[..8] && (bs + next)[8..] == bs[8..] + next;
    }
  }

  lemma {:induction false} OctetsDropPart(bs: seq<bit>, rest: seq<bit>, n: nat)
    requires |bs| == 8 * n && |rest| < 8
    ensures Octets(bs + rest) == Octets(bs)
  {
    if bs != [] {
      OctetsDropPart(bs[8..], rest, n - 1);
      assert (bs + rest)[..8] == bs[..8] && (bs + rest)[8..] == bs[8..] + rest;
    }
  }

  lemma {:induction false} PayloadIs(s: seq<byte>, n: nat)
    requires n <= |s| && (forall i :: 0 <= i < n ==> Sextet(s[i]) >= 0)
    requires n < |s| ==> Sextet(s[n]) == -1
    ensures Payload(s) == s[..n]
  {
    if n > 0 {
      PayloadIs(s[1..], n - 1);
      assert s[..n] == [s[0]] + s[1..][..n - 1];
    }
  }

  /** The lookup table: alphabet positions, and -1 elsewhere. */
  method Table() returns (t: array<int>)
    ensures fresh(t) && t.Length == 256 && forall c: byte :: t[c] == Sextet(c)
  {
    t := new int[256](_ => -1);
    for i := 0 to 64
      invariant forall c: byte :: t[c] == if 0 <= Sextet(c) < i then Sextet(c) else -1
    {
      Alphabet(i, 0);
      forall c: byte ensures Sextet(c) == i ==> c == Letter(i) { Alphabet(i, c); }
      t[Letter(i)] := i;
    }
  }

  lemma NoBits()
    ensures Delivered([], [], []) && Holds(0, [])
  {}

  /** The octets of the bits so far are out, and the `rest` is not. */
  ghost predicate Delivered(bits: seq<bit>, out: seq<byte>, rest: seq<bit>) {
    8 * |out| + |rest| == |bits| && bits[8 * |out|..] == rest && out == Octets(bits[..8 * |out|])
  }

  lemma MoreBits(bits: seq<bit>, out: seq<byte>, rest: seq<bit>, more: seq<bit>)
    requires Delivered(bits, out, rest)
    ensures Delivered(bits + more, out, rest + more)
  {
    hide Octets;
    assert (bits + more)[..8 * |out|] == bits[..8 * |out|];
  }

  lemma OctetOut(bits: seq<bit>, out: seq<byte>, rest: seq<bit>)
    requires Delivered(bits, out, rest) && |rest| >= 8
    ensures Number(rest[..8]) < 256 && Delivered(bits, out + [Number(rest[..8])], rest[8..])
  {
    hide Octets, Number;
    var n := 8 * |out|;
    OctetsGrow(bits[..n], rest[..8], |out|);
    assert bits[..n + 8] == bits[..n] + rest[..8];
  }

  lemma AllOut(bits: seq<bit>, out: seq<byte>, rest: seq<bit>)
    requires Delivered(bits, out, rest) && |rest| < 8
    ensures out == Octets(bits)
  {
    hide Octets;
    var n := 8 * |out|;
    assert bits == bits[..n] + rest;
    OctetsDropPart(bits[..n], rest, |out|);
  }

  lemma LetterBitsGrow(s: seq<byte>, i: nat)
    requires i < |s| && forall k :: 0 <= k <= i ==> Sextet(s[k]) >= 0
    ensures LetterBits(s[..i + 1]) == LetterBits(s[..i]) + Binary(Sextet(s[i]), 6)
  {
    hide Sextet, Binary;
    assert s[..i + 1][..i] == s[..i];
  }

  /** `base64_decode`: the bytes in the bits of the leading alphabet characters. */
  method Base64Decode(input: seq<byte>) returns (out: seq<byte>)
    ensures out == Octets(LetterBits(Payload(input)))
  {
    hide Binary, Sextet, Letter, Octets, ShiftIn, ByteAbove, Pow2, Number, Payload, Holds, Delivered;
    out := [];
    var t := Table();
    var val, valb := 0, -8;
    var i := 0;
    ghost var rest: seq<bit> := [];
    NoBits();
    assert input[..0] == [];
    while i < |input| && t[input[i]] != -1
      invariant i <= |input| && forall k :: 0 <= k < i ==> Sextet(input[k]) >= 0
      invariant forall c: byte :: t[c] == Sextet(c)
      invariant valb == |rest| - 8 && |rest| in {0, 2, 4, 6} && Holds(val, rest)
      invariant Delivered(LetterBits(input[..i]), out, rest)
    {
      ghost var six := Binary(Sextet(input[i]), 6);
      LetterBitsGrow(input, i);
      MoreBits(LetterBits(input[..i]), out, rest, six);
      Accumulates(val, rest, t[input[i]]);
      val := ShiftIn(val, t[input[i]]);
      valb := valb + 6;
      rest := rest + six;
      if valb >= 0 {
        Delivers(val, rest);
        OctetOut(LetterBits(input[..i + 1]), out, rest);
        out := out + [ByteAbove(val, valb)];
        rest := rest[8..];
        valb := valb - 8;
      }
      i := i + 1;
    }
    PayloadIs(input, i);
    AllOut(LetterBits(input[..i]), out, rest);
  }

  // ---- the encoder it undoes

  const PAD: byte := 61

  /** Standard encoding with padding. */
  function Encode(b: seq<byte>): seq<byte> {
    if b == [] then []
    else if |b| == 1 then [Letter(b[0] / 4), Letter(b[0] % 4 * 16), PAD, PAD]
    else if |b| == 2 then [Letter(b[0] / 4), Letter(b[0] % 4 * 16 + b[1] / 16), Letter(b[1] % 16 * 4), PAD]
    else Group(b[0], b[1], b[2]) + Encode(b[3..])
  }

  function Group(x: byte, y: byte, z: byte): seq<byte> {
    [Letter(x / 4), Letter(x % 4 * 16 + y / 16), Letter(y % 16 * 4 + z / 64), Letter(z % 64)]
  }

  lemma PayloadStarts(s: seq<byte>)
    requires s != [] && Sextet(s[0]) >= 0
    ensures Payload(s) == [s[0]] + Payload(s[1..])
  {
    hide Sextet;
  }

  lemma {:induction false} PayloadAppends(s: seq<byte>, t: seq<byte>)
    requires forall i :: 0 <= i < |s| ==> Sextet(s[i]) >= 0
    ensures Payload(s + t) == s + Payload(t)
  {
    hide Sextet, Payload;
    if s == [] {
      assert s + t == t;
    } else {
      PayloadAppends(s[1..], t);
      assert (s + t)[0] == s[0] && (s + t)[1..] == s[1..] + t;
      PayloadStarts(s + t);
      assert [s[0]] + (s[1..] + Payload(t)) == s + Payload(t);
    }
  }

  lemma {:induction false} LetterBitsAppend(s: seq<byte>, t: seq<byte>)
    requires forall i :: 0 <= i < |s| ==> Sextet(s[i]) >= 0
    requires forall i :: 0 <= i < |t| ==> Sextet(t[i]) >= 0
    ensures LetterBits(s + t) == LetterBits(s) + LetterBits(t)
  {
    hide Binary, Sextet;
    if t == [] {
      assert s + t == s;
    } else {
      LetterBitsAppend(s, t[..|t| - 1]);
      assert (s + t)[..|s + t| - 1] == s + t[..|t| - 1];
    }
  }

  function Six(v: nat): seq<bit> { Binary(v, 6) }

  lemma LettersBits(a: nat, b: nat)
    requires a < 64 && b < 64
    ensures Sextet(Letter(a)) == a && Sextet(Letter(b)) == b
    ensures LetterBits([Letter(a), Letter(b)]) == Six(a) + Six(b)
  {
    Alphabet(a, 0);
    Alphabet(b, 0);
    assert [Letter(a), Letter(b)][..1] == [Letter(a)] && [Letter(a)][..0] == [];
    assert LetterBits([Letter(a)]) == Six(a);
  }

  lemma Powers6And8()
    ensures Pow2(2) == 4 && Pow2(4) == 16 && Pow2(6) == 64 && Pow2(8) == 256
  {
    Pow2Values();
  }

  lemma TwoSixes(a: nat, b: nat)
    requires a < 64 && b < 64
    ensures Six(a) + Six(b) == Binary(a * 64 + b, 12)
  {
    Powers6And8();
    BinaryAppends(a, 6, b, 6);
  }

  lemma GroupBits(x: byte, y: byte, z: byte)
    ensures forall i :: 0 <= i < 4 ==> Sextet(Group(x, y, z)[i]) >= 0
    ensures LetterBits(Group(x, y, z)) == ByteBits([x, y, z])
  {
    hide Binary, Letter, Sextet;
    var (a, b, c, d) := (x / 4, x % 4 * 16 + y / 16, y % 16 * 4 + z / 64, z % 64);
    LettersBits(a, b);
    LettersBits(c, d);
    LetterBitsAppend([Letter(a), Letter(b)], [Letter(c), Letter(d)]);
    assert Group(x, y, z) == [Letter(a), Letter(b)] + [Letter(c), Letter(d)];
    TwoSixes(a, b);
    TwoSixes(c, d);
    Straddles(x, y, z);
    HalfGroups(x, y / 16, y % 16, z);
    assert [x, y, z][1..] == [y, z] && [y, z][1..] == [z];
    assert ByteBits([z]) == Binary(z, 8);
  }

  lemma Straddles(x: byte, y: byte, z: byte)
    ensures var (a, b, c, d) := (x / 4, x % 4 * 16 + y / 16, y % 16 * 4 + z / 64, z % 64);
            a * 64 + b == x * 16 + y / 16 && c * 64 + d == y % 16 * 256 + z && y == y / 16 * 16 + y % 16
  {}

  lemma Nibbles(x: nat, h: nat, z: nat)
    requires h < 16 && z < 256
    ensures Binary(x * 16 + h, 12) == Binary(x, 8) + Binary(h, 4)
    ensures Binary(h * 256 + z, 12) == Binary(h, 4) + Binary(z, 8)
    ensures Binary(x * 16 + h, 8) == Binary(x, 4) + Binary(h, 4)
  {
    hide Binary, Pow2;
    Powers6And8();
    BinaryAppends(x, 8, h, 4);
    BinaryAppends(h, 4, z, 8);
    BinaryAppends(x, 4, h, 4);
  }

  /** The middle byte straddles the two halves of a group. */
  lemma HalfGroups(x: byte, h: nat, l: nat, z: byte)
    requires h < 16 && l < 16
    ensures Binary(x * 16 + h, 12) + Binary(l * 256 + z, 12) == Binary(x, 8) + (Binary(h * 16 + l, 8) + Binary(z, 8))
  {
    hide Binary;
    Nibbles(x, h, 0);
    Nibbles(h, l, z);
    FourParts(Binary(x, 8), Binary(h, 4), Binary(l, 4), Binary(z, 8));
  }

  lemma FourParts(p: seq<bit>, q: seq<bit>, r: seq<bit>, t: seq<bit>)
    ensures (p + q) + (r + t) == p + ((q + r) + t)
  {}

  /** The encoding carries the bits of the bytes, and at most six zero bits more. */
  lemma {:induction false} EncodedBits(b: seq<byte>) returns (rest: seq<bit>)
    ensures |rest| < 8 && LetterBits(Payload(Encode(b))) == ByteBits(b) + rest
  {
    hide Binary, Payload, LetterBits, ByteBits, Group, Letter, Sextet, Octets;
    if b == [] {
      rest := [];
      NoBytes();
    } else if |b| == 1 {
      rest := Binary(0, 4);
      OneByte(b[0]);
      assert b == [b[0]];
    } else if |b| == 2 {
      rest := Binary(0, 2);
      TwoBytes(b[0], b[1]);
      assert b == [b[0], b[1]];
    } else {
      var g := Group(b[0], b[1], b[2]);
      GroupBits(b[0], b[1], b[2]);
      PayloadAppends(g, Encode(b[3..]));
      LetterBitsAppend(g, Payload(Encode(b[3..])));
      rest := EncodedBits(b[3..]);
      ByteBitsAppend(b[..3], b[3..]);
      assert b == b[..3] + b[3..] && b[..3] == [b[0], b[1], b[2]];
    }
  }

  lemma PadStops()
    ensures Sextet(PAD) == -1
  {}

  lemma NoBytes()
    ensures LetterBits(Payload(Encode([]))) == ByteBits([])
  {}

  lemma {:induction false} ByteBitsAppend(s: seq<byte>, t: seq<byte>)
    ensures ByteBits(s + t) == ByteBits(s) + ByteBits(t)
  {
    hide Binary;
    if s == [] {
      assert s + t == t;
    } else {
      ByteBitsAppend(s[1..], t);
      assert (s + t)[1..] == s[1..] + t && (s + t)[0] == s[0];
    }
  }

  lemma OneByte(x: byte)
    ensures LetterBits(Payload(Encode([x]))) == ByteBits([x]) + Binary(0, 4)
  {
    hide Binary, Letter, Sextet, Pow2;
    var (a, b) := (x / 4, x % 4 * 16);
    LettersBits(a, b);
    PadStops();
    PayloadIs(Encode([x]), 2);
    assert Encode([x])[..2] == [Letter(a), Letter(b)];
    TwoSixes(a, b);
    Powers6And8();
    BinaryAppends(x, 8, 0, 4);
    assert a * 64 + b == x * 16;
    assert ByteBits([x]) == Binary(x, 8);
  }

  lemma LastSix(l: nat)
    ensures Six(l * 4) == Binary(l, 4) + Binary(0, 2)
  {
    hide Binary, Pow2;
    Powers6And8();
    BinaryAppends(l, 4, 0, 2);
  }

  lemma TwoBytes(x: byte, y: byte)
    ensures LetterBits(Payload(Encode([x, y]))) == ByteBits([x, y]) + Binary(0, 2)
  {
    hide Binary, Letter, Sextet, Pow2;
    var (a, b, c) := (x / 4, x % 4 * 16 + y / 16, y % 16 * 4);
    LettersBits(a, b);
    LettersBits(c, 0);
    PadStops();
    PayloadIs(Encode([x, y]), 3);
    assert Encode([x, y])[..3] == [Letter(a), Letter(b)] + [Letter(c)];
    LetterBitsAppend([Letter(a), Letter(b)], [Letter(c)]);
    assert [Letter(c)][..0] == [] && LetterBits([Letter(c)]) == Six(c);
    TwoSixes(a, b);
    Straddles(x, y, 0);
    Nibbles(x, y / 16, 0);
    Nibbles(y / 16, y % 16, 0);
    LastSix(y % 16);
    FourParts(Binary(x, 8), Binary(y / 16, 4), Binary(y % 16, 4), Binary(0, 2));
    assert [x, y][1..] == [y] && ByteBits([y]) == Binary(y, 8);
  }

  /** Decoding undoes encoding, for every byte string. */
  lemma DecodesEncoded(b: seq<byte>)
    ensures Octets(LetterBits(Payload(Encode(b)))) == b
  {
    var rest := EncodedBits(b);
    OctetsOfBytes(b, rest);
  }

  // ---- the texts of the standard

  function Chars(s: string): (r: seq<byte>)
    requires forall i :: 0 <= i < |s| ==> s[i] < 256 as char
    ensures |r| == |s|
  {
    seq(|s|, i requires 0 <= i < |s| => s[i] as int)
  }

  /** Test vectors of section 10 of RFC 4648. */
  lemma KnownTexts()
    ensures Encode(Chars("f")) == Chars("Zg==") && Encode(Chars("fo")) == Chars("Zm8=")
    ensures Encode(Chars("foobar")) == Chars("Zm9vYmFy")
  {
    hide Encode, Letter, Group;
    ShortTexts();
    ThreeBytes(Chars("foobar"));
    ThreeBytes(Chars("bar"));
    assert Chars("foobar")[3..] == Chars("bar") && Chars("bar")[3..] == [];
    KnownGroups();
  }

  lemma ThreeBytes(b: seq<byte>)
    requires |b| >= 3
    ensures Encode(b) == Group(b[0], b[1], b[2]) + Encode(b[3..]) && Encode([]) == []
  {}

  lemma ShortTexts()
    ensures Encode(Chars("f")) == Chars("Zg==") && Encode(Chars("fo")) == Chars("Zm8=")
  {}

  /** Groups with the first and the last letter of each run of the alphabet. */
  lemma KnownGroups()
    ensures Group(102, 111, 111) == Chars("Zm9v") && Group(98, 97, 114) == Chars("YmFy")
    ensures Group(0xFB, 0xEF, 0xFF) == Chars("++//") && Group(0, 6, 90) == Chars("AAZa")
    ensures Group(0xCF, 0x4F, 0x7D) == Chars("z099")
  {}
}
