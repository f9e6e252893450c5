/**
 Bytes, fixed-width integers laid out in memory, and the bitwise `|` on
 unbounded naturals, with the few facts about division and products that the
 packet code needs.
 */
module Bits {
  type byte = b: int | 0 <= b < 0x100

  const TWO_16 := 0x1_0000
  const TWO_32 := 0x1_0000_0000

  type uint32 = x: int | 0 <= x < TWO_32

  function LE16(x: nat): (r: seq<byte>)
    ensures |r| == 2
  {
    var y := x % TWO_16;
    [y % 0x100, y / 0x100]
  }

  function BE16(x: nat): (r: seq<byte>)
    ensures |r| == 2
  {
    var y := x % TWO_16;
    [y / 0x100, y % 0x100]
  }

  function LE32(x: uint32): (r: seq<byte>)
    ensures |r| == 4
  {
    LE16(x % TWO_16) + LE16(x / TWO_16)
  }

  function FromBE16(s: seq<byte>): nat
    requires |s| == 2
  {
    0x100 * s[0] as int + s[1]
  }

  function FromLE16(s: seq<byte>): nat
    requires |s| == 2
  {
    s[0] + 0x100 * s[1] as int
  }

  function FromLE32(s: seq<byte>): nat
    requires |s| == 4
  {
    FromLE16(s[..2]) + TWO_16 * FromLE16(s[2..])
  }

  lemma FromLE32Inverts(x: uint32)
    ensures FromLE32(LE32(x)) == x
  {
    var lo, hi := x % TWO_16, x / TWO_16;
    assert LE32(x)[..2] == LE16(lo) && LE32(x)[2..] == LE16(hi);
    assert FromLE16(LE16(lo)) == lo;
    assert FromLE16(LE16(hi)) == hi;
  }

  function Zeros(n: nat): (z: seq<byte>)
    ensures |z| == n
  {
    seq(n, _ => 0)
  }

  function Pow2(k: nat): (p: nat)
    ensures p > 0
  {
    if k == 0 then 1 else 2 * Pow2(k - 1)
  }

  lemma Pow2Adds(k: nat)
    ensures Pow2(k + 4) == 16 * Pow2(k)
  {
    assert Pow2(k + 2) == 4 * Pow2(k);
    assert Pow2(k + 4) == 4 * Pow2(k + 2);
  }

  lemma Pow2Values()
    ensures Pow2(7) == 0x80 && Pow2(8) == 0x100 && Pow2(10) == 0x400 && Pow2(18) == 0x4_0000 && Pow2(32) == TWO_32
  {
    assert Pow2(3) == 8 && Pow2(2) == 4 && Pow2(4) == 16;
    Pow2Adds(3);
    Pow2Adds(4); Pow2Adds(8); Pow2Adds(12); Pow2Adds(16); Pow2Adds(20); Pow2Adds(24); Pow2Adds(28);
    Pow2Adds(2); Pow2Adds(6); Pow2Adds(10); Pow2Adds(14);
  }

  /** `x << k`, without a width. */
  function Shl(x: nat, k: nat): nat
  {
    if k == 0 then x else 2 * Shl(x, k - 1)
  }

  /** `x >> k` */
  function Shr(x: nat, k: nat): nat
  {
    if k == 0 then x else Shr(x / 2, k - 1)
  }

  /** The `k` low bits of `x`. */
  function Low(x: nat, k: nat): (r: nat)
    ensures r < Pow2(k)
  {
    if k == 0 then 0 else 2 * Low(x / 2, k - 1) + x % 2
  }

  /** The bitwise `|` of two naturals. */
  function Or(a: nat, b: nat): nat
    decreases a
  {
    if a == 0 then b
    else if b == 0 then a
    else 2 * Or(a / 2, b / 2) + Or1(a % 2, b % 2)
  }

  function Or1(x: nat, y: nat): nat {
    if x == 0 then y else x
  }

  lemma OrHalves(a: nat, b: nat)
    ensures Or(a, b) / 2 == Or(a / 2, b / 2)
    ensures Or(a, b) % 2 == Or1(a % 2, b % 2)
  {
  }

  /** `|` works on the bits below and above any position separately. */
  lemma {:induction false} OrSplits(a: nat, b: nat, k: nat)
    ensures Shr(Or(a, b), k) == Or(Shr(a, k), Shr(b, k))
    ensures Low(Or(a, b), k) == Or(Low(a, k), Low(b, k))
    decreases k
  {
    hide Or, Or1;
    if k == 0 {
      OrNothing(0);
    } else {
      OrHalves(a, b);
      OrSplits(a / 2, b / 2, k - 1);
      var u, v := Low(a, k), Low(b, k);
      assert u / 2 == Low(a / 2, k - 1) && v / 2 == Low(b / 2, k - 1);
      OrHalves(u, v);
    }
  }

  lemma {:induction false} OrAtLeast(a: nat, b: nat)
    ensures Or(a, b) >= a && Or(a, b) >= b
    decreases a
  {
    if a > 0 && b > 0 {
      OrAtLeast(a / 2, b / 2);
    }
  }

  lemma {:induction false} LowIsIdentity(x: nat, k: nat)
    requires x < Pow2(k)
    ensures Low(x, k) == x && Shr(x, k) == 0
    decreases k
  {
    if k > 0 {
      LowIsIdentity(x / 2, k - 1);
    }
  }

  lemma {:induction false} ShrBounds(x: nat, k: nat, j: nat)
    ensures Shr(x, k) == 0 <==> x < Pow2(k)
    ensures x < Pow2(k + j) ==> Shr(x, k) < Pow2(j)
    decreases k
  {
    if k > 0 {
      ShrBounds(x / 2, k - 1, j);
    }
  }

  /** Bits `j..k` of `x` may be cut off at `k` before or after shifting. */
  lemma {:induction false} ShrOfLow(x: nat, j: nat, k: nat)
    requires j <= k
    ensures Shr(Low(x, k), j) == Low(Shr(x, j), k - j)
    decreases j
  {
    if j > 0 {
      assert Low(x, k) / 2 == Low(x / 2, k - 1);
      ShrOfLow(x / 2, j - 1, k - 1);
    }
  }

  lemma {:induction false} LowOfLow(x: nat, j: nat, k: nat)
    requires j <= k
    ensures Low(Low(x, k), j) == Low(x, j)
    decreases j
  {
    if j > 0 {
      assert Low(x, k) / 2 == Low(x / 2, k - 1) && Low(x, k) % 2 == x % 2;
      LowOfLow(x / 2, j - 1, k - 1);
    }
  }

  lemma {:induction false} ShiftsCancel(x: nat, j: nat, k: nat)
    ensures Shr(Shl(x, k), j) == if j <= k then Shl(x, k - j) else Shr(x, j - k)
    ensures j <= k ==> Low(Shl(x, k), j) == 0
    decreases j
  {
    if j > 0 && k > 0 {
      ShiftsCancel(x, j - 1, k - 1);
    }
  }

  /** How many bits it takes to write `x`. */
  function BitLength(x: nat): (k: nat)
    ensures x < Pow2(k)
    ensures x > 0 ==> k > 0 && Pow2(k - 1) <= x
  {
    if x == 0 then 0 else 1 + BitLength(x / 2)
  }

  lemma {:induction false} OrBelow(a: nat, b: nat, k: nat)
    requires a < Pow2(k) && b < Pow2(k)
    ensures Or(a, b) < Pow2(k)
    decreases k
  {
    if k > 0 {
      OrHalves(a, b);
      OrBelow(a / 2, b / 2, k - 1);
    }
  }

  lemma HalfOfSum(s: nat, low: nat)
    ensures (2 * s + low) / 2 == s + low / 2 && (2 * s + low) % 2 == low % 2
  {}

  lemma HalfBelow(x: nat, k: nat)
    requires k > 0 && x < Pow2(k)
    ensures x / 2 < Pow2(k - 1)
  {}

  /** Bits above `k` are not touched by a number below. */
  lemma {:induction false} OrAbove(q: nat, low: nat, h: nat, k: nat)
    requires low < Pow2(k) && h < Pow2(k)
    ensures Or(Shl(q, k) + low, h) == Shl(q, k) + Or(low, h)
    decreases k
  {
    hide Or, Or1;
    if k == 0 {
      OrNothing(q);
      assert low == 0 && h == 0;
      OrNothing(low);
    } else {
      var s := Shl(q, k - 1);
      OrHalves(2 * s + low, h);
      OrHalves(low, h);
      HalfOfSum(s, low);
      HalfBelow(low, k);
      HalfBelow(h, k);
      hide Pow2;
      OrAbove(q, low / 2, h / 2, k - 1);
      SameHalves(Or(2 * s + low, h), 2 * s + Or(low, h), s, Or(low, h));
    }
  }

  lemma {:induction false} OrCommutes(a: nat, b: nat)
    ensures Or(a, b) == Or(b, a)
    decreases a
  {
    if a > 0 && b > 0 { OrCommutes(a / 2, b / 2); }
  }

  lemma OrNothing(a: nat)
    ensures Or(a, 0) == a && Or(0, a) == a
  {}

  lemma SameHalves(x: nat, y: nat, s: nat, o: nat)
    requires y == 2 * s + o && x / 2 == s + o / 2 && x % 2 == o % 2
    ensures x == y
  {}

  /** A shifted number is a multiple of the power of two. */
  lemma {:induction false} ShlIsProduct(q: nat, k: nat)
    ensures Shl(q, k) == q * Pow2(k)
    decreases k
  {
    if k > 0 {
      ShlIsProduct(q, k - 1);
      Doubled(q, Pow2(k - 1));
    }
  }

  lemma Doubled(a: nat, b: nat)
    ensures a * (2 * b) == 2 * (a * b)
  {}

  lemma {:induction false} ShlNext(p: nat, k: nat)
    ensures Shl(p + 1, k) == Shl(p, k) + Pow2(k)
    decreases k
  {
    if k > 0 { ShlNext(p, k - 1); }
  }

  lemma {:induction false} ShlGrows(p: nat, q: nat, k: nat)
    requires p <= q
    ensures Shl(p, k) <= Shl(q, k)
    decreases k
  {
    if k > 0 { ShlGrows(p, q, k - 1); }
  }

  /** The top bit of `h` is added to a number that does not have it. */
  lemma {:induction false} OrTopBit(low: nat, h: nat, k: nat)
    requires k > 0 && low < Pow2(k - 1) <= h < Pow2(k)
    ensures Or(low, h) >= low + Pow2(k - 1)
    decreases k
  {
    if k > 1 {
      OrHalves(low, h);
      OrTopBit(low / 2, h / 2, k - 1);
    }
  }

  ghost predicate StaysBelow(n: nat, h: nat) {
    forall i: nat :: i < n ==> Or(i, h) < n
  }

  /** `| h` maps the numbers below `n` to numbers below `n` exactly when `n` is a multiple of the
      power of two above `h`. */
  lemma {:induction false} OrStaysBelow(n: nat, h: nat)
    ensures StaysBelow(n, h) <==> n % Pow2(BitLength(h)) == 0
  {
    hide Pow2, Or, BitLength, Shl, StaysBelow;
    var k := BitLength(h);
    var m := Pow2(k);
    var q, r := n / m, n % m;
    Blocks(n, k, m, q, r);
    if r == 0 {
      OrStaysInBlocks(q, h, k);
    } else {
      OrLeaves(q, r, h, k);
    }
  }

  /** Every number is a run of whole blocks and a rest. */
  lemma Blocks(n: nat, k: nat, m: nat, q: nat, r: nat)
    requires m == Pow2(k) && q == n / m && r == n % m
    ensures n == Shl(q, k) + r
  {
    hide Shl, Pow2;
    ShlIsProduct(q, k);
  }

  lemma {:induction false} OrStaysInBlocks(q: nat, h: nat, k: nat)
    requires h < Pow2(k)
    ensures StaysBelow(Shl(q, k), h)
  {
    hide Pow2, Or, Shl;
    forall i: nat | i < Shl(q, k) ensures Or(i, h) < Shl(q, k) {
      var m := Pow2(k);
      var p, low := i / m, i % m;
      Blocks(i, k, m, p, low);
      OrAbove(p, low, h, k);
      OrBelow(low, h, k);
      BlockBefore(p, low, q, k);
    }
  }

  lemma BlockBefore(p: nat, low: nat, q: nat, k: nat)
    requires Shl(p, k) + low < Shl(q, k)
    ensures Shl(p, k) + Pow2(k) <= Shl(q, k)
  {
    hide Shl, Pow2;
    if q <= p { ShlGrows(q, p, k); } else {
      ShlGrows(p + 1, q, k);
      ShlNext(p, k);
    }
  }

  lemma LowLeaves(r: nat, h: nat, k: nat) returns (low: nat)
    requires k == BitLength(h) && 0 < r < Pow2(k)
    ensures low < r && Or(low, h) >= r
  {
    hide Or;
    assert k > 0;
    var top := Pow2(k - 1);
    assert Pow2(k) == 2 * top;
    low := if r < top then 0 else r - top;
    OrTopBit(low, h, k);
  }

  lemma {:induction false} OrLeaves(q: nat, r: nat, h: nat, k: nat)
    requires k == BitLength(h) && 0 < r < Pow2(k)
    ensures !StaysBelow(Shl(q, k) + r, h)
  {
    hide Or, Pow2, Shl, BitLength;
    var low := LowLeaves(r, h, k);
    OrAbove(q, low, h, k);
    var i := Shl(q, k) + low;
    assert Or(i, h) >= Shl(q, k) + r;
  }

  // ---- arithmetic

  function Min(a: nat, b: nat): nat {
    if a < b then a else b
  }

  lemma {:induction false} ProductGrows(a: nat, b: nat, m: nat)
    requires a <= b
    ensures a * m <= b * m
  {
    assert b * m == a * m + (b - a) * m;
    assert (b - a) * m >= 0;
  }

  /** Quotient and remainder are the only ones that fit. */
  lemma {:induction false} DivisionIsUnique(x: int, m: nat, q: int, r: nat)
    requires x == q * m + r && r < m
    ensures x / m == q && x % m == r
  {
    var q', r' := x / m, x % m;
    assert x == q' * m + r';
    var k := q' - q;
    assert k * m == r - r';
    assert k >= 1 ==> k * m >= m;
    assert k <= -1 ==> k * m <= -(m as int);
  }

  // ---- byte strings end to end

  function Flatten(ss: seq<seq<byte>>): seq<byte> {
    if ss == [] then [] else ss[0] + Flatten(ss[1..])
  }

  lemma {:induction false} FlattenSnoc(ss: seq<seq<byte>>, s: seq<byte>)
    ensures Flatten(ss + [s]) == Flatten(ss) + s
  {
    if ss != [] {
      assert (ss + [s])[1..] == ss[1..] + [s];
      FlattenSnoc(ss[1..], s);
    }
  }
}
