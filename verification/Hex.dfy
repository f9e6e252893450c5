/** The hex codec: the decoder walks backwards over its input and skips what is no digit. */
module Hex {
  import opened Bits

  function HexDigit(v: nat): (c: byte)
    requires v < 16
  {
    if v < 10 then '0' as int + v else 'A' as int + v - 10
  }

  /** `is_convertable`: a decimal digit or any ASCII letter. */
  predicate Convertible(c: byte) {
    '0' as int <= c <= '9' as int || 'a' as int <= c <= 'z' as int || 'A' as int <= c <= 'Z' as int
  }

  /** `convert`: the letters beyond F carry on counting. */
  function Convert(c: byte): byte
    requires Convertible(c)
  {
    if c <= '9' as int then c - '0' as int
    else if c >= 'a' as int then c - 'a' as int + 10
    else c - 'A' as int + 10
  }

  function Encode(s: seq<byte>): (r: seq<byte>)
    ensures |r| == 2 * |s| && forall i :: 0 <= i < |r| ==> Convertible(r[i])
  {
    if s == [] then [] else Encode(s[..|s| - 1]) + [HexDigit(s[|s| - 1] / 16), HexDigit(s[|s| - 1] % 16)]
  }

  /** The digits of a text, without what separates them. */
  function Digits(hex: seq<byte>): (ds: seq<byte>)
    ensures |ds| <= |hex| && forall i :: 0 <= i < |ds| ==> Convertible(ds[i])
  {
    if hex == [] then [] else
    var last := hex[|hex| - 1];
    Digits(hex[..|hex| - 1]) + if Convertible(last) then [last] else []
  }

  /** `(l << 4) | r`, cut to a byte. */
  function Pair(l: byte, r: byte): byte
    requires Convertible(l) && Convertible(r)
  {
    Or(Shl(Convert(l), 4), Convert(r)) % 0x100
  }

  /** Digits paired from the right; a digit left over at the front is dropped. */
  function Pairs(ds: seq<byte>): (r: seq<byte>)
    requires forall i :: 0 <= i < |ds| ==> Convertible(ds[i])
    ensures |r| == |ds| / 2
  {
    var n := |ds|;
    if n < 2 then [] else Pairs(ds[..n - 2]) + [Pair(ds[n - 2], ds[n - 1])]
  }

  function Reversed(s: seq<byte>): (r: seq<byte>)
    ensures |r| == |s|
  {
    if s == [] then [] else Reversed(s[1..]) + [s[0]]
  }

  lemma {:induction false} ReversedAppends(s: seq<byte>, t: seq<byte>)
    ensures Reversed(s + t) == Reversed(t) + Reversed(s)
  {
    if s == [] {
      assert s + t == t;
    } else {
      ReversedAppends(s[1..], t);
      assert (s + t)[1..] == s[1..] + t;
    }
  }

  lemma {:induction false} ReversedTwice(s: seq<byte>)
    ensures Reversed(Reversed(s)) == s
  {
    if s != [] {
      ReversedTwice(s[1..]);
      ReversedAppends(Reversed(s[1..]), [s[0]]);
      assert Reversed([s[0]]) == [s[0]] by { assert [s[0]][1..] == []; }
    }
  }

  // ---- the round trip

  lemma ShlFour(x: nat)
    ensures Shl(x, 4) == 16 * x
  {
    assert Shl(x, 1) == 2 * Shl(x, 0) && Shl(x, 2) == 2 * Shl(x, 1) && Shl(x, 3) == 2 * Shl(x, 2);
  }

  lemma FourBits()
    ensures Pow2(4) == 16
  {
    assert Pow2(1) == 2 && Pow2(2) == 4 && Pow2(3) == 8;
  }

  lemma PairOfDigits(c: byte)
    ensures Pair(HexDigit(c / 16), HexDigit(c % 16)) == c
  {
    hide Or, Shl, Pow2;
    ShlFour(c / 16);
    FourBits();
    OrAbove(c / 16, 0, c % 16, 4);
    OrNothing(c % 16);
  }

  lemma {:induction false} PairsOfEncoded(s: seq<byte>)
    ensures Pairs(Encode(s)) == s
  {
    hide Pairs, Encode, Pair, HexDigit, Convertible;
    if s == [] {
      NothingEncoded();
    } else {
      var n := |s| - 1;
      var (l, r) := (HexDigit(s[n] / 16), HexDigit(s[n] % 16));
      PairsOfEncoded(s[..n]);
      PairOfDigits(s[n]);
      EncodeGrows(s[..n], s[n]);
      PairsGrow(Encode(s[..n]), l, r);
      assert s == s[..n] + [s[n]];
    }
  }

  lemma NothingEncoded()
    ensures Encode([]) == [] && Pairs([]) == []
  {}

  lemma EncodeGrows(s: seq<byte>, c: byte)
    ensures Convertible(HexDigit(c / 16)) && Convertible(HexDigit(c % 16))
    ensures Encode(s + [c]) == Encode(s) + [HexDigit(c / 16)] + [HexDigit(c % 16)]
  {
    assert (s + [c])[..|s + [c]| - 1] == s;
  }

  lemma PairsGrow(front: seq<byte>, l: byte, r: byte)
    requires Convertible(l) && Convertible(r) && forall i :: 0 <= i < |front| ==> Convertible(front[i])
    ensures Pairs(front + [l] + [r]) == Pairs(front) + [Pair(l, r)]
  {
    hide Pair, Pairs, Convertible;
    TwoMore(front, l, r);
    LastPair(front + [l] + [r]);
  }

  lemma TwoMore(front: seq<byte>, l: byte, r: byte)
    ensures var (ds, n) := (front + [l] + [r], |front|);
            |ds| == n + 2 && ds[..n] == front && ds[n] == l && ds[n + 1] == r
  {}

  lemma LastPair(ds: seq<byte>)
    requires |ds| >= 2 && forall i :: 0 <= i < |ds| ==> Convertible(ds[i])
    ensures Pairs(ds) == Pairs(ds[..|ds| - 2]) + [Pair(ds[|ds| - 2], ds[|ds| - 1])]
  {
    hide Pair, Convertible;
  }

  lemma {:induction false} AllDigits(ds: seq<byte>)
    requires forall i :: 0 <= i < |ds| ==> Convertible(ds[i])
    ensures Digits(ds) == ds
  {
    if ds != [] {
      AllDigits(ds[..|ds| - 1]);
      assert ds == ds[..|ds| - 1] + [ds[|ds| - 1]];
    }
  }

  /** `hex_to_str` */
  function Decoded(hex: seq<byte>, reverse: bool): seq<byte> {
    if reverse then Pairs(Digits(hex)) else Reversed(Pairs(Digits(hex)))
  }

  lemma {:induction false} DigitsAppend(a: seq<byte>, b: seq<byte>)
    ensures Digits(a + b) == Digits(a) + Digits(b)
  {
    hide Convertible;
    if b == [] {
      assert a + b == a;
    } else {
      var n := |b| - 1;
      DigitsAppend(a, b[..n]);
      assert (a + b)[..|a + b| - 1] == a + b[..n] && (a + b)[|a + b| - 1] == b[n];
    }
  }

  lemma {:induction false} NoneConvertible(sep: seq<byte>)
    requires forall i :: 0 <= i < |sep| ==> !Convertible(sep[i])
    ensures Digits(sep) == []
  {
    if sep != [] { NoneConvertible(sep[..|sep| - 1]); }
  }

  /** Separators put in anywhere change nothing, for any input and in both directions. */
  lemma SeparatorsDoNotMatter(a: seq<byte>, sep: seq<byte>, b: seq<byte>, reverse: bool)
    requires forall i :: 0 <= i < |sep| ==> !Convertible(sep[i])
    ensures Decoded(a + sep + b, reverse) == Decoded(a + b, reverse)
  {
    hide Digits, Pairs, Reversed, Convertible;
    NoneConvertible(sep);
    DigitsAppend(a + sep, b);
    DigitsAppend(a, sep);
    DigitsAppend(a, b);
    assert Digits(a) + [] == Digits(a);
  }

  lemma RoundTrip(s: seq<byte>)
    ensures Decoded(Encode(s), true) == s && Decoded(Encode(s), false) == Reversed(s)
  {
    AllDigits(Encode(s));
    PairsOfEncoded(s);
  }

  // ---- digits and values

  const UPPER := "0123456789ABCDEF"

  /** A digit of that value, in either case; the letters beyond F are digits too. */
  predicate IsDigit(c: byte, v: nat) {
    if v < 10 then c == '0' as int + v
    else v < 36 && (c == 'A' as int + (v - 10) || c == 'a' as int + (v - 10))
  }

  lemma DigitValue(c: byte, v: nat)
    requires IsDigit(c, v)
    ensures v < 36 && Convertible(c) && Convert(c) == v
  {}

  /** What is no such digit separates. */
  lemma SeparatorsAre(c: byte)
    ensures Convertible(c) ==> IsDigit(c, Convert(c))
    ensures (forall v :: !IsDigit(c, v)) ==> !Convertible(c)
  {
    if Convertible(c) { assert IsDigit(c, Convert(c)); }
  }

  lemma DigitText(v: nat)
    requires v < 16
    ensures HexDigit(v) == UPPER[v] as int
  {}

  ghost predicate IsPair(x: byte, a: nat, b: nat) {
    x == Or(16 * a, b) % 0x100 && (a < 16 && b < 16 ==> x == 16 * a + b)
  }

  /** Two digits: the higher one shifted and or-ed, which for hexadecimal digits is their number. */
  lemma PairValue(l: byte, r: byte, a: nat, b: nat)
    requires IsDigit(l, a) && IsDigit(r, b)
    ensures Convertible(l) && Convertible(r) && IsPair(Pair(l, r), a, b)
  {
    hide Or, Shl, Pow2, IsDigit, Convertible, Convert;
    DigitValue(l, a);
    DigitValue(r, b);
    ShlFour(a);
    FourBits();
    if b < 16 {
      OrAbove(a, 0, b, 4);
      OrNothing(b);
    }
  }

  ghost predicate AreDigits(hex: seq<byte>, vs: seq<nat>) {
    |hex| == |vs| && forall k :: 0 <= k < |hex| ==> IsDigit(hex[k], vs[k])
  }

  lemma {:induction false} PairsAt(hex: seq<byte>, vs: seq<nat>, n: nat, i: nat)
    requires |hex| == 2 * n && i < n && AreDigits(hex, vs)
    requires forall k :: 0 <= k < |hex| ==> Convertible(hex[k])
    ensures |Pairs(hex)| == n && IsPair(Pairs(hex)[i], vs[2 * i], vs[2 * i + 1])
    decreases n
  {
    hide IsDigit, Pair, Pairs, Convertible, IsPair;
    var m := 2 * n - 2;
    assert hex == hex[..m] + [hex[m]] + [hex[m + 1]];
    PairsGrow(hex[..m], hex[m], hex[m + 1]);
    PairValue(hex[m], hex[m + 1], vs[m], vs[m + 1]);
    if i < n - 1 { PairsAt(hex[..m], vs[..m], n - 1, i); }
  }

  /** Every pair of digits, in either case, is read as the byte it stands for. */
  lemma DecodedAt(hex: seq<byte>, vs: seq<nat>, i: nat)
    requires |hex| % 2 == 0 && 2 * i < |hex| && AreDigits(hex, vs)
    ensures |Decoded(hex, true)| == |hex| / 2 && IsPair(Decoded(hex, true)[i], vs[2 * i], vs[2 * i + 1])
  {
    hide IsDigit, Pair, Pairs, Convertible, IsPair;
    forall k | 0 <= k < |hex| ensures Convertible(hex[k]) { DigitValue(hex[k], vs[k]); }
    AllDigits(hex);
    PairsAt(hex, vs, |hex| / 2, i);
  }

  /** A digit too many at the front is dropped. */
  lemma {:induction false} OddDropped(c: byte, ds: seq<byte>, reverse: bool)
    requires Convertible(c) && |ds| % 2 == 0 && forall i :: 0 <= i < |ds| ==> Convertible(ds[i])
    ensures Decoded([c] + ds, reverse) == Decoded(ds, reverse)
  {
    hide Convertible, Pairs, Reversed;
    AllDigits(ds);
    AllDigits([c] + ds);
    OddPairs(c, ds, |ds| / 2);
  }

  lemma {:induction false} OddPairs(c: byte, ds: seq<byte>, n: nat)
    requires Convertible(c) && |ds| == 2 * n && forall i :: 0 <= i < |ds| ==> Convertible(ds[i])
    ensures Pairs([c] + ds) == Pairs(ds)
    decreases n
  {
    hide Pair, Pairs, Convertible;
    if n == 0 {
      FewDigits(ds);
      FewDigits([c] + ds);
    } else {
      var m := 2 * n - 2;
      var front, l, r := ds[..m], ds[m], ds[m + 1];
      assert ds == front + [l] + [r] && [c] + ds == [c] + front + [l] + [r];
      PairsGrow(front, l, r);
      PairsGrow([c] + front, l, r);
      OddPairs(c, front, n - 1);
    }
  }

  /** Every byte is written as its two digits, the higher first, in capitals. */
  lemma {:induction false} EncodedAt(s: seq<byte>, i: nat)
    requires i < |s|
    ensures Encode(s)[2 * i] == UPPER[s[i] / 16] as int && Encode(s)[2 * i + 1] == UPPER[s[i] % 16] as int
    decreases |s|
  {
    hide HexDigit, Convertible;
    DigitText(s[i] / 16);
    DigitText(s[i] % 16);
    if i < |s| - 1 { EncodedAt(s[..|s| - 1], i); }
  }

  // ---- the code

  method StrToHex(input: seq<byte>) returns (output: seq<byte>)
    ensures output == Encode(input)
  {
    output := [];
    for i := 0 to |input|
      invariant output == Encode(input[..i])
    {
      assert input[..i + 1][..i] == input[..i];
      output := output + [HexDigit(input[i] / 16)];
      output := output + [HexDigit(input[i] % 16)];
    }
    assert input[..|input|] == input;
  }

  lemma EmptyPrefix(hex: seq<byte>)
    ensures Digits(hex[..0]) == []
  {}

  /** Moves the cursor back to a digit, which must be there. */
  method SkipBack(hex: seq<byte>, from: int) returns (at: nat)
    requires -1 <= from < |hex| && Digits(hex[..from + 1]) != []
    ensures at <= from && Convertible(hex[at])
    ensures Digits(hex[..from + 1]) == Digits(hex[..at]) + [hex[at]]
  {
    var data := from;
    EmptyPrefix(hex);
    while !Convertible(hex[data])
      invariant 0 <= data <= from && Digits(hex[..data + 1]) == Digits(hex[..from + 1])
      decreases data
    {
      assert hex[..data + 1][..data] == hex[..data];
      data := data - 1;
    }
    assert hex[..data + 1][..data] == hex[..data];
    return data;
  }

  lemma NoDigits()
    ensures Digits([]) == [] && Reversed([]) == []
  {}

  lemma FewDigits(ds: seq<byte>)
    requires |ds| < 2 && forall i :: 0 <= i < |ds| ==> Convertible(ds[i])
    ensures Pairs(ds) == []
  {}

  lemma Prepended(s: seq<byte>, c: byte)
    ensures Reversed(s + [c]) == [c] + Reversed(s)
  {
    ReversedAppends(s, [c]);
    assert [c][1..] == [];
  }

  method HexToStr(hex: seq<byte>, reverse: bool) returns (r: seq<byte>)
    ensures r == Decoded(hex, reverse)
  {
    hide Pair, Pairs, Convertible, Digits, Reversed;
    var count := CountDigits(hex);
    var buf := new byte[count / 2];
    var data: int := |hex| - 1;
    assert hex[..data + 1] == hex;
    ghost var all := Pairs(Digits(hex));
    NoDigits();
    for i := 0 to buf.Length
      invariant -1 <= data < |hex|
      invariant |Digits(hex[..data + 1])| / 2 == buf.Length - i
      invariant all == Pairs(Digits(hex[..data + 1])) + Reversed(buf[..i])
    {
      var right := SkipBack(hex, data);
      var left := SkipBack(hex, right - 1);
      ghost var front := Digits(hex[..left]);
      PairsGrow(front, hex[left], hex[right]);
      buf[i] := Pair(hex[left], hex[right]);
      assert buf[..i + 1] == buf[..i] + [buf[i]];
      Prepended(buf[..i], buf[i]);
      assert Pairs(front) + [buf[i]] + Reversed(buf[..i]) == Pairs(front) + Reversed(buf[..i + 1]);
      data := left as int - 1;
    }
    FewDigits(Digits(hex[..data + 1]));
    assert buf[..buf.Length] == buf[..];
    assert [] + Reversed(buf[..]) == Reversed(buf[..]);
    ReversedTwice(buf[..]);
    if reverse { ReverseInPlace(buf); }
    return buf[..];
  }

  method CountDigits(hex: seq<byte>) returns (n: nat)
    ensures n == |Digits(hex)|
  {
    n := 0;
    for i := 0 to |hex|
      invariant n == |Digits(hex[..i])|
    {
      assert hex[..i + 1][..i] == hex[..i];
      if Convertible(hex[i]) { n := n + 1; }
    }
    assert hex[..|hex|] == hex;
  }

  lemma {:induction false} ReversedAt(s: seq<byte>, k: nat)
    requires k < |s|
    ensures Reversed(s)[k] == s[|s| - 1 - k]
  {
    if k < |s| - 1 { ReversedAt(s[1..], k); }
  }

  method ReverseInPlace(a: array<byte>)
    modifies a
    ensures a[..] == Reversed(old(a[..]))
  {
    var n := a.Length;
    for i := 0 to n / 2
      invariant forall k :: 0 <= k < n ==> a[k] == old(if k < i || k >= n - i then a[n - 1 - k] else a[k])
    {
      a[i], a[n - 1 - i] := a[n - 1 - i], a[i];
    }
    forall k | 0 <= k < n ensures a[k] == Reversed(old(a[..]))[k] {
      ReversedAt(old(a[..]), k);
    }
  }
}
