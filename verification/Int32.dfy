/** The 32-bit signed buffer of the Huffman encoder, and which bits it shows. */
module Int32 {
  import opened Bits

  /** Wraps into [-2^31, 2^31), as the bitwise operators of JavaScript do. */
  function ToInt32(x: int): (y: int)
    ensures -0x8000_0000 <= y < 0x8000_0000
  {
    var m := x % 0x1_0000_0000;
    if m < 0x8000_0000 then m else m - 0x1_0000_0000
  }

  /**
   * (x << n) | low for a value of n bits. The shift leaves n zero bits, so the disjunction is
   * a sum, and it cannot leave the range that the shift has wrapped into.
   */
  function ShiftIn(x: int, n: nat, low: nat): int {
    ToInt32(x * Pow2(n) + low)
  }

  /** x >> n, one bit at a time. The shift copies the sign, so it rounds down. */
  function ShiftRight(x: int, n: nat): int
    decreases n
  {
    if n == 0 then x else ShiftRight(x / 2, n - 1)
  }

  /** (x >> n) & 0xff */
  function OctetAt(x: int, n: nat): byte {
    ShiftRight(x, n) % 256
  }

  lemma HalveAndDivide(x: int, d: nat)
    requires d > 0
    ensures (x / 2) / d == x / (2 * d)
  {
    var q, r := (x / 2) / d, (x / 2) % d;
    assert x / 2 == q * d + r;
    assert q * (2 * d) == 2 * (q * d);
    DivMod(x, q, 2 * d, 2 * r + x % 2);
  }

  lemma {:induction false} ShiftRightDivides(x: int, n: nat)
    ensures ShiftRight(x, n) == x / Pow2(n)
    decreases n
  {
    if n == 0 {
    } else {
      ShiftRightDivides(x / 2, n - 1);
      HalveAndDivide(x, Pow2(n - 1));
    }
  }

  ghost predicate ShowsBy(x: int, w: Bitstring, k: int) {
    x == k * Pow2(|w|) + Val(w)
  }

  /** The low |w| bits of x, in two's complement, are w. */
  ghost predicate Shows(x: int, w: Bitstring) {
    exists k: int :: ShowsBy(x, w, k)
  }

  lemma Multiplier(x: int, w: Bitstring) returns (k: int)
    requires Shows(x, w)
    ensures x == k * Pow2(|w|) + Val(w)
  {
    k :| ShowsBy(x, w, k);
  }

  lemma ShowsEmpty(x: int)
    ensures Shows(x, [])
  {
    assert ShowsBy(x, [], x);
  }

  lemma Regroup(x: int, k: int, a: int, b: int, c: int, v: int)
    requires c == a * b && x == k * a + v
    ensures x * b == k * c + v * b
  {
    assert (k * a) * b == k * (a * b);
  }

  lemma DroppedSum(x: int, k: int, a: int, d: int, c: int, v: int, r: int)
    requires x == k * c + (v * d + r) && c == a * d
    ensures x == (k * a + v) * d + r
  {
    Regroup(k * a + v, k, a, d, c, v);
  }

  lemma DroppedValue(x: int, w: Bitstring, n: nat, k: int)
    requires n <= |w| && x == k * Pow2(|w|) + Val(w)
    ensures x == (k * Pow2(n) + Val(w[..n])) * Pow2(|w| - n) + Val(w[n..])
  {
    var a, d, c, v, r := Pow2(n), Pow2(|w| - n), Pow2(|w|), Val(w[..n]), Val(w[n..]);
    assert Val(w) == v * d + r by {
      assert w == w[..n] + w[n..];
      ValConcat(w[..n], w[n..]);
    }
    assert c == a * d by {
      Pow2Add(n, |w| - n);
    }
    DroppedSum(x, k, a, d, c, v, r);
  }

  lemma ShowsDrop(x: int, w: Bitstring, n: nat)
    requires Shows(x, w) && n <= |w|
    ensures Shows(x, w[n..])
  {
    var k := Multiplier(x, w);
    DroppedValue(x, w, n, k);
    assert |w[n..]| == |w| - n;
    assert ShowsBy(x, w[n..], k * Pow2(n) + Val(w[..n]));
  }

  lemma AppendedValue(x: int, w: Bitstring, c: Bitstring, k: int)
    requires x == k * Pow2(|w|) + Val(w)
    ensures x * Pow2(|c|) + Val(c) == k * Pow2(|w + c|) + Val(w + c)
  {
    ValConcat(w, c);
    Pow2Add(|w|, |c|);
    Regroup(x, k, Pow2(|w|), Pow2(|c|), Pow2(|w + c|), Val(w));
  }

  lemma ShowsAppend(x: int, w: Bitstring, c: Bitstring)
    requires Shows(x, w)
    ensures Shows(x * Pow2(|c|) + Val(c), w + c)
  {
    var k := Multiplier(x, w);
    AppendedValue(x, w, c, k);
    assert ShowsBy(x * Pow2(|c|) + Val(c), w + c, k);
  }

  lemma WrapBy(x: int) returns (m: int)
    ensures ToInt32(x) == x + m * 0x1_0000_0000
  {
    m := if x % 0x1_0000_0000 < 0x8000_0000 then -(x / 0x1_0000_0000) else -(x / 0x1_0000_0000) - 1;
  }

  lemma Shifted(k: int, m: int, a: int, b: int)
    ensures (k + m * b) * a == k * a + m * (a * b)
  {
    assert (m * b) * a == m * (a * b);
  }

  lemma ShowsWrap(x: int, w: Bitstring)
    requires Shows(x, w) && |w| <= 32
    ensures Shows(ToInt32(x), w)
  {
    var k := Multiplier(x, w);
    var m := WrapBy(x);
    var a, b := Pow2(|w|), Pow2(32 - |w|);
    assert a * b == 0x1_0000_0000 by {
      Pow2Values();
      Pow2Add(|w|, 32 - |w|);
    }
    Shifted(k, m, a, b);
    assert ShowsBy(ToInt32(x), w, k + m * b);
  }

  /** What the buffer shows after a value of n bits is shifted in and the top is lost. */
  lemma ShiftInShows(x: int, w: Bitstring, n: nat, low: nat, lost: nat)
    requires Shows(x, w) && low < Pow2(n) && lost <= |w| + n <= 32 + lost
    ensures Shows(ShiftIn(x, n, low), (w + BitsOf(low, n))[lost..])
  {
    var c := BitsOf(low, n);
    ValBitsOf(low, n);
    ShowsAppend(x, w, c);
    ShowsDrop(x * Pow2(n) + low, w + c, lost);
    ShowsWrap(x * Pow2(n) + low, (w + c)[lost..]);
  }

  lemma OctetOf(x: int, k: int, v: nat, d: nat, r: nat)
    requires v < 256 && r < d && x == k * (256 * d) + v * d + r
    ensures (x / d) % 256 == v
  {
    Regroup(k * 256 + v, k, 256, d, 256 * d, v);
    DivMod(x, k * 256 + v, d, r);
    DivMod(k * 256 + v, k, 256, v);
  }

  /** An octet read where eight shown bits stand is those bits. */
  lemma OctetIs(x: int, n: nat, k: int, v: nat, d: nat, r: nat)
    requires d == Pow2(n) && v < 256 && r < d && x == k * (256 * d) + v * d + r
    ensures OctetAt(x, n) == v
  {
    OctetOf(x, k, v, d, r);
    ShiftRightDivides(x, n);
  }

  /** The value of a front of eight bits and of what follows. */
  lemma FrontValue(w: Bitstring, v: nat, d: nat, r: nat)
    requires |w| >= 8 && v == Val(w[..8]) && d == Pow2(|w| - 8) && r == Val(w[8..])
    ensures Val(w) == v * d + r && r < d && v < 256 && Pow2(|w|) == 256 * d
  {
    assert w == w[..8] + w[8..];
    ValConcat(w[..8], w[8..]);
    ValBound(w[8..]);
    ValBound(w[..8]);
    Pow2Values();
    Pow2Add(8, |w| - 8);
  }

  lemma ShownOctet(x: int, w: Bitstring)
    requires Shows(x, w) && |w| >= 8
    ensures OctetAt(x, |w| - 8) == Val(w[..8])
  {
    var k := Multiplier(x, w);
    var v, d, r := Val(w[..8]), Pow2(|w| - 8), Val(w[8..]);
    FrontValue(w, v, d, r);
    OctetIs(x, |w| - 8, k, v, d, r);
  }

  /** With all 32 bits known, the number is known: the first bit is the sign. */
  lemma SignedValue(x: int, w: Bitstring)
    requires Shows(x, w) && |w| == 32 && -0x8000_0000 <= x < 0x8000_0000
    ensures x == if w[0] then Val(w) - 0x1_0000_0000 else Val(w)
  {
    var k := Multiplier(x, w);
    assert w == w[..1] + w[1..] && w[..1] == [w[0]];
    ValConcat(w[..1], w[1..]);
    ValBound(w[1..]);
    assert Pow2(32) == 0x1_0000_0000 && Pow2(31) == 0x8000_0000 by {
      Pow2Values();
      Pow2Add(1, 31);
    }
    assert Val([w[0]]) == Bit(w[0]) by {
      assert [w[0]][..0] == [];
    }
  }

  function Copies(b: bool, n: nat): (w: Bitstring)
    ensures |w| == n && forall i :: 0 <= i < n ==> w[i] == b
  {
    seq(n, _ => b)
  }

  lemma SplitWidths(m: nat)
    requires m < 8
    ensures Pow2(m) * Pow2(8 - m) == 256 && Pow2(m) * Pow2(32 - m) == 0x1_0000_0000
  {
    Pow2Values();
    Pow2Add(m, 32 - m);
    Pow2Add(m, 8 - m);
  }

  lemma ScaleBound(a: nat, b: nat)
    requires b > 0
    ensures a <= a * b
  {
  }

  lemma SignBits(negative: bool, x: int, a: nat, b: nat, d: nat, v: nat, r: nat, fill: nat)
    requires a * b == 256 && a * d == 0x1_0000_0000 && b > 0 && v < a && r < d
    requires x == v * d + r - (if negative then 0x1_0000_0000 else 0)
    requires fill == if negative then b - 1 else 0
    ensures (x / d) % 256 == fill * a + v
  {
    ScaleBound(a, b);
    if negative {
      var q := v - a;
      assert q * d == v * d - a * d;
      DivMod(x, q, d, r);
      assert (b - 1) * a == 256 - a;
    } else {
      DivMod(x, v, d, r);
    }
  }

  lemma {:induction false} ValZeros(w: Bitstring)
    requires forall i :: 0 <= i < |w| ==> !w[i]
    ensures Val(w) == 0
  {
    if w == [] {
    } else {
      ValZeros(w[..|w| - 1]);
    }
  }

  /** An octet read past bit 31 is filled up with copies of the sign. */
  lemma SignFilledOctet(x: int, w: Bitstring, m: nat)
    requires Shows(x, w) && |w| == 32 && -0x8000_0000 <= x < 0x8000_0000 && m < 8
    ensures OctetAt(x, 32 - m) == Val(Copies(w[0], 8 - m) + w[..m])
  {
    SignedValue(x, w);
    assert w == w[..m] + w[m..];
    ValConcat(w[..m], w[m..]);
    ValBound(w[..m]);
    ValBound(w[m..]);
    var fill := Copies(w[0], 8 - m);
    ValConcat(fill, w[..m]);
    ValAllOnes(fill);
    if !w[0] {
      ValZeros(fill);
    }
    SplitWidths(m);
    ShiftRightDivides(x, 32 - m);
    SignBits(w[0], x, Pow2(m), Pow2(8 - m), Pow2(32 - m), Val(w[..m]), Val(w[m..]), Val(fill));
  }
}
