/** Octets, powers of two, and bit strings read most significant bit first. */
module Bits {
  type byte = n: int | 0 <= n < 256

  type Bytes = seq<byte>

  type Bitstring = seq<bool>

  function Pow2(n: nat): (p: nat)
    ensures p >= 1
  {
    if n == 0 then 1 else 2 * Pow2(n - 1)
  }

  lemma {:induction false} Pow2Add(a: nat, b: nat)
    ensures Pow2(a + b) == Pow2(a) * Pow2(b)
  {
    if b == 0 {
    } else {
      Pow2Add(a, b - 1);
      calc {
        Pow2(a + b);
        2 * Pow2(a + (b - 1));
        2 * (Pow2(a) * Pow2(b - 1));
        Pow2(a) * (2 * Pow2(b - 1));
      }
    }
  }

  /** The powers the codecs use by value. */
  lemma Pow2Values()
    ensures Pow2(0) == 1 && Pow2(1) == 2 && Pow2(2) == 4 && Pow2(3) == 8 && Pow2(4) == 16
    ensures Pow2(5) == 32 && Pow2(6) == 64 && Pow2(7) == 128 && Pow2(8) == 256
    ensures Pow2(30) == 0x4000_0000 && Pow2(32) == 0x1_0000_0000
  {
    assert Pow2(8) == 256 by {
      assert Pow2(4) == 16;
      Pow2Add(4, 4);
    }
    Pow2Add(8, 8);
    Pow2Add(16, 8);
    Pow2Add(24, 6);
    Pow2Add(24, 8);
  }

  function Bit(b: bool): nat {
    if b then 1 else 0
  }

  /** The number a bit string denotes. */
  function Val(w: Bitstring): nat {
    if w == [] then 0 else 2 * Val(w[..|w| - 1]) + Bit(w[|w| - 1])
  }

  /** The low n bits of v, most significant first. */
  function BitsOf(v: nat, n: nat): (w: Bitstring)
    ensures |w| == n
  {
    if n == 0 then [] else BitsOf(v / 2, n - 1) + [v % 2 == 1]
  }

  function Ones(n: nat): (w: Bitstring)
    ensures |w| == n && forall i :: 0 <= i < n ==> w[i]
  {
    seq(n, _ => true)
  }

  predicate AllOnes(w: Bitstring) {
    forall i :: 0 <= i < |w| ==> w[i]
  }

  lemma {:induction false} ValBound(w: Bitstring)
    ensures Val(w) < Pow2(|w|)
  {
    if w == [] {
    } else {
      ValBound(w[..|w| - 1]);
    }
  }

  lemma {:induction false} ValBitsOf(v: nat, n: nat)
    requires v < Pow2(n)
    ensures Val(BitsOf(v, n)) == v
  {
    if n == 0 {
    } else {
      var w, front := BitsOf(v, n), BitsOf(v / 2, n - 1);
      ValBitsOf(v / 2, n - 1);
      assert w[..n - 1] == front && w[n - 1] == (v % 2 == 1);
    }
  }

  lemma {:induction false} BitsOfVal(w: Bitstring)
    ensures BitsOf(Val(w), |w|) == w
  {
    if w == [] {
    } else {
      var front := w[..|w| - 1];
      BitsOfVal(front);
      assert Val(w) / 2 == Val(front);
      assert w == front + [w[|w| - 1]];
    }
  }

  lemma {:induction false} ValConcat(a: Bitstring, b: Bitstring)
    ensures Val(a + b) == Val(a) * Pow2(|b|) + Val(b)
  {
    if b == [] {
      assert a + b == a;
    } else {
      var front := b[..|b| - 1];
      ValConcat(a, front);
      assert (a + b)[..|a + b| - 1] == a + front;
      calc {
        Val(a + b);
        2 * Val(a + front) + Bit(b[|b| - 1]);
        2 * (Val(a) * Pow2(|front|)) + 2 * Val(front) + Bit(b[|b| - 1]);
        { assert 2 * (Val(a) * Pow2(|front|)) == Val(a) * (2 * Pow2(|front|)); }
        Val(a) * Pow2(|b|) + Val(b);
      }
    }
  }

  /** Two bit strings of one length that denote one number are equal. */
  lemma ValInjective(a: Bitstring, b: Bitstring)
    requires |a| == |b| && Val(a) == Val(b)
    ensures a == b
  {
    BitsOfVal(a);
    BitsOfVal(b);
  }

  lemma QuotientOrder(q: int, p: int, d: nat, r: nat)
    requires q < p && r < d
    ensures q * d + r < p * d
  {
    assert p * d == (q + 1) * d + (p - q - 1) * d;
    assert (q + 1) * d == q * d + d;
  }

  lemma QuotientUnique(q: int, r: nat, p: int, t: nat, d: nat)
    requires r < d && t < d && q * d + r == p * d + t
    ensures q == p && r == t
  {
    if q < p {
      QuotientOrder(q, p, d, r);
    } else if p < q {
      QuotientOrder(p, q, d, t);
    }
  }

  lemma DivMod(x: int, q: int, d: nat, r: nat)
    requires r < d && x == q * d + r
    ensures x / d == q && x % d == r
  {
    assert x == (x / d) * d + x % d;
    QuotientUnique(q, r, x / d, x % d, d);
  }

  /** Shifting right keeps the leading bits, masking keeps the trailing ones. */
  lemma ValSplit(w: Bitstring, k: nat)
    requires k <= |w|
    ensures Val(w) / Pow2(|w| - k) == Val(w[..k])
    ensures Val(w) % Pow2(|w| - k) == Val(w[k..])
  {
    assert w == w[..k] + w[k..];
    ValConcat(w[..k], w[k..]);
    ValBound(w[k..]);
    assert |w[k..]| == |w| - k;
    DivMod(Val(w), Val(w[..k]), Pow2(|w| - k), Val(w[k..]));
  }

  lemma {:induction false} ValAllOnes(w: Bitstring)
    ensures AllOnes(w) <==> Val(w) == Pow2(|w|) - 1
  {
    if w == [] {
    } else {
      var front := w[..|w| - 1];
      ValAllOnes(front);
      ValBound(front);
      assert w == front + [w[|w| - 1]];
    }
  }

  /** The bits of a sequence of octets. */
  function Unpack(s: Bytes): (w: Bitstring)
    ensures |w| == 8 * |s|
  {
    if s == [] then [] else BitsOf(s[0], 8) + Unpack(s[1..])
  }

  /** The octets that the bits of w fill. */
  function Pack(w: Bitstring): (s: Bytes)
    ensures |s| == |w| / 8
  {
    if |w| < 8 then [] else
      Pow2Values();
      ValBound(w[..8]);
      [Val(w[..8])] + Pack(w[8..])
  }

  /** The bits left over. */
  function Rest(w: Bitstring): (r: Bitstring)
    ensures |r| == |w| % 8
  {
    if |w| < 8 then w else Rest(w[8..])
  }

  function Val8(w: Bitstring): byte
    requires |w| == 8
  {
    Pow2Values();
    ValBound(w);
    Val(w)
  }

  lemma UnpackFirst(first: Bitstring, s: Bytes, tail: Bytes)
    requires |first| == 8 && s == [Val8(first)] + tail
    ensures Unpack(s) == first + Unpack(tail)
  {
    BitsOfVal(first);
    assert s[1..] == tail;
  }

  lemma InFront(w: Bitstring, first: Bitstring, tail: Bitstring, a: Bitstring, b: Bitstring)
    requires w == first + tail && tail == a + b
    ensures w == first + a + b
  {
  }

  lemma PackSplitsStep(w: Bitstring, tail: Bitstring)
    requires |w| >= 8 && tail == w[8..] && tail == Unpack(Pack(tail)) + Rest(tail)
    ensures w == Unpack(Pack(w)) + Rest(w)
  {
    var first := w[..8];
    assert Pack(w) == [Val8(first)] + Pack(tail) && Rest(w) == Rest(tail);
    UnpackFirst(first, Pack(w), Pack(tail));
    assert w == first + tail;
    InFront(w, first, tail, Unpack(Pack(tail)), Rest(tail));
  }

  lemma {:induction false} PackSplits(w: Bitstring)
    ensures w == Unpack(Pack(w)) + Rest(w)
    decreases |w|
  {
    if |w| < 8 {
      assert Pack(w) == [] && Unpack([]) == [];
    } else {
      PackSplits(w[8..]);
      PackSplitsStep(w, w[8..]);
    }
  }

  lemma {:induction false} PackUnpack(s: Bytes)
    ensures Pack(Unpack(s)) == s
  {
    if s == [] {
    } else {
      var w := Unpack(s);
      assert w[..8] == BitsOf(s[0], 8) && w[8..] == Unpack(s[1..]);
      Pow2Values();
      ValBitsOf(s[0], 8);
      PackUnpack(s[1..]);
    }
  }

  /** Packing can go on from the bits left over. */
  /** A whole octet in front packs by itself. */
  lemma OctetInFront(w: Bitstring, c: Bitstring)
    requires |w| >= 8
    ensures Pack(w)[0] == Pack(w + c)[0] && Pack(w) == [Pack(w)[0]] + Pack(w[8..])
    ensures Pack(w + c) == [Pack(w)[0]] + Pack(w[8..] + c)
    ensures Rest(w) == Rest(w[8..]) && Rest(w + c) == Rest(w[8..] + c)
  {
    assert (w + c)[..8] == w[..8] && (w + c)[8..] == w[8..] + c;
  }

  lemma SameFront(first: Bytes, a: Bytes, b: Bytes, c: Bytes)
    requires a == b + c
    ensures first + a == first + b + c
  {
  }

  lemma {:induction false} PackContinues(w: Bitstring, c: Bitstring)
    ensures Pack(w + c) == Pack(w) + Pack(Rest(w) + c)
    ensures Rest(w + c) == Rest(Rest(w) + c)
    decreases |w|
  {
    if |w| < 8 {
      assert Pack(w) == [];
    } else {
      var tail := w[8..];
      PackContinues(tail, c);
      OctetInFront(w, c);
      SameFront([Pack(w)[0]], Pack(tail + c), Pack(tail), Pack(Rest(tail) + c));
    }
  }

  /** Octet strings one behind the other. */
  function Join(parts: seq<Bytes>): Bytes {
    if parts == [] then [] else Join(parts[..|parts| - 1]) + parts[|parts| - 1]
  }

  lemma JoinSnoc(parts: seq<Bytes>, last: Bytes)
    ensures Join(parts + [last]) == Join(parts) + last
  {
    assert (parts + [last])[..|parts|] == parts;
  }

  lemma {:induction false} JoinCons(first: Bytes, parts: seq<Bytes>)
    ensures Join([first] + parts) == first + Join(parts)
    decreases |parts|
  {
    var all := [first] + parts;
    if parts == [] {
      assert all[..0] == [];
      assert Join(all) == [] + first == first + [];
    } else {
      var front, last := parts[..|parts| - 1], parts[|parts| - 1];
      assert all[..|all| - 1] == [first] + front;
      JoinCons(first, front);
      assert first + Join(front) + last == first + (Join(front) + last);
    }
  }
}
