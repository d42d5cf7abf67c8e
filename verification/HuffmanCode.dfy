/**
 * What it takes for a table of rows to be a complete prefix code. Everything here holds
 * of any table; HuffmanTableProof shows that the concrete one qualifies.
 */
module HuffmanCode {
  import opened Bits
  import opened HuffmanTable
  import opened Results

  type Table = seq<HuffmanRow>

  function CodeBits(row: HuffmanRow): (w: Bitstring)
    ensures |w| == row.bits
  {
    BitsOf(row.code, row.bits)
  }

  predicate WellFormed(t: Table) {
    && |t| == SYMBOLS
    && (forall s :: 0 <= s < |t| ==> t[s].symbol == s && 5 <= t[s].bits <= 30)
    && (forall s {:trigger CodeBits(t[s])} :: 0 <= s < |t| ==> t[s].code < Pow2(t[s].bits))
    && t[EOS].bits == 30 && t[EOS].code == Pow2(30) - 1
  }

  predicate Leads(t: Table, i: nat, j: nat) {
    i < |t| && j < |t| && CodeBits(t[i]) <= CodeBits(t[j])
  }

  ghost predicate PrefixFree(t: Table) {
    forall i: nat, j: nat {:trigger Leads(t, i, j)} :: Leads(t, i, j) ==> i == j
  }

  ghost predicate Matches(t: Table, w: Bitstring, i: nat) {
    i < |t| && CodeBits(t[i]) <= w
  }

  ghost predicate HasMatch(t: Table, w: Bitstring) {
    exists i: nat :: Matches(t, w, i)
  }

  ghost predicate Complete(t: Table) {
    forall w: Bitstring {:trigger HasMatch(t, w)} :: |w| == 30 ==> HasMatch(t, w)
  }

  ghost predicate CompletePrefixCode(t: Table) {
    WellFormed(t) && PrefixFree(t) && Complete(t)
  }

  /** How many 30-bit words a code of b bits leads. */
  function Span(b: nat): (n: nat)
    ensures n > 0
  {
    match b
    case 5 => 0x200_0000 case 6 => 0x100_0000 case 7 => 0x80_0000 case 8 => 0x40_0000
    case 9 => 0x20_0000 case 10 => 0x10_0000 case 11 => 0x8_0000 case 12 => 0x4_0000
    case 13 => 0x2_0000 case 14 => 0x1_0000 case 15 => 0x8000 case 16 => 0x4000
    case 17 => 0x2000 case 18 => 0x1000 case 19 => 0x800 case 20 => 0x400
    case 21 => 0x200 case 22 => 0x100 case 23 => 0x80 case 24 => 0x40
    case 25 => 0x20 case 26 => 0x10 case 27 => 8 case 28 => 4
    case 29 => 2 case _ => 1
  }

  /** The code length of the k-th smallest left-aligned code. */
  function Length(k: nat): (b: nat)
    ensures 5 <= b <= 30
  {
    if k < 10 then 5 else
    if k < 36 then 6 else
    if k < 68 then 7 else
    if k < 74 then 8 else
    if k < 79 then 10 else
    if k < 82 then 11 else
    if k < 84 then 12 else
    if k < 90 then 13 else
    if k < 92 then 14 else
    if k < 95 then 15 else
    if k < 98 then 19 else
    if k < 106 then 20 else
    if k < 119 then 21 else
    if k < 145 then 22 else
    if k < 174 then 23 else
    if k < 186 then 24 else
    if k < 190 then 25 else
    if k < 205 then 26 else
    if k < 224 then 27 else
    if k < 253 then 28 else 30
  }

  /** Codes of one length are consecutive: the k-th smallest code is k more than this. */
  function Base(b: nat): nat {
    match b
    case 5 => 0x0 case 6 => 0xa case 7 => 0x38 case 8 => 0xb4
    case 10 => 0x3ae case 11 => 0x7ab case 12 => 0xfa8 case 13 => 0x1fa4
    case 14 => 0x3fa2 case 15 => 0x7fa0 case 19 => 0x7ff91 case 20 => 0xfff84
    case 21 => 0x1fff72 case 22 => 0x3fff5b case 23 => 0x7fff47 case 24 => 0xffff3c
    case 25 => 0x1ffff32 case 26 => 0x3ffff22 case 27 => 0x7ffff11 case 28 => 0xfffff02 case _ => 0x3ffffeff
  }

  function Code(k: nat): nat {
    Base(Length(k)) + k
  }

  lemma {:induction false} SpanIsPow2(b: nat)
    requires 5 <= b <= 30
    ensures Span(b) == Pow2(30 - b)
    decreases 30 - b
  {
    if b == 30 {
      assert Span(b) == 1;
    } else {
      SpanIsPow2(b + 1);
    }
  }

  /** Where the k-th interval starts, and where the next one does. */
  function LowAt(k: nat): nat {
    Code(k) * Span(Length(k))
  }

  function HighAt(k: nat): nat {
    LowAt(k) + Span(Length(k))
  }

  lemma NextInterval(k: nat)
    requires k < 256
    ensures HighAt(k) == LowAt(k + 1)
  {
    if Length(k + 1) == Length(k) {
      assert (Code(k) + 1) * Span(Length(k)) == HighAt(k);
    } else {
      assert k in {9, 35, 67, 73, 78, 81, 83, 89, 91, 94, 97, 105, 118, 144, 173, 185, 189, 204, 223, 252};
    }
  }

  lemma {:induction false} IntervalsAscend(i: nat, j: nat)
    requires i < j < SYMBOLS
    ensures HighAt(i) <= LowAt(j)
    decreases j - i
  {
    NextInterval(i);
    if i + 1 == j {
    } else {
      IntervalsAscend(i + 1, j);
    }
  }

  lemma {:induction false} IntervalOf(v: nat, from: nat) returns (k: nat)
    requires from < SYMBOLS && LowAt(from) <= v < 0x4000_0000
    ensures k < SYMBOLS && LowAt(k) <= v < HighAt(k)
    decreases SYMBOLS - from
  {
    if v < HighAt(from) {
      k := from;
    } else {
      assert from != 256;
      NextInterval(from);
      k := IntervalOf(v, from + 1);
    }
  }

  lemma SplitWord(w: Bitstring, b: nat)
    requires 5 <= b <= 30 && |w| == 30
    ensures Val(w) == Val(w[..b]) * Span(b) + Val(w[b..]) && Val(w[b..]) < Span(b)
  {
    assert w == w[..b] + w[b..];
    ValConcat(w[..b], w[b..]);
    ValBound(w[b..]);
    SpanIsPow2(b);
  }

  lemma SameCode(row: HuffmanRow, w: Bitstring)
    requires |w| == row.bits && row.code < Pow2(row.bits)
    ensures CodeBits(row) == w <==> Val(w) == row.code
  {
    ValBitsOf(row.code, row.bits);
    if Val(w) == row.code {
      ValInjective(w, CodeBits(row));
    }
  }

  lemma SameQuotient(c: nat, q: nat, d: nat, r: nat)
    requires r < d
    ensures c == q <==> c * d <= q * d + r < c * d + d
  {
    if q < c {
      QuotientOrder(q, c, d, r);
    } else if c < q {
      QuotientOrder(c, q, d, d - 1);
    }
  }

  /** A 30-bit word starts with a code exactly when it lies in the interval of that code. */
  lemma InInterval(row: HuffmanRow, w: Bitstring)
    requires 5 <= row.bits <= 30 && row.code < Pow2(row.bits) && |w| == 30
    ensures CodeBits(row) <= w <==>
            row.code * Span(row.bits) <= Val(w) < row.code * Span(row.bits) + Span(row.bits)
  {
    SplitWord(w, row.bits);
    SameCode(row, w[..row.bits]);
    SameQuotient(row.code, Val(w[..row.bits]), Span(row.bits), Val(w[row.bits..]));
  }

  /** The row of symbol s holds the k-th smallest code. */
  predicate PlacedAt(row: HuffmanRow, s: nat, k: nat) {
    k < SYMBOLS && row == HuffmanRow(Length(k), Code(k), s)
  }

  lemma ScaleMonotone(a: nat, b: nat, d: nat)
    requires a <= b
    ensures a * d <= b * d
  {
  }

  lemma CodeFits(k: nat)
    requires k < SYMBOLS
    ensures Code(k) < Pow2(Length(k))
  {
    var d := Span(Length(k));
    if k < 256 {
      IntervalsAscend(k, 256);
    }
    assert LowAt(k) + d <= 0x4000_0000 by {
      assert HighAt(256) == 0x4000_0000;
    }
    SpanIsPow2(Length(k));
    Pow2Values();
    Pow2Add(Length(k), 30 - Length(k));
    if Pow2(Length(k)) <= Code(k) {
      ScaleMonotone(Pow2(Length(k)), Code(k), d);
    }
  }

  /** rank places every symbol among the codes sorted by left alignment; order is its inverse. */
  ghost predicate Tiling(t: Table, order: seq<nat>, rank: seq<nat>) {
    && |t| == |order| == |rank| == SYMBOLS
    && (forall s :: 0 <= s < SYMBOLS ==> PlacedAt(t[s], s, rank[s]) && order[rank[s]] == s)
    && (forall k :: 0 <= k < SYMBOLS ==> order[k] < SYMBOLS && rank[order[k]] == k)
    && rank[EOS] == 256
  }

  lemma TilingIsWellFormed(t: Table, order: seq<nat>, rank: seq<nat>)
    requires Tiling(t, order, rank)
    ensures WellFormed(t)
  {
    Pow2Values();
    forall s | 0 <= s < SYMBOLS
      ensures t[s].symbol == s && 5 <= t[s].bits <= 30 && t[s].code < Pow2(t[s].bits)
    {
      assert PlacedAt(t[s], s, rank[s]);
      CodeFits(rank[s]);
    }
    assert PlacedAt(t[EOS], EOS, rank[EOS]);
  }

  lemma TilingIsPrefixFree(t: Table, order: seq<nat>, rank: seq<nat>)
    requires Tiling(t, order, rank)
    ensures PrefixFree(t)
  {
    forall i: nat, j: nat | Leads(t, i, j)
      ensures i == j
    {
      TilingIsWellFormed(t, order, rank);
      assert PlacedAt(t[i], i, rank[i]) && PlacedAt(t[j], j, rank[j]);
      var w := CodeBits(t[j]) + seq(30 - t[j].bits, _ => false);
      assert CodeBits(t[i]) <= w && CodeBits(t[j]) <= w;
      InInterval(t[i], w);
      InInterval(t[j], w);
      if rank[i] < rank[j] {
        IntervalsAscend(rank[i], rank[j]);
      } else if rank[j] < rank[i] {
        IntervalsAscend(rank[j], rank[i]);
      }
      assert order[rank[i]] == order[rank[j]];
    }
  }

  lemma TilingIsComplete(t: Table, order: seq<nat>, rank: seq<nat>)
    requires Tiling(t, order, rank)
    ensures Complete(t)
  {
    forall w: Bitstring | |w| == 30
      ensures HasMatch(t, w)
    {
      ValBound(w);
      Pow2Values();
      var k := IntervalOf(Val(w), 0);
      TilingIsWellFormed(t, order, rank);
      assert PlacedAt(t[order[k]], order[k], rank[order[k]]);
      InInterval(t[order[k]], w);
      assert Matches(t, w, order[k]);
    }
  }

  // ----- bit strings made of codes -----

  function Codes(t: Table, symbols: seq<nat>): Bitstring
    requires forall i :: 0 <= i < |symbols| ==> symbols[i] < |t|
  {
    if symbols == [] then [] else CodeBits(t[symbols[0]]) + Codes(t, symbols[1..])
  }

  lemma {:induction false} CodesConcat(t: Table, a: seq<nat>, b: seq<nat>)
    requires forall i :: 0 <= i < |a| ==> a[i] < |t|
    requires forall i :: 0 <= i < |b| ==> b[i] < |t|
    ensures Codes(t, a + b) == Codes(t, a) + Codes(t, b)
  {
    if a == [] {
      assert a + b == b;
    } else {
      CodesConcat(t, a[1..], b);
      assert (a + b)[1..] == a[1..] + b;
    }
  }

  lemma CodesOne(t: Table, s: nat)
    requires s < |t|
    ensures Codes(t, [s]) == CodeBits(t[s])
  {
    assert [s][1..] == [];
    assert CodeBits(t[s]) + [] == CodeBits(t[s]);
  }

  lemma CodesSnoc(t: Table, front: seq<nat>, s: nat)
    requires forall i :: 0 <= i < |front| ==> front[i] < |t|
    requires s < |t|
    ensures Codes(t, front + [s]) == Codes(t, front) + CodeBits(t[s])
  {
    CodesConcat(t, front, [s]);
    CodesOne(t, s);
  }

  /** The first row, in table order, whose code starts w. */
  function Match(t: Table, w: Bitstring, from: nat): (r: Option<nat>)
    ensures r.Some? ==> r.value < |t| && CodeBits(t[r.value]) <= w
    decreases |t| - from
  {
    if from >= |t| then None
    else if CodeBits(t[from]) <= w then Some(from)
    else Match(t, w, from + 1)
  }

  lemma {:induction false} MatchFinds(t: Table, w: Bitstring, from: nat, s: nat)
    requires from <= s < |t| && CodeBits(t[s]) <= w
    ensures Match(t, w, from).Some?
    decreases |t| - from
  {
    if CodeBits(t[from]) <= w {
      assert Match(t, w, from) == Some(from);
    } else {
      MatchFinds(t, w, from + 1, s);
    }
  }

  lemma PrefixesNest(a: Bitstring, b: Bitstring, w: Bitstring)
    requires a <= w && b <= w && |a| <= |b|
    ensures a <= b
  {
    assert a == w[..|a|] && b == w[..|b|];
  }

  /** At most one row matches, so scanning in any order finds the same one. */
  lemma MatchUnique(t: Table, w: Bitstring, s: nat)
    requires PrefixFree(t) && s < |t| && CodeBits(t[s]) <= w
    ensures Match(t, w, 0) == Some(s)
  {
    MatchFinds(t, w, 0, s);
    var m := Match(t, w, 0).value;
    var a, b := CodeBits(t[m]), CodeBits(t[s]);
    if |a| <= |b| {
      PrefixesNest(a, b, w);
      assert Leads(t, m, s);
    } else {
      PrefixesNest(b, a, w);
      assert Leads(t, s, m);
    }
  }

  lemma PrefixOfTake(a: Bitstring, w: Bitstring, n: nat)
    requires n <= |w| && a <= w[..n]
    ensures a <= w
  {
    assert a == w[..n][..|a|] == w[..|a|];
  }

  /** Thirty bits are always enough to find a code. */
  lemma MatchTotal(t: Table, w: Bitstring)
    requires Complete(t) && |w| >= 30
    ensures Match(t, w, 0).Some?
  {
    assert HasMatch(t, w[..30]);
    var i: nat :| Matches(t, w[..30], i);
    PrefixOfTake(CodeBits(t[i]), w, 30);
    MatchFinds(t, w, 0, i);
  }

  lemma OnesNest(w: Bitstring, e: Bitstring)
    requires AllOnes(w) && AllOnes(e) && |w| <= |e|
    ensures w <= e
  {
    assert w == e[..|w|];
  }

  /** Only the end-of-string code is all ones, so padding never contains a byte's code. */
  lemma ByteCodeHasZero(t: Table, s: nat)
    requires CompletePrefixCode(t) && s < EOS
    ensures !AllOnes(CodeBits(t[s]))
  {
    var e, w := CodeBits(t[EOS]), CodeBits(t[s]);
    ValBitsOf(t[EOS].code, 30);
    ValAllOnes(e);
    if AllOnes(w) {
      OnesNest(w, e);
      assert Leads(t, s, EOS);
    }
  }
}
