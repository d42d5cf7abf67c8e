/**
 * Huffman encoding with the 32-bit signed buffer of src/hpack/string.ts:13-44, and exactly
 * which inputs survive it.
 */
module HuffmanEncoder {
  import opened Bits
  import opened Int32
  import opened HuffmanTable
  import opened HuffmanCode
  import opened HuffmanTableProof
  import opened HuffmanDecoder
  import opened PrefixInteger
  import opened Results

  /** buffer, bits not yet emitted, octets emitted. */
  datatype Coder = Coder(buffer: int, pending: nat, out: Bytes)

  /** The octets that n waiting bits fill, read from the buffer top first. */
  function Drain(x: int, n: nat): Bytes {
    if n < 8 then [] else [OctetAt(x, n - 8)] + Drain(x, n - 8)
  }

  function PushCode(c: Coder, row: HuffmanRow): Coder {
    var x := ShiftIn(c.buffer, row.bits, row.code);
    var n := c.pending + row.bits;
    Coder(x, n % 8, c.out + Drain(x, n))
  }

  /** The coder after the first i octets. */
  function Push(t: Table, input: Bytes, i: nat): Coder
    requires WellFormed(t) && i <= |input|
  {
    if i == 0 then Coder(0, 0, []) else PushCode(Push(t, input, i - 1), t[input[i - 1]])
  }

  /** Fills the last octet with ones. */
  function Flush(c: Coder): Bytes {
    if 0 < c.pending < 8 then
      var pad := 8 - c.pending;
      c.out + [OctetAt(ShiftIn(c.buffer, pad, Pow2(pad) - 1), 0)]
    else c.out
  }

  function Encode32(t: Table, input: Bytes): Bytes
    requires WellFormed(t)
  {
    Flush(Push(t, input, |input|))
  }

  lemma DrainFirst(x: int, n: nat, out: Bytes)
    requires n >= 8
    ensures out + Drain(x, n) == out + [OctetAt(x, n - 8)] + Drain(x, n - 8)
  {
  }

  method DrainBuffer(buffer: int, n: nat) returns (out: Bytes, bitsInBuffer: nat)
    ensures out == Drain(buffer, n) && bitsInBuffer == n % 8
  {
    out, bitsInBuffer := [], n;
    while bitsInBuffer >= 8
      invariant bitsInBuffer % 8 == n % 8
      invariant Drain(buffer, n) == out + Drain(buffer, bitsInBuffer)
    {
      DrainFirst(buffer, bitsInBuffer, out);
      bitsInBuffer := bitsInBuffer - 8;
      out := out + [OctetAt(buffer, bitsInBuffer)];
    }
  }

  method HuffmanEncode(t: Table, input: Bytes) returns (out: Bytes)
    requires WellFormed(t)
    ensures out == Encode32(t, input)
  {
    var buffer, bitsInBuffer: nat := 0, 0;
    out := [];
    for i := 0 to |input|
      invariant Coder(buffer, bitsInBuffer, out) == Push(t, input, i)
    {
      var row := t[input[i]];
      var drained;
      buffer := ShiftIn(buffer, row.bits, row.code);
      drained, bitsInBuffer := DrainBuffer(buffer, bitsInBuffer + row.bits);
      out := out + drained;
    }
    out := Flush(Coder(buffer, bitsInBuffer, out));
  }

  // ----- what the buffer holds -----

  /** The codes of the first i octets. */
  function CodesTo(t: Table, input: Bytes, i: nat): Bitstring
    requires |t| == SYMBOLS && i <= |input|
  {
    if i == 0 then [] else CodesTo(t, input, i - 1) + CodeBits(t[input[i - 1]])
  }

  lemma {:induction false} CodesToIsCodes(t: Table, input: Bytes, i: nat)
    requires |t| == SYMBOLS && i <= |input|
    ensures CodesTo(t, input, i) == Codes(t, input[..i])
  {
    if i == 0 {
    } else {
      CodesToIsCodes(t, input, i - 1);
      assert input[..i] == input[..i - 1] + [input[i - 1]];
      CodesSnoc(t, input[..i - 1], input[i - 1]);
    }
  }

  /** The bits that wait for an octet to fill. */
  function Waiting(t: Table, input: Bytes, i: nat): Bitstring
    requires |t| == SYMBOLS && i <= |input|
  {
    Rest(CodesTo(t, input, i))
  }

  /** The bits that the code of input[i] joins. */
  function Live(t: Table, input: Bytes, i: nat): Bitstring
    requires |t| == SYMBOLS && i < |input|
  {
    Waiting(t, input, i) + CodeBits(t[input[i]])
  }

  /** How many bits do not fit. */
  function Lost(live: Bitstring): (n: nat)
    ensures n <= |live|
  {
    if |live| <= 32 then 0 else |live| - 32
  }

  /** Bits past the 32nd are gone; reading them gives the sign bit instead. */
  function Held(live: Bitstring): (w: Bitstring)
    ensures |w| == |live|
  {
    if |live| <= 32 then live
    else Copies(live[Lost(live)], Lost(live)) + live[Lost(live)..]
  }

  /** The octets that each of the first n codes completes. */
  function HeldOctets(t: Table, input: Bytes, n: nat): (parts: seq<Bytes>)
    requires |t| == SYMBOLS && n <= |input|
    ensures |parts| == n
  {
    seq(n, i requires 0 <= i < n => Pack(Held(Live(t, input, i))))
  }

  /** The octets emitted, whatever is lost. */
  function Emitted(t: Table, input: Bytes, i: nat): Bytes
    requires |t| == SYMBOLS && i <= |input|
  {
    Join(HeldOctets(t, input, i))
  }

  lemma EmittedNext(t: Table, input: Bytes, i: nat)
    requires |t| == SYMBOLS && i < |input|
    ensures Emitted(t, input, i + 1) == Emitted(t, input, i) + Pack(Held(Live(t, input, i)))
  {
    assert HeldOctets(t, input, i + 1) == HeldOctets(t, input, i) + [Pack(Held(Live(t, input, i)))];
    JoinSnoc(HeldOctets(t, input, i), Pack(Held(Live(t, input, i))));
  }

  function Fill(waiting: Bitstring): nat
    requires |waiting| < 8
  {
    if waiting == [] then 0 else 8 - |waiting|
  }

  /** How many ones fill the last octet. */
  function Padding(w: Bitstring): (k: nat)
    ensures k < 8 && (|w| + k) % 8 == 0
  {
    Fill(Rest(w))
  }

  lemma {:induction false} DrainShown(x: int, w: Bitstring)
    requires Shows(x, w)
    ensures Drain(x, |w|) == Pack(w) && Shows(x, Rest(w))
    decreases |w|
  {
    if |w| < 8 {
      assert Pack(w) == [] && Rest(w) == w;
    } else {
      ShownOctet(x, w);
      ShowsDrop(x, w, 8);
      DrainShown(x, w[8..]);
    }
  }

  lemma DrainFrom(x: int, first: byte, w: Bitstring)
    requires OctetAt(x, |w|) == first && Shows(x, w)
    ensures Drain(x, |w| + 8) == [first] + Pack(w) && Shows(x, Rest(w))
  {
    DrainShown(x, w);
  }

  lemma HeldParts(live: Bitstring)
    requires 32 < |live| <= 37
    ensures var lost := |live| - 32;
            Held(live)[..8] == Copies(live[lost], lost) + live[lost..][..8 - lost] && Held(live)[8..] == live[8..]
  {
  }

  lemma DrainSigned(x: int, live: Bitstring, lost: nat)
    requires 0 < lost <= 5 && |live| == 32 + lost && -0x8000_0000 <= x < 0x8000_0000
    requires Shows(x, live[lost..])
    ensures Drain(x, |live|) == Pack(Held(live)) && Shows(x, Rest(live))
  {
    var low := live[lost..];
    SignFilledOctet(x, low, 8 - lost);
    ShowsDrop(x, low, 8 - lost);
    assert low[8 - lost..] == live[8..];
    HeldParts(live);
    Pow2Values();
    ValBound(Held(live)[..8]);
    DrainFrom(x, Val(Held(live)[..8]), live[8..]);
  }

  /** Draining a buffer that shows what 32 bits can show of live emits what is held. */
  lemma DrainHeld(x: int, live: Bitstring)
    requires |live| <= 37 && -0x8000_0000 <= x < 0x8000_0000
    requires Shows(x, live[Lost(live)..])
    ensures Drain(x, |live|) == Pack(Held(live)) && Shows(x, Rest(live))
  {
    if |live| <= 32 {
      assert live[0..] == live;
      DrainShown(x, live);
    } else {
      DrainSigned(x, live, Lost(live));
    }
  }

  /** One more code fills octets and leaves others of its bits waiting. */
  lemma NextCode(t: Table, input: Bytes, i: nat)
    requires |t| == SYMBOLS && i < |input|
    ensures Waiting(t, input, i + 1) == Rest(Live(t, input, i))
    ensures Pack(CodesTo(t, input, i + 1)) == Pack(CodesTo(t, input, i)) + Pack(Live(t, input, i))
  {
    PackContinues(CodesTo(t, input, i), CodeBits(t[input[i]]));
  }

  ghost predicate Holds(c: Coder, waiting: Bitstring, out: Bytes) {
    c.pending == |waiting| < 8 && Shows(c.buffer, waiting) && c.out == out
  }

  lemma PushNone(t: Table, input: Bytes)
    requires WellFormed(t)
    ensures Holds(Push(t, input, 0), Waiting(t, input, 0), Emitted(t, input, 0))
  {
    ShowsEmpty(0);
  }

  lemma PushLive(c: Coder, waiting: Bitstring, out: Bytes, row: HuffmanRow)
    requires Holds(c, waiting, out) && row.bits <= 30 && row.code < Pow2(row.bits)
    ensures var live := waiting + CodeBits(row);
            Holds(PushCode(c, row), Rest(live), out + Pack(Held(live)))
  {
    var live := waiting + CodeBits(row);
    ShiftInShows(c.buffer, waiting, row.bits, row.code, Lost(live));
    DrainHeld(ShiftIn(c.buffer, row.bits, row.code), live);
  }

  lemma PushNext(t: Table, input: Bytes, i: nat)
    requires WellFormed(t) && i < |input|
    requires Holds(Push(t, input, i), Waiting(t, input, i), Emitted(t, input, i))
    ensures Holds(Push(t, input, i + 1), Waiting(t, input, i + 1), Emitted(t, input, i + 1))
  {
    NextCode(t, input, i);
    EmittedNext(t, input, i);
    PushLive(Push(t, input, i), Waiting(t, input, i), Emitted(t, input, i), t[input[i]]);
  }

  ghost predicate HoldsAt(t: Table, input: Bytes, i: nat)
    requires WellFormed(t) && i <= |input|
  {
    Holds(Push(t, input, i), Waiting(t, input, i), Emitted(t, input, i))
  }

  lemma NoneHolds(t: Table, input: Bytes)
    requires WellFormed(t)
    ensures HoldsAt(t, input, 0)
  {
    PushNone(t, input);
  }

  lemma NextHolds(t: Table, input: Bytes, i: nat)
    requires WellFormed(t) && i < |input| && HoldsAt(t, input, i)
    ensures HoldsAt(t, input, i + 1)
  {
    PushNext(t, input, i);
  }

  lemma {:induction false} AlwaysHolds(t: Table, input: Bytes, i: nat)
    requires WellFormed(t) && i <= |input|
    ensures HoldsAt(t, input, i)
  {
    if i == 0 {
      NoneHolds(t, input);
    } else {
      AlwaysHolds(t, input, i - 1);
      NextHolds(t, input, i - 1);
    }
  }

  lemma PushHolds(t: Table, input: Bytes, i: nat)
    requires WellFormed(t) && i <= |input|
    ensures Holds(Push(t, input, i), Waiting(t, input, i), Emitted(t, input, i))
  {
    AlwaysHolds(t, input, i);
  }

  lemma OnesBits(k: nat)
    ensures BitsOf(Pow2(k) - 1, k) == Ones(k)
  {
    ValAllOnes(Ones(k));
    BitsOfVal(Ones(k));
  }

  lemma OneOctet(x: int, w: Bitstring)
    requires |w| == 8 && Shows(x, w)
    ensures Pack(w) == [OctetAt(x, 0)]
  {
    ShownOctet(x, w);
    assert w[..8] == w && w[8..] == [];
  }

  lemma FlushOctet(x: int, waiting: Bitstring, k: nat, fill: nat)
    requires |waiting| + k == 8 && Shows(x, waiting) && fill < Pow2(k) && BitsOf(fill, k) == Ones(k)
    ensures Pack(waiting + Ones(k)) == [OctetAt(ShiftIn(x, k, fill), 0)]
  {
    var full := waiting + Ones(k);
    ShiftInShows(x, waiting, k, fill, 0);
    assert full[0..] == full;
    OneOctet(ShiftIn(x, k, fill), full);
  }

  lemma FlushFills(c: Coder, waiting: Bitstring, out: Bytes)
    requires Holds(c, waiting, out)
    ensures Flush(c) == out + Pack(waiting + Ones(Fill(waiting)))
  {
    if waiting == [] {
      assert waiting + Ones(0) == [];
    } else {
      var k := 8 - |waiting|;
      OnesBits(k);
      FlushOctet(c.buffer, waiting, k, Pow2(k) - 1);
    }
  }

  /** What the encoder emits for any input, including those it corrupts. */
  lemma EncodesEmitted(t: Table, input: Bytes)
    requires WellFormed(t)
    ensures var w := Codes(t, input);
            Encode32(t, input) == Emitted(t, input, |input|) + Pack(Rest(w) + Ones(Padding(w)))
  {
    PushHolds(t, input, |input|);
    assert input[..|input|] == input;
    CodesToIsCodes(t, input, |input|);
    FlushFills(Push(t, input, |input|), Waiting(t, input, |input|), Emitted(t, input, |input|));
  }

  // ----- when nothing is lost -----

  /**
   * The code of input[i] and the bits waiting before it fit the 32-bit buffer, or those that
   * do not fit are copies of the bit that becomes the sign.
   */
  predicate KeepsCode(t: Table, input: Bytes, i: nat)
    requires |t| == SYMBOLS && i < |input|
  {
    var live := Live(t, input, i);
    forall j :: 0 <= j < |live| - 32 ==> live[j] == live[|live| - 32]
  }

  predicate KeepsBits(t: Table, input: Bytes)
    requires |t| == SYMBOLS
  {
    forall i :: 0 <= i < |input| ==> KeepsCode(t, input, i)
  }

  lemma FirstOctet(a: Bitstring, b: Bitstring)
    requires |a| == |b| >= 8 && a[8..] == b[8..]
    ensures Pack(a) == Pack(b) <==> a[..8] == b[..8]
  {
    assert Pack(a)[0] == Val(a[..8]) && Pack(b)[0] == Val(b[..8]);
    if Pack(a) == Pack(b) {
      ValInjective(a[..8], b[..8]);
    }
  }

  lemma SignRepeats(live: Bitstring, lost: nat)
    requires 0 < lost <= 5 && |live| == 32 + lost
    ensures Copies(live[lost], lost) + live[lost..][..8 - lost] == live[..8] <==>
            forall j :: 0 <= j < lost ==> live[j] == live[lost]
  {
    var held := Copies(live[lost], lost) + live[lost..][..8 - lost];
    assert forall j :: 0 <= j < lost ==> held[j] == live[lost];
    assert forall j :: lost <= j < 8 ==> held[j] == live[..8][j];
    if held == live[..8] {
      assert forall j :: 0 <= j < lost ==> live[j] == live[..8][j];
    }
  }

  lemma HeldExactly(live: Bitstring)
    requires |live| <= 37
    ensures Pack(Held(live)) == Pack(live) <==> forall j :: 0 <= j < |live| - 32 ==> live[j] == live[|live| - 32]
  {
    if |live| > 32 {
      HeldParts(live);
      FirstOctet(Held(live), live);
      SignRepeats(live, |live| - 32);
    }
  }

  lemma SameParts<T>(a: seq<T>, b: seq<T>, c: seq<T>, d: seq<T>)
    requires |a| == |c|
    ensures a + b == c + d <==> a == c && b == d
  {
    if a + b == c + d {
      assert a == (a + b)[..|a|] == (c + d)[..|a|] == c;
      assert b == (a + b)[|a|..] == (c + d)[|a|..] == d;
    }
  }

  lemma {:induction false} JoinExactly(a: seq<Bytes>, b: seq<Bytes>)
    requires |a| == |b| && forall i :: 0 <= i < |a| ==> |a[i]| == |b[i]|
    ensures |Join(a)| == |Join(b)|
    ensures Join(a) == Join(b) <==> a == b
    decreases |a|
  {
    if a == [] {
    } else {
      var n := |a| - 1;
      JoinExactly(a[..n], b[..n]);
      SameParts(Join(a[..n]), a[n], Join(b[..n]), b[n]);
      SameParts(a[..n], [a[n]], b[..n], [b[n]]);
      assert a == a[..n] + [a[n]] && b == b[..n] + [b[n]];
    }
  }

  /** The octets that each code should complete. */
  function LiveOctets(t: Table, input: Bytes, n: nat): (parts: seq<Bytes>)
    requires |t| == SYMBOLS && n <= |input|
    ensures |parts| == n
  {
    seq(n, i requires 0 <= i < n => Pack(Live(t, input, i)))
  }

  lemma LiveNext(t: Table, input: Bytes, i: nat)
    requires |t| == SYMBOLS && i < |input|
    ensures Join(LiveOctets(t, input, i + 1)) == Join(LiveOctets(t, input, i)) + Pack(Live(t, input, i))
  {
    assert LiveOctets(t, input, i + 1) == LiveOctets(t, input, i) + [Pack(Live(t, input, i))];
    JoinSnoc(LiveOctets(t, input, i), Pack(Live(t, input, i)));
  }

  lemma {:induction false} LiveIsPacked(t: Table, input: Bytes, n: nat)
    requires |t| == SYMBOLS && n <= |input|
    ensures Join(LiveOctets(t, input, n)) == Pack(CodesTo(t, input, n))
  {
    if n == 0 {
    } else {
      LiveIsPacked(t, input, n - 1);
      LiveNext(t, input, n - 1);
      NextCode(t, input, n - 1);
    }
  }

  /** Losing bits never moves the bits that wait, so every code is judged on its own. */
  lemma EmittedExactly(t: Table, input: Bytes)
    requires WellFormed(t)
    ensures var live := Join(LiveOctets(t, input, |input|));
            |Emitted(t, input, |input|)| == |live| && (Emitted(t, input, |input|) == live <==> KeepsBits(t, input))
  {
    var held, live := HeldOctets(t, input, |input|), LiveOctets(t, input, |input|);
    forall i | 0 <= i < |input|
      ensures |held[i]| == |live[i]| && (held[i] == live[i] <==> KeepsCode(t, input, i))
    {
      HeldExactly(Live(t, input, i));
    }
    JoinExactly(held, live);
  }

  /** What section 5.2 of RFC 7541 asks for: the codes, most significant bit first, filled up with ones. */
  function Ideal(t: Table, input: Bytes): Bytes
    requires WellFormed(t)
  {
    var w := Codes(t, input);
    Pack(w + Ones(Padding(w)))
  }

  lemma EncodesExactly(t: Table, input: Bytes)
    requires WellFormed(t)
    ensures |Encode32(t, input)| == |Ideal(t, input)|
    ensures Encode32(t, input) == Ideal(t, input) <==> KeepsBits(t, input)
  {
    var w := Codes(t, input);
    EncodesEmitted(t, input);
    EmittedExactly(t, input);
    LiveIsPacked(t, input, |input|);
    assert input[..|input|] == input;
    CodesToIsCodes(t, input, |input|);
    PackContinues(w, Ones(Padding(w)));
    var last := Pack(Rest(w) + Ones(Padding(w)));
    SameParts(Emitted(t, input, |input|), last, Pack(w), last);
  }

  lemma IdealDecodes(t: Table, input: Bytes)
    requires CompletePrefixCode(t)
    ensures DecodeOctets(t, Ideal(t, input)) == Ok(input)
  {
    var w := Codes(t, input);
    var pad := Padding(w);
    var full := w + Ones(pad);
    PackSplits(full);
    assert Unpack(Pack(full)) + [] == Unpack(Pack(full));
    DecodeComplete(t, input, pad);
  }

  /** Only one string of that many octets decodes to input. */
  /** Octets that unpack to codes and ones are the packed codes and ones. */
  lemma PacksTo(out: Bytes, w: Bitstring, k: nat)
    requires Unpack(out) == w + Ones(k)
    ensures out == Pack(w + Ones(k)) && 8 * |out| == |w| + k
  {
    PackUnpack(out);
  }

  lemma IdealLength(t: Table, input: Bytes)
    requires WellFormed(t)
    ensures 8 * |Ideal(t, input)| == |Codes(t, input)| + Padding(Codes(t, input))
  {
  }

  lemma SamePadding(out: Bytes, w: Bitstring, k: nat, p: nat)
    requires Unpack(out) == w + Ones(k) && 8 * |out| == |w| + p
    ensures out == Pack(w + Ones(p))
  {
    PacksTo(out, w, k);
    assert k == p;
  }

  lemma OnlyIdealDecodes(t: Table, out: Bytes, input: Bytes)
    requires CompletePrefixCode(t) && |out| == |Ideal(t, input)| && DecodeOctets(t, out) == Ok(input)
    ensures out == Ideal(t, input)
  {
    var w := Codes(t, input);
    var k := DecodeSound(t, Unpack(out));
    IdealLength(t, input);
    SamePadding(out, w, k, Padding(w));
  }

  /**
   * The Huffman round trip: decoding gives the input back exactly when the 32-bit buffer
   * kept every bit.
   */
  lemma RoundTripExactly(t: Table, input: Bytes)
    requires CompletePrefixCode(t)
    ensures DecodeOctets(t, Encode32(t, input)) == Ok(input) <==> KeepsBits(t, input)
  {
    EncodesExactly(t, input);
    if KeepsBits(t, input) {
      IdealDecodes(t, input);
    } else if DecodeOctets(t, Encode32(t, input)) == Ok(input) {
      OnlyIdealDecodes(t, Encode32(t, input), input);
    }
  }

  /** Codes of at most 25 bits always fit behind the at most seven bits that wait. */
  lemma ShortCodesKeep(t: Table, input: Bytes)
    requires WellFormed(t)
    requires forall i :: 0 <= i < |input| ==> t[input[i]].bits <= 25
    ensures KeepsBits(t, input)
  {
  }

  lemma LosesABit(t: Table, input: Bytes)
    requires |t| == SYMBOLS && |input| == 2 && t[input[1]].bits == 30
    requires CodesTo(t, input, 1) == [true, false, true, true, true, false, false]
    ensures !KeepsBits(t, input)
  {
    var live := Live(t, input, 1);
    assert live[0] != live[5];
    assert !KeepsCode(t, input, 1);
  }

  lemma NextBit(v: nat, n: nat, b: bool)
    ensures BitsOf(2 * v + Bit(b), n + 1) == BitsOf(v, n) + [b]
  {
  }

  lemma SevenBits()
    ensures BitsOf(0x5c, 7) == [true, false, true, true, true, false, false]
  {
    NextBit(0, 0, true);
    NextBit(1, 1, false);
    NextBit(2, 2, true);
    NextBit(5, 3, true);
    NextBit(0xb, 4, true);
    NextBit(0x17, 5, false);
    NextBit(0x2e, 6, false);
  }

  /**
   * The buffer does lose bits: after the seven bits of ":" the thirty of a line feed push five
   * out that are not copies of the sign.
   */
  lemma BitsCanBeLost()
    ensures WellFormed(HUFFMAN_TABLE) && !KeepsBits(HUFFMAN_TABLE, [58, 10])
    ensures DecodeOctets(HUFFMAN_TABLE, Encode32(HUFFMAN_TABLE, [58, 10])) != Ok([58, 10])
  {
    TableIsCompletePrefixCode();
    var t, input: Bytes := HUFFMAN_TABLE, [58, 10];
    TableRow(58);
    TableRow(10);
    assert t[58] == HuffmanRow(7, 0x5c, 58) && t[10].bits == 30;
    SevenBits();
    assert CodesTo(t, input, 1) == CodeBits(t[58]);
    LosesABit(t, input);
    RoundTripExactly(t, input);
  }
}
