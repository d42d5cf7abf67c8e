/** Huffman decoding, section 5.2 of RFC 7541 (src/hpack/string.ts:46-104). */
module HuffmanDecoder {
  import opened Bits
  import opened Results
  import opened HuffmanTable
  import opened HuffmanCode
  import opened PrefixInteger

  type Symbols = Result<seq<nat>, HpackError>

  /** The decoder sees at most this many bits at once: 29 left over and one more octet. */
  const WINDOW: nat := 37

  function Prepend(s: seq<nat>, r: Symbols): Symbols {
    match r
    case Err(e) => Err(e)
    case Ok(rest) => Ok(s + rest)
  }

  /**
   * The symbols that w denotes. A match whose remainder is all ones ends the string, but
   * only once the whole input fits the window, because that is when the loop looks.
   */
  function DecodeBits(t: Table, w: Bitstring): (r: Symbols)
    requires WellFormed(t)
    ensures r.Ok? ==> forall i :: 0 <= i < |r.value| ==> r.value[i] < |t|
    decreases |w|
  {
    if w == [] then Ok([])
    else
      match Match(t, w, 0)
      case None => Err(NoMatchingCode)
      case Some(s) =>
        var rest := w[t[s].bits..];
        if |w| <= WINDOW && AllOnes(rest) then Ok([s]) else Prepend([s], DecodeBits(t, rest))
  }

  function DecodeOctets(t: Table, octets: Bytes): Symbols
    requires WellFormed(t)
  {
    DecodeBits(t, Unpack(octets))
  }

  /** How many one bits may follow the last code. */
  predicate PaddingFits(t: Table, symbols: seq<nat>, k: nat)
    requires forall i :: 0 <= i < |symbols| ==> symbols[i] < |t|
  {
    k == 0 || (symbols != [] && t[symbols[|symbols| - 1]].bits + k <= WINDOW)
  }

  /** Whatever is accepted is exactly the codes of the symbols returned, followed by ones. */
  lemma {:induction false} DecodeSound(t: Table, w: Bitstring) returns (k: nat)
    requires WellFormed(t) && DecodeBits(t, w).Ok?
    ensures w == Codes(t, DecodeBits(t, w).value) + Ones(k)
    ensures PaddingFits(t, DecodeBits(t, w).value, k)
    decreases |w|
  {
    k := 0;
    if w == [] {
    } else {
      var s := Match(t, w, 0).value;
      var code, rest := CodeBits(t[s]), w[t[s].bits..];
      assert w == code + rest;
      if |w| <= WINDOW && AllOnes(rest) {
        k := |rest|;
        assert rest == Ones(k);
        assert Codes(t, [s]) == code;
      } else {
        k := DecodeSound(t, rest);
        var tail := DecodeBits(t, rest).value;
        assert ([s] + tail)[1..] == tail;
        assert code + (Codes(t, tail) + Ones(k)) == (code + Codes(t, tail)) + Ones(k);
      }
    }
  }

  lemma DecodeHead(t: Table, s: nat, rest: Bitstring)
    requires CompletePrefixCode(t) && s < |t|
    ensures DecodeBits(t, CodeBits(t[s]) + rest) ==
            if t[s].bits + |rest| <= WINDOW && AllOnes(rest) then Ok([s]) else Prepend([s], DecodeBits(t, rest))
  {
    var code := CodeBits(t[s]);
    var w := code + rest;
    assert w[..|code|] == code && w[|code|..] == rest;
    MatchUnique(t, w, s);
  }

  lemma EosIsOnes(t: Table)
    requires WellFormed(t)
    ensures AllOnes(CodeBits(t[EOS]))
  {
    Pow2Values();
    ValBitsOf(t[EOS].code, 30);
    ValAllOnes(CodeBits(t[EOS]));
  }

  /** The end-of-string symbol is the one whose code is all ones. */
  lemma OnlyEosIsOnes(t: Table, s: nat)
    requires CompletePrefixCode(t) && s < |t|
    ensures AllOnes(CodeBits(t[s])) <==> s == EOS
    ensures s == EOS ==> |CodeBits(t[s])| == 30
  {
    if s == EOS {
      EosIsOnes(t);
    } else {
      ByteCodeHasZero(t, s);
    }
  }

  predicate AllEos(symbols: seq<nat>) {
    symbols == [] || (symbols[0] == EOS && AllEos(symbols[1..]))
  }

  lemma OnesOfParts(a: Bitstring, b: Bitstring)
    ensures AllOnes(a + b) <==> AllOnes(a) && AllOnes(b)
  {
    if AllOnes(a + b) {
      assert forall i :: 0 <= i < |a| ==> a[i] == (a + b)[i];
      assert forall i :: 0 <= i < |b| ==> b[i] == (a + b)[|a| + i];
    }
  }

  /** What follows a code looks like padding exactly when it is padding behind end-of-string symbols. */
  lemma {:induction false} TailOfOnes(t: Table, symbols: seq<nat>, k: nat)
    requires CompletePrefixCode(t) && forall i :: 0 <= i < |symbols| ==> symbols[i] < |t|
    ensures AllOnes(Codes(t, symbols) + Ones(k)) <==> AllEos(symbols)
    ensures AllEos(symbols) ==> |Codes(t, symbols)| == 30 * |symbols|
    decreases |symbols|
  {
    if symbols == [] {
      assert Codes(t, symbols) + Ones(k) == Ones(k);
    } else {
      var s, tail := symbols[0], symbols[1..];
      var rest := Codes(t, tail) + Ones(k);
      assert Codes(t, symbols) + Ones(k) == CodeBits(t[s]) + rest;
      OnlyEosIsOnes(t, s);
      OnesOfParts(CodeBits(t[s]), rest);
      TailOfOnes(t, tail, k);
    }
  }

  /**
   * An end-of-string symbol at the end is taken for padding when it and what follows fit the window
   * with the code before.
   */
  predicate Swallowed(t: Table, symbols: seq<nat>, k: nat)
    requires forall i :: 0 <= i < |symbols| ==> symbols[i] < |t|
  {
    var n := |symbols|;
    n >= 2 && symbols[n - 1] == EOS && t[symbols[n - 2]].bits + 30 + k <= WINDOW
  }

  function Kept(t: Table, symbols: seq<nat>, k: nat): seq<nat>
    requires forall i :: 0 <= i < |symbols| ==> symbols[i] < |t|
  {
    if Swallowed(t, symbols, k) then symbols[..|symbols| - 1] else symbols
  }

  /** What follows the first code is taken for padding. */
  predicate EndsAtOnce(t: Table, s: nat, rest: Bitstring)
    requires s < |t|
  {
    t[s].bits + |rest| <= WINDOW && AllOnes(rest)
  }

  lemma LongDoesNotEnd(t: Table, s: nat, tail: seq<nat>, k: nat)
    requires CompletePrefixCode(t) && s < |t| && |tail| >= 2 && forall i :: 0 <= i < |tail| ==> tail[i] < |t|
    ensures !EndsAtOnce(t, s, Codes(t, tail) + Ones(k))
  {
    TailOfOnes(t, tail, k);
  }

  lemma KeptOfMany(t: Table, s: nat, tail: seq<nat>, k: nat)
    requires s < |t| && |tail| >= 2 && forall i :: 0 <= i < |tail| ==> tail[i] < |t|
    ensures Kept(t, [s] + tail, k) == [s] + Kept(t, tail, k)
  {
    var symbols := [s] + tail;
    assert symbols[|symbols| - 2] == tail[|tail| - 2] && symbols[|symbols| - 1] == tail[|tail| - 1];
    assert symbols[..|symbols| - 1] == [s] + tail[..|tail| - 1];
  }

  lemma EndsBeforeEos(t: Table, s: nat, next: nat, k: nat)
    requires CompletePrefixCode(t) && s < |t| && next < |t|
    ensures EndsAtOnce(t, s, Codes(t, [next]) + Ones(k)) <==> Swallowed(t, [s, next], k)
  {
    CodesOne(t, next);
    TailOfOnes(t, [next], k);
    assert [next][0] == next;
    OnlyEosIsOnes(t, next);
  }

  /** The symbols kept are those kept of the tail, unless the head ends the string. */
  lemma KeptOfTail(t: Table, s: nat, tail: seq<nat>, k: nat)
    requires CompletePrefixCode(t) && s < |t| && forall i :: 0 <= i < |tail| ==> tail[i] < |t|
    requires PaddingFits(t, [s] + tail, k)
    ensures Kept(t, [s] + tail, k) == if EndsAtOnce(t, s, Codes(t, tail) + Ones(k)) then [s] else [s] + Kept(t, tail, k)
  {
    if tail == [] {
      assert Codes(t, tail) + Ones(k) == Ones(k) && [s] + tail == [s];
    } else if |tail| == 1 {
      EndsBeforeEos(t, s, tail[0], k);
      assert tail == [tail[0]] && [s] + tail == [s, tail[0]];
    } else {
      LongDoesNotEnd(t, s, tail, k);
      KeptOfMany(t, s, tail, k);
    }
  }

  lemma HeadAndTail(t: Table, s: nat, tail: seq<nat>, k: nat)
    requires CompletePrefixCode(t) && s < |t| && forall i :: 0 <= i < |tail| ==> tail[i] < |t|
    ensures Codes(t, [s] + tail) + Ones(k) == CodeBits(t[s]) + (Codes(t, tail) + Ones(k))
  {
    assert ([s] + tail)[1..] == tail;
  }

  /** One symbol in front of what decodes already. */
  lemma DecodeOneMore(t: Table, s: nat, tail: seq<nat>, k: nat)
    requires CompletePrefixCode(t) && s < |t| && forall i :: 0 <= i < |tail| ==> tail[i] < |t|
    requires PaddingFits(t, [s] + tail, k)
    requires tail != [] ==> DecodeBits(t, Codes(t, tail) + Ones(k)) == Ok(Kept(t, tail, k))
    ensures DecodeBits(t, Codes(t, [s] + tail) + Ones(k)) == Ok(Kept(t, [s] + tail, k))
  {
    var rest := Codes(t, tail) + Ones(k);
    HeadAndTail(t, s, tail, k);
    DecodeHead(t, s, rest);
    KeptOfTail(t, s, tail, k);
    if tail == [] {
      assert rest == Ones(k);
    }
  }

  /** What codes with padding decode to. */
  lemma {:induction false} DecodeCodes(t: Table, symbols: seq<nat>, k: nat)
    requires CompletePrefixCode(t) && forall i :: 0 <= i < |symbols| ==> symbols[i] < |t|
    requires PaddingFits(t, symbols, k)
    ensures DecodeBits(t, Codes(t, symbols) + Ones(k)) == Ok(Kept(t, symbols, k))
    decreases |symbols|
  {
    if symbols == [] {
      assert Codes(t, symbols) + Ones(k) == [];
    } else {
      var s, tail := symbols[0], symbols[1..];
      assert symbols == [s] + tail;
      if tail != [] {
        assert tail[|tail| - 1] == symbols[|symbols| - 1];
        DecodeCodes(t, tail, k);
      }
      DecodeOneMore(t, s, tail, k);
    }
  }

  lemma DecodeComplete(t: Table, symbols: seq<nat>, k: nat)
    requires CompletePrefixCode(t)
    requires forall i :: 0 <= i < |symbols| ==> symbols[i] < EOS
    requires PaddingFits(t, symbols, k)
    ensures DecodeBits(t, Codes(t, symbols) + Ones(k)) == Ok(symbols)
  {
    DecodeCodes(t, symbols, k);
  }

  lemma CodesInjective(t: Table, a: seq<nat>, b: seq<nat>, j: nat, k: nat)
    requires CompletePrefixCode(t)
    requires forall i :: 0 <= i < |a| ==> a[i] < EOS
    requires forall i :: 0 <= i < |b| ==> b[i] < EOS
    requires PaddingFits(t, a, j) && PaddingFits(t, b, k)
    requires Codes(t, a) + Ones(j) == Codes(t, b) + Ones(k)
    ensures a == b
  {
    DecodeComplete(t, a, j);
    DecodeComplete(t, b, k);
  }

  /**
   * Exactly which bit strings decode to given symbols. The end-of-string symbol is one of them,
   * unless it stands last and is taken for padding; and padding may be longer than the seven
   * bits that section 5.2 of RFC 7541 allows, up to what the window lets the loop see.
   */
  lemma DecodeExactly(t: Table, w: Bitstring, symbols: seq<nat>)
    requires CompletePrefixCode(t) && forall i :: 0 <= i < |symbols| ==> symbols[i] < |t|
    ensures DecodeBits(t, w) == Ok(symbols) <==>
            exists k: nat :: PaddingFits(t, symbols, k) && !Swallowed(t, symbols, k) && w == Codes(t, symbols) + Ones(k)
  {
    if DecodeBits(t, w) == Ok(symbols) {
      var k := DecodeSound(t, w);
      DecodeCodes(t, symbols, k);
      assert PaddingFits(t, symbols, k) && !Swallowed(t, symbols, k);
    }
    if k: nat :| PaddingFits(t, symbols, k) && !Swallowed(t, symbols, k) && w == Codes(t, symbols) + Ones(k) {
      DecodeCodes(t, symbols, k);
    }
  }

  /** The end-of-string symbol alone is accepted, with up to seven ones behind it. */
  /** Fewer than thirty ones start no code. */
  lemma ShortOnesMatchNothing(t: Table, k: nat)
    requires CompletePrefixCode(t) && 0 < k < 30
    ensures Match(t, Ones(k), 0).None?
  {
    var r := Match(t, Ones(k), 0);
    if r.Some? {
      var code := CodeBits(t[r.value]);
      assert code <= Ones(k) && AllOnes(code);
      OnlyEosIsOnes(t, r.value);
    }
  }

  /** The end-of-string symbol alone is accepted exactly with at most seven ones behind it. */
  lemma EosIsAccepted(t: Table, k: nat)
    requires CompletePrefixCode(t) && k < 30
    ensures DecodeBits(t, Ones(30 + k)) == Ok([EOS]) <==> k <= 7
  {
    OnlyEosIsOnes(t, EOS);
    assert CodeBits(t[EOS]) + Ones(k) == Ones(30 + k);
    DecodeHead(t, EOS, Ones(k));
    if k > 7 {
      ShortOnesMatchNothing(t, k);
    }
  }

  lemma OctetOfOnes()
    ensures BitsOf(255, 8) == Ones(8)
  {
    Pow2Values();
    ValAllOnes(Ones(8));
    BitsOfVal(Ones(8));
  }

  /** Four octets of ones are that. */
  lemma FourOctetsAreEos(t: Table)
    requires CompletePrefixCode(t)
    ensures DecodeOctets(t, [255, 255, 255, 255]) == Ok([EOS])
  {
    OctetOfOnes();
    var a: Bytes := [255];
    assert Unpack(a[1..]) == [] && Unpack(a) == Ones(8);
    var b: Bytes := [255, 255];
    assert b[1..] == a && Unpack(b) == Ones(16);
    var c: Bytes := [255, 255, 255];
    assert c[1..] == b && Unpack(c) == Ones(24);
    var d: Bytes := [255, 255, 255, 255];
    assert d[1..] == c && Unpack(d) == Ones(32);
    EosIsAccepted(t, 2);
  }

  /** A rejected input is codes followed by fewer than thirty bits that start no code. */
  lemma {:induction false} DecodeRejects(t: Table, w: Bitstring) returns (symbols: seq<nat>, rest: Bitstring)
    requires CompletePrefixCode(t) && DecodeBits(t, w).Err?
    ensures DecodeBits(t, w).error == NoMatchingCode
    ensures forall i :: 0 <= i < |symbols| ==> symbols[i] < |t|
    ensures w == Codes(t, symbols) + rest
    ensures 0 < |rest| < 30 && Match(t, rest, 0) == None
    decreases |w|
  {
    if |w| >= 30 {
      MatchTotal(t, w);
    }
    match Match(t, w, 0)
    case None =>
      symbols, rest := [], w;
    case Some(s) =>
      var code, after := CodeBits(t[s]), w[t[s].bits..];
      assert w == code + after;
      var tail;
      tail, rest := DecodeRejects(t, after);
      symbols := [s] + tail;
      assert symbols[1..] == tail;
      assert code + (Codes(t, tail) + rest) == (code + Codes(t, tail)) + rest;
  }

  // ----- the loop -----

  lemma SmallMod(x: nat, d: nat)
    requires x < d
    ensures x % d == x
  {
    DivMod(x, 0, d, x);
  }

  /** The top bits of the buffer, as a number, equal a row's code exactly when the row matches. */
  lemma TopBits(t: Table, s: nat, window: Bitstring)
    requires WellFormed(t) && s < |t| && t[s].bits <= |window|
    ensures (Val(window) / Pow2(|window| - t[s].bits)) % Pow2(t[s].bits) == t[s].code
            <==> CodeBits(t[s]) <= window
  {
    var n, code := t[s].bits, CodeBits(t[s]);
    assert t[s].code < Pow2(n);
    var top := window[..n];
    ValSplit(window, n);
    assert Val(window) / Pow2(|window| - n) == Val(top);
    assert Val(top) % Pow2(n) == Val(top) by {
      ValBound(top);
      SmallMod(Val(top), Pow2(n));
    }
    SameCode(t[s], top);
  }

  /** Looking only at the window finds the row that the whole of what is left would find. */
  lemma {:induction false} MatchInWindow(t: Table, window: Bitstring, rest: Bitstring, from: nat)
    requires WellFormed(t) && (|window| >= 30 || rest == [])
    ensures Match(t, window + rest, from) == Match(t, window, from)
    decreases |t| - from
  {
    if rest == [] {
      assert window + rest == window;
    } else if from < |t| {
      var code := CodeBits(t[from]);
      assert code <= window + rest <==> code <= window by {
        assert (window + rest)[..|code|] == window[..|code|];
      }
      MatchInWindow(t, window, rest, from + 1);
    }
  }

  method RowMatches(t: Table, i: nat, bitBuffer: nat, bitsAvailable: nat, ghost window: Bitstring)
    returns (b: bool)
    requires WellFormed(t) && i < |t| && bitBuffer == Val(window)
    requires t[i].bits <= bitsAvailable == |window|
    ensures b <==> CodeBits(t[i]) <= window
  {
    TopBits(t, i, window);
    var shift := bitsAvailable - t[i].bits;
    var top := (bitBuffer / Pow2(shift)) % Pow2(t[i].bits);
    b := top == t[i].code;
  }

  /** The row scan of the decoder. */
  method FindRow(t: Table, bitBuffer: nat, bitsAvailable: nat, ghost window: Bitstring)
    returns (r: Option<nat>)
    requires WellFormed(t) && bitBuffer == Val(window) && bitsAvailable == |window|
    ensures r == Match(t, window, 0)
  {
    for i := 0 to |t|
      invariant Match(t, window, 0) == Match(t, window, i)
    {
      if t[i].bits <= bitsAvailable {
        var matched := RowMatches(t, i, bitBuffer, bitsAvailable, window);
        if matched {
          return Some(i);
        }
      }
    }
    return None;
  }

  lemma PushOctet(window: Bitstring, octet: byte)
    ensures Val(window + BitsOf(octet, 8)) == Val(window) * 256 + octet
  {
    Pow2Values();
    ValConcat(window, BitsOf(octet, 8));
    ValBitsOf(octet, 8);
  }

  /** Reading one octet moves eight bits from the unread octets to the window. */
  lemma ReadOctet(window: Bitstring, buf: Bytes, position: nat, end: nat)
    requires position < end <= |buf|
    ensures window + BitsOf(buf[position], 8) + Unpack(buf[position + 1..end]) == window + Unpack(buf[position..end])
  {
    assert buf[position..end][1..] == buf[position + 1..end];
  }

  /** Tops up the bit buffer to at least 30 bits, or to all that is left. */
  method TopUp(buf: Bytes, end: nat, bitBuffer0: nat, bitsAvailable0: nat, position0: nat, ghost window0: Bitstring)
    returns (bitBuffer: nat, bitsAvailable: nat, position: nat, underflow: bool, ghost window: Bitstring)
    requires bitBuffer0 == Val(window0) && bitsAvailable0 == |window0| <= WINDOW && position0 <= end
    ensures underflow ==> end > |buf|
    ensures !underflow ==>
            position0 <= position <= end && bitBuffer == Val(window) && bitsAvailable == |window| <= WINDOW
    ensures !underflow ==> bitsAvailable >= 30 || position == end
    ensures !underflow ==> position == position0 || position <= |buf|
    ensures !underflow ==> 8 * (end - position) + bitsAvailable == 8 * (end - position0) + bitsAvailable0
    ensures !underflow && end <= |buf| ==>
              window + Unpack(buf[position..end]) == window0 + Unpack(buf[position0..end])
  {
    bitBuffer, bitsAvailable, position, underflow, window :=
      bitBuffer0, bitsAvailable0, position0, false, window0;
    while bitsAvailable < 30 && position < end
      invariant position0 <= position <= end && bitBuffer == Val(window) && bitsAvailable == |window| <= WINDOW
      invariant position == position0 || position <= |buf|
      invariant 8 * (end - position) + bitsAvailable == 8 * (end - position0) + bitsAvailable0
      invariant end <= |buf| ==> window + Unpack(buf[position..end]) == window0 + Unpack(buf[position0..end])
    {
      if position >= |buf| {
        underflow := true;
        return;
      }
      var octet := buf[position];
      PushOctet(window, octet);
      if end <= |buf| {
        ReadOctet(window, buf, position, end);
      }
      bitBuffer := bitBuffer * 256 + octet;
      bitsAvailable := bitsAvailable + 8;
      position := position + 1;
      window := window + BitsOf(octet, 8);
    }
  }

  lemma PrependNothing(r: Symbols)
    ensures Prepend([], r) == r
  {
    assert r.Ok? ==> [] + r.value == r.value;
  }

  lemma PrependTwice(a: seq<nat>, b: seq<nat>, r: Symbols)
    ensures Prepend(a, Prepend(b, r)) == Prepend(a + b, r)
  {
    assert r.Ok? ==> a + (b + r.value) == (a + b) + r.value;
  }

  /** A row found in the window is the row that decoding the rest of the input starts with. */
  lemma Consume(t: Table, window: Bitstring, unread: Bitstring)
    requires WellFormed(t) && (|window| >= 30 || unread == []) && window != []
    ensures match Match(t, window, 0)
            case None => DecodeBits(t, window + unread) == Err(NoMatchingCode)
            case Some(s) =>
              var rest := window[t[s].bits..] + unread;
              DecodeBits(t, window + unread) ==
              if |window| + |unread| <= WINDOW && AllOnes(rest) then Ok([s]) else Prepend([s], DecodeBits(t, rest))
  {
    MatchInWindow(t, window, unread, 0);
    var m := Match(t, window, 0);
    if m.Some? {
      assert (window + unread)[t[m.value].bits..] == window[t[m.value].bits..] + unread;
    }
  }

  method DropBits(bitBuffer: nat, bitsAvailable: nat, bits: nat, ghost window: Bitstring)
    returns (buffer: nat, available: nat)
    requires bitBuffer == Val(window) && bits <= bitsAvailable == |window|
    ensures buffer == Val(window[bits..]) && available == |window| - bits
  {
    ValSplit(window, bits);
    available := bitsAvailable - bits;
    buffer := bitBuffer % Pow2(available);
  }

  method IsPadding(bitBuffer: nat, bitsAvailable: nat, ghost window: Bitstring) returns (b: bool)
    requires bitBuffer == Val(window) && bitsAvailable == |window|
    ensures b <==> AllOnes(window)
  {
    ValAllOnes(window);
    b := bitBuffer == Pow2(bitsAvailable) - 1;
  }

  /** The bits not yet consumed: those in the buffer and those of the octets not yet read. */
  ghost function Left(window: Bitstring, buf: Bytes, position: nat, end: nat): (w: Bitstring)
    requires position <= end <= |buf|
    ensures position == end ==> w == window
  {
    window + Unpack(buf[position..end])
  }

  /** The outer loop's work up to the padding test. */
  method NextSymbol(t: Table, buf: Bytes, end: nat, bitBuffer0: nat, bitsAvailable0: nat, position0: nat,
                    ghost window0: Bitstring)
    returns (r: Result<nat, HpackError>, bitBuffer: nat, bitsAvailable: nat, position: nat, ghost window: Bitstring)
    requires WellFormed(t) && position0 <= end && bitBuffer0 == Val(window0) && bitsAvailable0 == |window0| <= WINDOW
    requires position0 < end || bitsAvailable0 > 0
    ensures r.Ok? ==> r.value < |t|
    ensures r.Ok? ==> position0 <= position <= end && (position == position0 || position <= |buf|)
    ensures r.Ok? ==> bitBuffer == Val(window) && bitsAvailable == |window| <= WINDOW
    ensures r.Ok? ==> 8 * (end - position) + bitsAvailable < 8 * (end - position0) + bitsAvailable0
    ensures end <= |buf| ==>
              var goal := DecodeBits(t, Left(window0, buf, position0, end));
              match r
              case Err(e) => goal == Err(e)
              case Ok(s) =>
                var left := Left(window, buf, position, end);
                goal == if position == end && AllOnes(window) then Ok([s]) else Prepend([s], DecodeBits(t, left))
  {
    var underflow;
    bitBuffer, bitsAvailable, position, underflow, window :=
      TopUp(buf, end, bitBuffer0, bitsAvailable0, position0, window0);
    if underflow {
      return Err(StringUnderflow), bitBuffer, bitsAvailable, position, window;
    }
    var row := FindRow(t, bitBuffer, bitsAvailable, window);
    if end <= |buf| {
      Consume(t, window, Unpack(buf[position..end]));
    }
    if row.None? {
      return Err(NoMatchingCode), bitBuffer, bitsAvailable, position, window;
    }
    r := Ok(row.value);
    bitBuffer, bitsAvailable := DropBits(bitBuffer, bitsAvailable, t[row.value].bits, window);
    window := window[t[row.value].bits..];
  }

  lemma NothingLeft(t: Table, symbols: seq<nat>, window: Bitstring, buf: Bytes, end: nat)
    requires WellFormed(t) && end <= |buf| && window == []
    ensures Prepend(symbols, DecodeBits(t, Left(window, buf, end, end))) == Ok(symbols)
  {
    assert symbols + [] == symbols;
  }

  method HuffmanDecode(t: Table, buf: Bytes, offset: nat, length: nat) returns (r: Symbols)
    requires WellFormed(t)
    ensures offset + length <= |buf| ==> r == DecodeOctets(t, buf[offset..offset + length])
    ensures length == 0 ==> r == Ok([])
    ensures offset + length > |buf| && length > 0 ==> r.Err?
  {
    var bitBuffer, bitsAvailable, position, end := 0, 0, offset, offset + length;
    var symbols: seq<nat> := [];
    ghost var window: Bitstring := [];
    ghost var inside := end <= |buf|;
    ghost var goal := if inside then DecodeOctets(t, buf[offset..end]) else Ok([]);
    assert inside ==> Left([], buf, offset, end) == Unpack(buf[offset..end]);
    PrependNothing(goal);
    while position < end || bitsAvailable > 0
      invariant offset <= position <= end && (position == offset || position <= |buf|)
      invariant bitBuffer == Val(window) && bitsAvailable == |window| <= WINDOW
      invariant inside ==> goal == Prepend(symbols, DecodeBits(t, Left(window, buf, position, end)))
      invariant length == 0 ==> symbols == [] && bitsAvailable == 0
      decreases 8 * (end - position) + bitsAvailable
    {
      var next;
      ghost var before := symbols;
      next, bitBuffer, bitsAvailable, position, window :=
        NextSymbol(t, buf, end, bitBuffer, bitsAvailable, position, window);
      if next.Err? {
        return Err(next.error);
      }
      symbols := symbols + [next.value];
      if position >= end {
        var padding := IsPadding(bitBuffer, bitsAvailable, window);
        if padding {
          return Ok(symbols);
        }
      }
      assert inside ==> goal == Prepend(symbols, DecodeBits(t, Left(window, buf, position, end))) by {
        if inside {
          PrependTwice(before, [next.value], DecodeBits(t, Left(window, buf, position, end)));
        }
      }
    }
    if inside {
      NothingLeft(t, symbols, window, buf, end);
    }
    return Ok(symbols);
  }
}
