/** Integers with an N-bit prefix, section 5.1 of RFC 7541 (src/hpack/integer.ts). */
module PrefixInteger {
  import opened Bits
  import opened Results

  datatype HpackError =
    | NegativeInteger
    | IntegerUnderflow
    | NoMatchingCode
    | StringUnderflow
    | StringTooLong
    | NonLatin1
    | IndexOutOfRange

  /** A decoded value and the offset just past what was read. */
  datatype Decoded<+T> = Decoded(value: T, next: nat)

  /** The largest value n bits hold. */
  function MaxPrefix(n: nat): (m: byte)
    requires 1 <= n <= 8
    ensures m > 0
  {
    match n
    case 1 => 1
    case 2 => 3
    case 3 => 7
    case 4 => 15
    case 5 => 31
    case 6 => 63
    case 7 => 127
    case _ => 255
  }

  /** The low n bits of an octet, which leaves out the flag bits above them. */
  function LowBits(octet: byte, n: nat): (m: byte)
    requires 1 <= n <= 8
    ensures m <= MaxPrefix(n)
  {
    match n
    case 1 => octet % 2
    case 2 => octet % 4
    case 3 => octet % 8
    case 4 => octet % 16
    case 5 => octet % 32
    case 6 => octet % 64
    case 7 => octet % 128
    case _ => octet
  }

  /** Seven bits an octet, least significant group first; the high bit says that more follow. */
  function Continuation(v: nat): (s: Bytes)
    ensures |s| > 0
  {
    if v < 128 then [v] else [v % 128 + 128] + Continuation(v / 128)
  }

  function Octets(value: nat, n: nat): (s: Bytes)
    requires 1 <= n <= 8
    ensures |s| > 0 && s[0] <= MaxPrefix(n)
  {
    var limit := MaxPrefix(n);
    if value < limit then [value] else [limit] + Continuation(value - limit)
  }

  function EncodeResult(value: int, n: nat): Result<Bytes, HpackError>
    requires 1 <= n <= 8
  {
    if value < 0 then Err(NegativeInteger) else Ok(Octets(value, n))
  }

  function ReadContinuation(buf: Bytes, pos: nat): (r: Result<Decoded<nat>, HpackError>)
    ensures r.Ok? ==> pos < r.value.next <= |buf|
    decreases |buf| - pos
  {
    if pos >= |buf| then Err(IntegerUnderflow)
    else if buf[pos] < 128 then Ok(Decoded(buf[pos], pos + 1))
    else
      match ReadContinuation(buf, pos + 1)
      case Err(e) => Err(e)
      case Ok(d) => Ok(Decoded(buf[pos] - 128 + 128 * d.value, d.next))
  }

  function Read(buf: Bytes, offset: nat, n: nat): (r: Result<Decoded<nat>, HpackError>)
    requires 1 <= n <= 8
    ensures r.Ok? ==> offset < r.value.next <= |buf|
  {
    var limit := MaxPrefix(n);
    if offset >= |buf| then Err(IntegerUnderflow)
    else if LowBits(buf[offset], n) < limit then Ok(Decoded(LowBits(buf[offset], n), offset + 1))
    else
      match ReadContinuation(buf, offset + 1)
      case Err(e) => Err(e)
      case Ok(d) => Ok(Decoded(limit + d.value, d.next))
  }

  method EncodeInteger(value: int, n: nat) returns (r: Result<Bytes, HpackError>)
    requires 1 <= n <= 8
    ensures r == EncodeResult(value, n)
  {
    if value < 0 {
      return Err(NegativeInteger);
    }
    var limit := MaxPrefix(n);
    if value < limit {
      return Ok([value]);
    }
    var out: Bytes := [limit];
    var remaining := value - limit;
    while true
      invariant remaining >= 0
      invariant Octets(value, n) == out + Continuation(remaining)
      decreases remaining
    {
      var octet := remaining % 128;
      ghost var before := remaining;
      remaining := remaining / 128;
      if remaining > 0 {
        assert Continuation(before) == [octet + 128] + Continuation(remaining);
        assert out + ([octet + 128] + Continuation(remaining)) == (out + [octet + 128]) + Continuation(remaining);
        out := out + [octet + 128];
      } else {
        return Ok(out + [octet]);
      }
    }
  }

  /** What is left to read, added to what the loop has read so far. */
  function Resume(value: nat, shift: nat, r: Result<Decoded<nat>, HpackError>): Result<Decoded<nat>, HpackError> {
    match r
    case Err(e) => Err(e)
    case Ok(d) => Ok(Decoded(value + Pow2(shift) * d.value, d.next))
  }

  lemma ShiftedSum(p: nat, q: nat, low: nat, high: nat, sum: nat)
    requires q == p * 128 && sum == low + 128 * high
    ensures p * sum == low * p + q * high
  {
    assert p * sum == p * low + p * (128 * high);
    assert p * (128 * high) == (p * 128) * high;
  }

  lemma Pow2Seven(shift: nat)
    ensures Pow2(shift + 7) == Pow2(shift) * 128
  {
    Pow2Add(shift, 7);
    assert Pow2(7) == 128 by { Pow2Values(); }
  }

  lemma ResumeMore(value: nat, shift: nat, octet: byte, rest: Decoded<nat>)
    requires octet >= 128
    ensures value + Pow2(shift) * (octet - 128 + 128 * rest.value) ==
            value + (octet % 128) * Pow2(shift) + Pow2(shift + 7) * rest.value
  {
    Pow2Seven(shift);
    ShiftedSum(Pow2(shift), Pow2(shift + 7), octet - 128, rest.value, octet - 128 + 128 * rest.value);
    assert octet % 128 == octet - 128;
  }

  lemma ResumeStep(value: nat, shift: nat, buf: Bytes, pos: nat)
    requires pos < |buf|
    ensures Resume(value, shift, ReadContinuation(buf, pos)) ==
            if buf[pos] < 128 then Ok(Decoded(value + buf[pos] * Pow2(shift), pos + 1))
            else Resume(value + (buf[pos] % 128) * Pow2(shift), shift + 7, ReadContinuation(buf, pos + 1))
  {
    if buf[pos] >= 128 {
      var rest := ReadContinuation(buf, pos + 1);
      if rest.Ok? {
        ResumeMore(value, shift, buf[pos], rest.value);
      }
    } else {
      assert ReadContinuation(buf, pos) == Ok(Decoded(buf[pos] as nat, pos + 1));
      assert Pow2(shift) * buf[pos] == buf[pos] * Pow2(shift);
    }
  }

  method DecodeInteger(buf: Bytes, offset: nat, n: nat) returns (r: Result<Decoded<nat>, HpackError>)
    requires 1 <= n <= 8
    ensures r == Read(buf, offset, n)
  {
    var limit := MaxPrefix(n);
    if offset >= |buf| {
      return Err(IntegerUnderflow);
    }
    var first := LowBits(buf[offset], n);
    var position := offset + 1;
    if first < limit {
      return Ok(Decoded(first, position));
    }
    var value: nat, shift: nat := limit, 0;
    while position < |buf|
      invariant offset < position <= |buf|
      invariant Read(buf, offset, n) == Resume(value, shift, ReadContinuation(buf, position))
    {
      var octet := buf[position];
      ResumeStep(value, shift, buf, position);
      value := value + (octet % 128) * Pow2(shift);
      position := position + 1;
      shift := shift + 7;
      if octet < 128 {
        return Ok(Decoded(value, position));
      }
    }
    return Err(IntegerUnderflow);
  }

  /** s stands in buf at offset. */
  predicate At(buf: Bytes, offset: nat, s: Bytes) {
    offset + |s| <= |buf| && buf[offset..offset + |s|] == s
  }

  lemma AtConcat(buf: Bytes, offset: nat, a: Bytes, b: Bytes)
    requires At(buf, offset, a + b)
    ensures At(buf, offset, a) && At(buf, offset + |a|, b)
  {
    var s := buf[offset..offset + |a + b|];
    assert buf[offset..offset + |a|] == s[..|a|];
    assert buf[offset + |a|..offset + |a| + |b|] == s[|a|..];
  }

  lemma {:induction false} ReadContinuationOf(v: nat, buf: Bytes, pos: nat)
    requires At(buf, pos, Continuation(v))
    ensures ReadContinuation(buf, pos) == Ok(Decoded(v, pos + |Continuation(v)|))
    decreases v
  {
    var s := Continuation(v);
    assert buf[pos] == buf[pos..pos + |s|][0] == s[0];
    if v < 128 {
      assert Continuation(v) == [v];
    } else {
      AtConcat(buf, pos, [s[0]], Continuation(v / 128));
      ReadContinuationOf(v / 128, buf, pos + 1);
    }
  }

  /**
   * Prefix integers delimit themselves: whatever flag bits stand above the prefix and
   * whatever surrounds the octets, the value and the offset just past it come back.
   */
  lemma ReadOctets(value: nat, n: nat, buf: Bytes, offset: nat)
    requires 1 <= n <= 8
    requires offset < |buf| && LowBits(buf[offset], n) == Octets(value, n)[0]
    requires At(buf, offset + 1, Octets(value, n)[1..])
    ensures Read(buf, offset, n) == Ok(Decoded(value, offset + |Octets(value, n)|))
  {
    var limit := MaxPrefix(n);
    if value >= limit {
      assert Octets(value, n)[1..] == Continuation(value - limit);
      ReadContinuationOf(value - limit, buf, offset + 1);
    }
  }

  /** An encoded integer with flag bits set in its first octet. */
  function Flagged(flag: byte, s: Bytes): (r: Bytes)
    requires s != [] && flag + s[0] < 256
    ensures |r| == |s|
  {
    [flag + s[0]] + s[1..]
  }

  lemma ReadFlagged(flag: byte, value: nat, n: nat, buf: Bytes, offset: nat)
    requires 1 <= n <= 8 && flag + Octets(value, n)[0] < 256
    requires LowBits(flag + Octets(value, n)[0], n) == Octets(value, n)[0]
    requires At(buf, offset, Flagged(flag, Octets(value, n)))
    ensures offset < |buf| && buf[offset] == flag + Octets(value, n)[0]
    ensures Read(buf, offset, n) == Ok(Decoded(value, offset + |Octets(value, n)|))
  {
    var s := Octets(value, n);
    AtConcat(buf, offset, [flag + s[0]], s[1..]);
    assert buf[offset] == buf[offset..offset + 1][0];
    ReadOctets(value, n, buf, offset);
  }

  lemma TwoMore(v: nat, high: byte, low: byte)
    requires v == 128 * high + (low - 128) && high < 128 <= low
    ensures high > 0 ==> Continuation(v) == [low, high]
  {
    assert v / 128 == high && v % 128 == low - 128;
  }

  /** The examples of sections C.1.1 to C.1.3 of RFC 7541. */
  lemma IntegerExamples()
    ensures Octets(10, 5) == [10] && Octets(1337, 5) == [31, 154, 10] && Octets(42, 8) == [42]
  {
    TwoMore(1306, 10, 154);
    assert MaxPrefix(5) == 31 && MaxPrefix(8) == 255;
    assert Octets(1337, 5) == [31] + Continuation(1306);
  }

  lemma {:induction false} ContinuationFails(buf: Bytes, pos: nat)
    ensures ReadContinuation(buf, pos).Err? <==> forall k :: pos <= k < |buf| ==> buf[k] >= 128
    ensures ReadContinuation(buf, pos).Err? ==> ReadContinuation(buf, pos) == Err(IntegerUnderflow)
    decreases |buf| - pos
  {
    if pos >= |buf| {
    } else if buf[pos] >= 128 {
      ContinuationFails(buf, pos + 1);
    }
  }

  /** Reading fails, always for want of octets, exactly if the number does not end in the buffer. */
  lemma ReadFailsExactly(buf: Bytes, offset: nat, n: nat)
    requires 1 <= n <= 8
    ensures Read(buf, offset, n).Err? ==> Read(buf, offset, n) == Err(IntegerUnderflow)
    ensures Read(buf, offset, n).Err? <==>
            offset >= |buf| ||
            (LowBits(buf[offset], n) == MaxPrefix(n) && forall k :: offset < k < |buf| ==> buf[k] >= 128)
  {
    ContinuationFails(buf, offset + 1);
  }
}
