/** Length-prefixed string literals, section 5.2 of RFC 7541 (src/hpack/string.ts:106-189). */
module HpackStrings {
  import opened Bits
  import opened Results
  import opened PrefixInteger
  import opened HuffmanTable
  import opened HuffmanTableProof
  import opened HuffmanCode
  import opened HuffmanDecoder
  import opened HuffmanEncoder

  predicate IsLatin1(s: string) {
    forall i :: 0 <= i < |s| ==> s[i] as int < 256
  }

  function Latin1Bytes(s: string): (b: Bytes)
    requires IsLatin1(s)
    ensures |b| == |s|
  {
    seq(|s|, i requires 0 <= i < |s| => s[i] as int)
  }

  /** A code unit for every symbol; the end-of-string symbol becomes U+0100. */
  function TextOf(symbols: seq<nat>): (s: string)
    requires forall i :: 0 <= i < |symbols| ==> symbols[i] < SYMBOLS
    ensures |s| == |symbols|
  {
    seq(|symbols|, i requires 0 <= i < |symbols| => symbols[i] as char)
  }

  method EncodeLatin1(s: string) returns (r: Result<Bytes, HpackError>)
    ensures r == if IsLatin1(s) then Ok(Latin1Bytes(s)) else Err(NonLatin1)
  {
    var out: Bytes := [];
    for i := 0 to |s|
      invariant |out| == i
      invariant forall j :: 0 <= j < i ==> s[j] as int < 256 && out[j] == s[j] as int
    {
      if s[i] as int > 0xff {
        return Err(NonLatin1);
      }
      out := out + [s[i] as int];
    }
    assert out == Latin1Bytes(s);
    return Ok(out);
  }

  method DecodeLatin1(symbols: seq<nat>) returns (s: string)
    requires forall i :: 0 <= i < |symbols| ==> symbols[i] < SYMBOLS
    ensures s == TextOf(symbols)
  {
    s := "";
    for i := 0 to |symbols|
      invariant |s| == i && forall j :: 0 <= j < i ==> s[j] == symbols[j] as char
    {
      s := s + [symbols[i] as char];
    }
  }

  lemma TextOfBytes(s: string)
    requires IsLatin1(s)
    ensures TextOf(Latin1Bytes(s)) == s
  {
  }

  /** Latin-1, of which nothing gets lost in the 32-bit buffer of the Huffman encoder when that is used. */
  predicate Encodable(t: Table, s: string, useHuffman: bool)
    requires WellFormed(t)
  {
    IsLatin1(s) && (useHuffman ==> KeepsBits(t, Latin1Bytes(s)))
  }

  function Prefixed(flag: byte, content: Bytes): (s: Bytes)
    requires flag == 0 || flag == 0x80
    ensures |s| > 0
  {
    Flagged(flag, Octets(|content|, 7)) + content
  }

  function HuffmanFlag(useHuffman: bool): byte {
    if useHuffman then 0x80 else 0
  }

  function Content(t: Table, s: string, useHuffman: bool): Bytes
    requires WellFormed(t) && IsLatin1(s)
  {
    if useHuffman then Encode32(t, Latin1Bytes(s)) else Latin1Bytes(s)
  }

  function StringOctets(t: Table, s: string, useHuffman: bool): (r: Result<Bytes, HpackError>)
    requires WellFormed(t)
    ensures r.Ok? <==> IsLatin1(s)
  {
    if !IsLatin1(s) then Err(NonLatin1) else Ok(Prefixed(HuffmanFlag(useHuffman), Content(t, s, useHuffman)))
  }

  function ReadContent(t: Table, huffman: bool, content: Bytes, end: nat): (r: Result<Decoded<string>, HpackError>)
    requires WellFormed(t)
    ensures r.Ok? ==> r.value.next == end
  {
    if huffman then
      match DecodeOctets(t, content)
      case Err(e) => Err(e)
      case Ok(symbols) => Ok(Decoded(TextOf(symbols), end))
    else Ok(Decoded(TextOf(content), end))
  }

  function ReadString(t: Table, buf: Bytes, offset: nat): (r: Result<Decoded<string>, HpackError>)
    requires WellFormed(t)
    ensures r.Ok? ==> offset < r.value.next <= |buf|
  {
    if offset >= |buf| then Err(StringUnderflow)
    else
      match Read(buf, offset, 7)
      case Err(e) => Err(e)
      case Ok(length) =>
        var end := length.next + length.value;
        if end > |buf| then Err(StringTooLong)
        else ReadContent(t, buf[offset] >= 0x80, buf[length.next..end], end)
  }

  /** A length with the Huffman flag set in its first octet. */
  method EncodeFlaggedLength(length: nat) returns (octets: Bytes)
    ensures octets == Flagged(0x80, Octets(length, 7))
  {
    var encoded := EncodeInteger(length, 7);
    octets := encoded.value;
    octets := octets[0 := octets[0] + 0x80];
    assert octets == Flagged(0x80, encoded.value);
  }

  method EncodeStringHuffman(t: Table, s: string) returns (r: Result<Bytes, HpackError>)
    requires WellFormed(t)
    ensures r == StringOctets(t, s, true)
  {
    var raw := EncodeLatin1(s);
    if raw.Err? {
      return Err(raw.error);
    }
    var encoded := HuffmanEncode(t, raw.value);
    var lengthOctets := EncodeFlaggedLength(|encoded|);
    assert encoded == Content(t, s, true);
    return Ok(lengthOctets + encoded);
  }

  method EncodeStringLiteral(t: Table, s: string) returns (r: Result<Bytes, HpackError>)
    requires WellFormed(t)
    ensures r == StringOctets(t, s, false)
  {
    var raw := EncodeLatin1(s);
    if raw.Err? {
      return Err(raw.error);
    }
    var length := EncodeInteger(|raw.value|, 7);
    assert length.value == Flagged(0, length.value);
    return Ok(length.value + raw.value);
  }

  method DecodeContent(t: Table, huffman: bool, buf: Bytes, start: nat, length: nat)
    returns (r: Result<Decoded<string>, HpackError>)
    requires WellFormed(t) && start + length <= |buf|
    ensures r == ReadContent(t, huffman, buf[start..start + length], start + length)
  {
    var symbols: seq<nat> := buf[start..start + length];
    if huffman {
      var decoded := HuffmanDecode(t, buf, start, length);
      if decoded.Err? {
        return Err(decoded.error);
      }
      symbols := decoded.value;
    }
    var value := DecodeLatin1(symbols);
    return Ok(Decoded(value, start + length));
  }

  method DecodeString(t: Table, buf: Bytes, offset: nat) returns (r: Result<Decoded<string>, HpackError>)
    requires WellFormed(t)
    ensures r == ReadString(t, buf, offset)
  {
    if offset >= |buf| {
      return Err(StringUnderflow);
    }
    var huffmanFlag := buf[offset] >= 0x80;
    var length := DecodeInteger(buf, offset, 7);
    if length.Err? {
      return Err(length.error);
    }
    var dataStart := length.value.next;
    if dataStart + length.value.value > |buf| {
      return Err(StringTooLong);
    }
    r := DecodeContent(t, huffmanFlag, buf, dataStart, length.value.value);
  }

  lemma ReadLength(flag: byte, content: Bytes, octets: Bytes, buf: Bytes, offset: nat) returns (start: nat)
    requires flag == 0 || flag == 0x80
    requires octets == Prefixed(flag, content) && At(buf, offset, octets)
    ensures offset < |buf| && (buf[offset] >= 0x80 <==> flag == 0x80)
    ensures Read(buf, offset, 7) == Ok(Decoded(|content|, start))
    ensures start + |content| == offset + |octets| <= |buf| && buf[start..offset + |octets|] == content
  {
    var length := Octets(|content|, 7);
    start := offset + |length|;
    assert At(buf, offset, Flagged(flag, length)) && At(buf, start, content) by {
      AtConcat(buf, offset, Flagged(flag, length), content);
    }
    ReadFlagged(flag, |content|, 7, buf, offset);
  }

  lemma ReadBehindLength(t: Table, buf: Bytes, offset: nat, start: nat, huffman: bool, content: Bytes, end: nat)
    requires WellFormed(t) && offset < |buf| && (buf[offset] >= 0x80 <==> huffman)
    requires Read(buf, offset, 7) == Ok(Decoded(|content|, start))
    requires end == start + |content| <= |buf| && buf[start..end] == content
    ensures ReadString(t, buf, offset) == ReadContent(t, huffman, content, end)
  {
  }

  lemma ReadPrefixed(t: Table, flag: byte, content: Bytes, octets: Bytes, buf: Bytes, offset: nat)
    requires WellFormed(t) && (flag == 0 || flag == 0x80)
    requires octets == Prefixed(flag, content) && At(buf, offset, octets)
    ensures ReadString(t, buf, offset) == ReadContent(t, flag == 0x80, content, offset + |octets|)
  {
    var start := ReadLength(flag, content, octets, buf, offset);
    ReadBehindLength(t, buf, offset, start, flag == 0x80, content, offset + |octets|);
  }

  lemma SymbolsOfText(symbols: seq<nat>, s: string)
    requires IsLatin1(s)
    requires forall i :: 0 <= i < |symbols| ==> symbols[i] < SYMBOLS
    requires TextOf(symbols) == s
    ensures symbols == Latin1Bytes(s)
  {
    forall i | 0 <= i < |symbols|
      ensures symbols[i] == Latin1Bytes(s)[i]
    {
      assert TextOf(symbols)[i] == symbols[i] as char;
    }
  }

  lemma HuffmanExactly(t: Table, s: string, end: nat)
    requires CompletePrefixCode(t) && IsLatin1(s)
    ensures ReadContent(t, true, Encode32(t, Latin1Bytes(s)), end) == Ok(Decoded(s, end)) <==>
            KeepsBits(t, Latin1Bytes(s))
  {
    var raw := Latin1Bytes(s);
    TextOfBytes(s);
    RoundTripExactly(t, raw);
    var symbols := DecodeOctets(t, Encode32(t, raw));
    if symbols.Ok? && TextOf(symbols.value) == s {
      SymbolsOfText(symbols.value, s);
    }
  }

  lemma ReadContentExactly(t: Table, s: string, useHuffman: bool, end: nat)
    requires CompletePrefixCode(t) && IsLatin1(s)
    ensures ReadContent(t, useHuffman, Content(t, s, useHuffman), end) == Ok(Decoded(s, end)) <==>
            Encodable(t, s, useHuffman)
  {
    TextOfBytes(s);
    if useHuffman {
      HuffmanExactly(t, s, end);
    }
  }

  /** The read ends at end if it succeeds at all, and gives s exactly when ok. */
  predicate ReadsBack(r: Result<Decoded<string>, HpackError>, s: string, end: nat, ok: bool) {
    (r.Ok? ==> r.value.next == end) && (r == Ok(Decoded(s, end)) <==> ok)
  }

  /**
   * A string literal comes back, with the offset just past it, exactly when it is encodable:
   * always when it is not Huffman-coded, and otherwise when the encoder keeps its bits.
   */
  lemma StringRoundTrip(t: Table, s: string, useHuffman: bool, buf: Bytes, offset: nat)
    requires CompletePrefixCode(t) && IsLatin1(s)
    requires At(buf, offset, StringOctets(t, s, useHuffman).value)
    ensures ReadsBack(ReadString(t, buf, offset), s, offset + |StringOctets(t, s, useHuffman).value|,
                      Encodable(t, s, useHuffman))
  {
    var content := Content(t, s, useHuffman);
    assert StringOctets(t, s, useHuffman).value == Prefixed(HuffmanFlag(useHuffman), content);
    ReadPrefixed(t, HuffmanFlag(useHuffman), content, StringOctets(t, s, useHuffman).value, buf, offset);
    ReadContentExactly(t, s, useHuffman, offset + |StringOctets(t, s, useHuffman).value|);
  }

  /** With the table of the standard, printable ASCII always comes back. */
  lemma PrintableIsEncodable(s: string, useHuffman: bool)
    requires forall i :: 0 <= i < |s| ==> ' ' <= s[i] <= '~'
    ensures CompletePrefixCode(HUFFMAN_TABLE) && Encodable(HUFFMAN_TABLE, s, useHuffman)
  {
    TableIsCompletePrefixCode();
    if useHuffman {
      var raw := Latin1Bytes(s);
      forall i | 0 <= i < |raw|
        ensures HUFFMAN_TABLE[raw[i]].bits <= 25
      {
        PrintableIsShort(raw[i]);
      }
      ShortCodesKeep(HUFFMAN_TABLE, raw);
    }
  }

  /**
   * The highest bit of the first octet says whether a string is Huffman-coded; a plain one is its
   * octets behind their number.
   */
  lemma StringsOnTheWire(t: Table, s: string, useHuffman: bool)
    requires WellFormed(t) && IsLatin1(s)
    ensures var octets := StringOctets(t, s, useHuffman).value;
            && octets != [] && (octets[0] >= 0x80 <==> useHuffman)
            && (!useHuffman && |s| < 127 ==> octets == [|s|] + Latin1Bytes(s))
  {
    var octets := StringOctets(t, s, useHuffman).value;
    var content := Content(t, s, useHuffman);
    assert octets == Prefixed(HuffmanFlag(useHuffman), content);
    assert octets[0] == HuffmanFlag(useHuffman) + Octets(|content|, 7)[0];
  }

  /**
   * Why a string cannot be read: nothing is there, its length does not end, it is longer than what is
   * there, or no code matches.
   */
  lemma StringErrors(t: Table, buf: Bytes, offset: nat)
    requires CompletePrefixCode(t)
    ensures var r := ReadString(t, buf, offset);
            && (r == Err(StringUnderflow) <==> offset >= |buf|)
            && (r == Err(IntegerUnderflow) <==> offset < |buf| && Read(buf, offset, 7).Err?)
            && (r == Err(StringTooLong) <==> Read(buf, offset, 7).Ok? &&
                                             Read(buf, offset, 7).value.next + Read(buf, offset, 7).value.value > |buf|)
            && (r.Err? ==> r.error in {StringUnderflow, IntegerUnderflow, StringTooLong, NoMatchingCode})
            && (r == Err(NoMatchingCode) ==> buf[offset] >= 0x80)
  {
    ReadFailsExactly(buf, offset, 7);
    var length := Read(buf, offset, 7);
    if offset < |buf| && length.Ok? && length.value.next + length.value.value <= |buf| {
      var content := buf[length.value.next..length.value.next + length.value.value];
      if DecodeOctets(t, content).Err? {
        var symbols, rest := DecodeRejects(t, Unpack(content));
      }
    }
  }
}
