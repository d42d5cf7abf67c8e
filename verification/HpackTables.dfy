/** What both sides of a connection know in advance. */
module HpackTables {
  import opened Bits
  import opened Results
  import opened PrefixInteger
  import opened StaticTable
  import opened HuffmanTable
  import opened HuffmanTableProof
  import opened HuffmanCode
  import opened HpackStrings

  type Encoding = Result<Bytes, HpackError>

  /** How strings are written and read, which of them survive that, and the static entries. */
  datatype Shared = Shared(write: (string, bool) -> Encoding,
                           read: (Bytes, nat) -> Result<Decoded<string>, HpackError>,
                           keeps: (string, bool) -> bool,
                           statics: seq<Entry>)

  function WriteString(s: string, useHuffman: bool): Encoding {
    TableIsWellFormed();
    StringOctets(HUFFMAN_TABLE, s, useHuffman)
  }

  function ReadStringAt(buf: Bytes, offset: nat): Result<Decoded<string>, HpackError> {
    TableIsWellFormed();
    ReadString(HUFFMAN_TABLE, buf, offset)
  }

  predicate KeepsString(s: string, useHuffman: bool) {
    TableIsWellFormed();
    Encodable(HUFFMAN_TABLE, s, useHuffman)
  }

  method EncodeString(s: string, useHuffman: bool) returns (r: Encoding)
    ensures r == WriteString(s, useHuffman)
  {
    TableIsWellFormed();
    if useHuffman {
      r := EncodeStringHuffman(HUFFMAN_TABLE, s);
    } else {
      r := EncodeStringLiteral(HUFFMAN_TABLE, s);
    }
  }

  method DecodeStringAt(buf: Bytes, offset: nat) returns (r: Result<Decoded<string>, HpackError>)
    ensures r == ReadStringAt(buf, offset)
  {
    TableIsWellFormed();
    r := DecodeString(HUFFMAN_TABLE, buf, offset);
  }

  /** The string coding and the static table of RFC 7541, as the source has them. */
  const HPACK: Shared := Shared(WriteString, ReadStringAt, KeepsString, STATIC_TABLE)

  /** Reading a string moves on, inside the buffer. */
  ghost predicate Usable(c: Shared) {
    forall buf: Bytes, offset: nat {:trigger c.read(buf, offset)} ::
      c.read(buf, offset).Ok? ==> offset < c.read(buf, offset).value.next <= |buf|
  }

  /** Wherever these octets stand, they read back as s exactly when ok, and as nothing that ends elsewhere. */
  ghost predicate ReadsAs(c: Shared, octets: Bytes, s: string, ok: bool) {
    forall buf: Bytes, offset: nat {:trigger At(buf, offset, octets)} ::
      At(buf, offset, octets) ==> ReadsBack(c.read(buf, offset), s, offset + |octets|, ok)
  }

  /** Strings come back exactly when they are kept. Nothing is asked of the static entries. */
  ghost predicate Sound(c: Shared) {
    && Usable(c)
    && (forall s: string, useHuffman: bool {:trigger c.write(s, useHuffman)} ::
          c.write(s, useHuffman).Ok? ==> ReadsAs(c, c.write(s, useHuffman).value, s, c.keeps(s, useHuffman)))
  }

  lemma WrittenReadsBack(octets: Bytes, s: string, useHuffman: bool, buf: Bytes, offset: nat)
    requires WriteString(s, useHuffman) == Ok(octets) && At(buf, offset, octets)
    ensures ReadsBack(ReadStringAt(buf, offset), s, offset + |octets|, KeepsString(s, useHuffman))
  {
    assert CompletePrefixCode(HUFFMAN_TABLE) by {
      TableIsCompletePrefixCode();
    }
    StringRoundTrip(HUFFMAN_TABLE, s, useHuffman, buf, offset);
  }

  lemma HpackReadsAs(octets: Bytes, s: string, useHuffman: bool)
    requires WriteString(s, useHuffman) == Ok(octets)
    ensures ReadsAs(HPACK, octets, s, KeepsString(s, useHuffman))
  {
    var ok := KeepsString(s, useHuffman);
    forall buf: Bytes, offset: nat | At(buf, offset, octets)
      ensures ReadsBack(HPACK.read(buf, offset), s, offset + |octets|, ok)
    {
      WrittenReadsBack(octets, s, useHuffman, buf, offset);
    }
  }

  lemma HpackIsSound()
    ensures Sound(HPACK)
  {
    assert Usable(HPACK);
    forall s: string, useHuffman: bool | HPACK.write(s, useHuffman).Ok?
      ensures ReadsAs(HPACK, HPACK.write(s, useHuffman).value, s, HPACK.keeps(s, useHuffman))
    {
      HpackReadsAs(WriteString(s, useHuffman).value, s, useHuffman);
    }
  }

  /** Printable ASCII is always kept. */
  lemma PrintableIsKept(s: string, useHuffman: bool)
    requires forall i :: 0 <= i < |s| ==> ' ' <= s[i] <= '~'
    ensures HPACK.keeps(s, useHuffman)
  {
    PrintableIsEncodable(s, useHuffman);
    assert HPACK.keeps(s, useHuffman) == KeepsString(s, useHuffman);
  }
}
