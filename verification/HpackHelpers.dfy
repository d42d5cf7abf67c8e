/** Header blocks from maps and as maps (src/hpack/helpers.ts:15-57). */
module HpackHelpers {
  import opened Bits
  import opened Results
  import opened PrefixInteger
  import opened StaticTable
  import opened DynamicTables
  import opened HpackTables
  import opened HeaderFields
  import opened HpackEncoder
  import opened HpackDecoder
  import opened HpackRoundTrip
  import opened HpackSessions

  /** The value of a name is the last one given. */
  function FieldMap(fields: seq<Field>): map<string, string> {
    if fields == [] then map[]
    else
      var f := fields[|fields| - 1];
      FieldMap(fields[..|fields| - 1])[f.name := f.value]
  }

  /** What a decoder that has seen nothing makes of a block. */
  function HeadersOf(buf: Bytes): Result<map<string, string>, HpackError> {
    HpackIsSound();
    match DecodeBlock(HPACK, buf, Table([], DEFAULT_TABLE_SIZE_LIMIT)).result
    case Err(e) => Err(e)
    case Ok(fields) => Ok(FieldMap(fields))
  }

  method DecodeHeaders(buf: Bytes) returns (r: Result<map<string, string>, HpackError>)
    ensures r == HeadersOf(buf)
  {
    var decoder := new HpackDecoder(DEFAULT_TABLE_SIZE_LIMIT);
    var block := decoder.Decode(buf);
    if block.Err? {
      return Err(block.error);
    }
    var fields := block.value;
    var out: map<string, string> := map[];
    for i := 0 to |fields|
      invariant out == FieldMap(fields[..i])
    {
      assert fields[..i + 1][..i] == fields[..i];
      out := out[fields[i].name := fields[i].value];
    }
    assert fields[..|fields|] == fields;
    return Ok(out);
  }

  // ----- encoding -----

  datatype EncodeOptions = EncodeOptions(indexing: bool, useHuffman: bool, maxTableSize: int)

  function FieldsFor(headers: seq<Entry>, indexing: bool): seq<Field> {
    if headers == [] then []
    else
      var h := headers[|headers| - 1];
      FieldsFor(headers[..|headers| - 1], indexing) + [Field(h.name, h.value, indexing, false)]
  }

  function FirstUpdate(o: EncodeOptions): Option<int> {
    if o.maxTableSize != 4096 then Some(o.maxTableSize) else None
  }

  /** What a new encoder makes of the headers. */
  function BlockFor(headers: seq<Entry>, o: EncodeOptions): Encoding {
    BlockOctets(HPACK, FirstUpdate(o), FieldsFor(headers, o.indexing), o.useHuffman)
  }

  method EncodeHeaders(headers: seq<Entry>, o: EncodeOptions) returns (r: Encoding)
    ensures r == BlockFor(headers, o)
  {
    var encoder := new HpackEncoder(o.maxTableSize, o.useHuffman);
    var block: seq<Field> := [];
    for i := 0 to |headers|
      invariant block == FieldsFor(headers[..i], o.indexing)
    {
      assert headers[..i + 1][..i] == headers[..i];
      block := block + [Field(headers[i].name, headers[i].value, o.indexing, false)];
    }
    assert headers[..|headers|] == headers;
    r := encoder.Encode(block);
  }

  predicate CanEncode(headers: seq<Entry>, o: EncodeOptions) {
    o.maxTableSize >= 0 && forall k :: 0 <= k < |headers| ==>
      Writable(Field(headers[k].name, headers[k].value, o.indexing, false))
  }

  lemma {:induction false} FieldsForAt(headers: seq<Entry>, indexing: bool)
    ensures |FieldsFor(headers, indexing)| == |headers|
    ensures forall k :: 0 <= k < |headers| ==>
              FieldsFor(headers, indexing)[k] == Field(headers[k].name, headers[k].value, indexing, false)
  {
    if headers == [] {
    } else {
      FieldsForAt(headers[..|headers| - 1], indexing);
    }
  }

  /** Headers can be encoded exactly if the table size is not negative and all strings to be written are Latin-1. */
  lemma BlockForExactly(headers: seq<Entry>, o: EncodeOptions)
    ensures BlockFor(headers, o).Ok? <==> CanEncode(headers, o)
  {
    FieldsForAt(headers, o.indexing);
    FieldsEncodeExactly(FieldsFor(headers, o.indexing), 0, o.useHuffman);
    assert UpdateOctets(FirstUpdate(o)).Ok? <==> o.maxTableSize >= 0;
  }

  /** The names lower-cased; of several values the last. */
  function Lowered(headers: seq<Entry>): map<string, string> {
    if headers == [] then map[]
    else
      var h := headers[|headers| - 1];
      Lowered(headers[..|headers| - 1])[LowerCase(h.name) := h.value]
  }

  predicate AllCarriedFor(headers: seq<Entry>, o: EncodeOptions) {
    HpackIsSound();
    forall k :: 0 <= k < |headers| ==>
      Carried(HPACK, Field(headers[k].name, headers[k].value, o.indexing, false), o.useHuffman)
  }

  lemma {:induction false} ReceivedSnoc(fields: seq<Field>, f: Field, i: nat)
    requires i <= |fields|
    ensures ReceivedFrom(HPACK, fields + [f], i) == ReceivedFrom(HPACK, fields, i) + [Received(HPACK, f)]
    decreases |fields| - i
  {
    if i == |fields| {
      assert ReceivedFrom(HPACK, fields + [f], i + 1) == [];
    } else {
      ReceivedSnoc(fields, f, i + 1);
    }
  }

  lemma {:induction false} ReceivedMap(headers: seq<Entry>, indexing: bool)
    ensures FieldMap(ReceivedFrom(HPACK, FieldsFor(headers, indexing), 0)) == Lowered(headers)
  {
    if headers == [] {
    } else {
      var front, h := headers[..|headers| - 1], headers[|headers| - 1];
      var f, before := Field(h.name, h.value, indexing, false), ReceivedFrom(HPACK, FieldsFor(front, indexing), 0);
      ReceivedSnoc(FieldsFor(front, indexing), f, 0);
      assert (before + [Received(HPACK, f)])[..|before|] == before;
      ReceivedMap(front, indexing);
    }
  }

  /** Headers that can be encoded and whose strings survive come back from the octets, names lower-cased. */
  lemma HeadersRoundTrip(headers: seq<Entry>, o: EncodeOptions)
    requires CanEncode(headers, o) && AllCarriedFor(headers, o)
    ensures BlockFor(headers, o).Ok? && HeadersOf(BlockFor(headers, o).value) == Ok(Lowered(headers))
  {
    HpackIsSound();
    BlockForExactly(headers, o);
    FieldsForAt(headers, o.indexing);
    var fields := FieldsFor(headers, o.indexing);
    assert CarriedFrom(HPACK, fields, 0, o.useHuffman);
    BlockRoundTrip(HPACK, FirstUpdate(o), fields, o.useHuffman, Table([], DEFAULT_TABLE_SIZE_LIMIT));
    ReceivedMap(headers, o.indexing);
  }

  // ----- single blocks -----

  lemma OneField(octet: byte, row: Entry)
    requires Usable(HPACK) && ReadField(HPACK, [octet], 0, Table([], DEFAULT_TABLE_SIZE_LIMIT)) ==
             Ok(Step([Field(row.name, row.value, false, false)], 1, Table([], DEFAULT_TABLE_SIZE_LIMIT)))
    ensures HeadersOf([octet]) == Ok(map[row.name := row.value])
  {
    var buf, t: Table, field := [octet], Table([], DEFAULT_TABLE_SIZE_LIMIT), Field(row.name, row.value, false, false);
    assert DecodeFrom(HPACK, buf, 1, t) == Outcome(Ok([]), t);
    assert [field] + [] == [field];
    assert FieldMap([field][..0]) == map[];
  }

  lemma StaticRowReads(index: nat)
    requires 1 <= index <= STATIC_TABLE_LENGTH
    ensures |STATIC_TABLE| == STATIC_TABLE_LENGTH
    ensures HeadersOf([0x80 + index]) == Ok(map[STATIC_TABLE[index - 1].name := STATIC_TABLE[index - 1].value])
  {
    HpackIsSound();
    StaticLength();
    assert Read([0x80 + index], 0, 7) == Ok(Decoded(index, 1));
    OneField(0x80 + index, STATIC_TABLE[index - 1]);
  }

  /** An indexed field means what the standard means by it exactly unless it names a status row. */
  lemma IndexMeansStandardExactly(index: nat)
    requires 1 <= index <= STATIC_TABLE_LENGTH
    ensures HeadersOf([0x80 + index]) == Ok(map[AppendixA(index).name := AppendixA(index).value]) <==>
            !(8 <= index <= 14)
  {
    RowIsStandardExactly(index);
    StaticRowReads(index);
    var a, b := STATIC_TABLE[index - 1], AppendixA(index);
    if map[a.name := a.value] == map[b.name := b.value] {
      assert b.name in map[a.name := a.value];
    }
  }

  /** A pad length in front of a block and a padding octet behind it are read as part of the block. */
  lemma PaddedBlockIsMisread()
    ensures HeadersOf([0x82]) == Ok(map[":method" := "GET"]) && HeadersOf([1, 0x82, 0]) == Err(StringTooLong)
  {
    HpackIsSound();
    StaticLength();
    assert 0x82 == 0x80 + 2 && STATIC_TABLE[1] == Entry(":method", "GET");
    StaticRowReads(2);
    var buf, t := [1, 0x82, 0], Table([], DEFAULT_TABLE_SIZE_LIMIT);
    assert Read(buf, 0, 4) == Ok(Decoded(1, 1)) && Read(buf, 1, 7) == Ok(Decoded(2, 2));
    assert ReadStringAt(buf, 1) == Err(StringTooLong);
    assert ReadField(HPACK, buf, 0, t) == Err(StringTooLong);
  }
}
