/** What one encoder writes, one decoder reads, over whole sequences of blocks. */
module HpackRoundTrip {
  import opened Bits
  import opened Results
  import opened PrefixInteger
  import opened StaticTable
  import opened HpackTables
  import opened DynamicTables
  import opened HpackStrings
  import opened HeaderFields
  import opened HpackEncoder
  import opened HpackDecoder

  // ----- what should arrive -----

  predicate IsExact(c: Shared, f: Field) {
    StaticExact(c.statics, LowerCase(f.name), f.value).Some?
  }

  /** The field goes into the decoder's table. */
  predicate IsInserted(c: Shared, f: Field) {
    !f.sensitive && f.indexing && !IsExact(c, f)
  }

  function Received(c: Shared, f: Field): Field {
    Field(LowerCase(f.name), f.value, IsInserted(c, f), false)
  }

  function ReceivedFrom(c: Shared, headers: seq<Field>, i: nat): seq<Field>
    requires i <= |headers|
    decreases |headers| - i
  {
    if i == |headers| then [] else [Received(c, headers[i])] + ReceivedFrom(c, headers, i + 1)
  }

  lemma {:induction false} ReceivedInOrder(c: Shared, headers: seq<Field>, i: nat)
    requires i <= |headers|
    ensures |ReceivedFrom(c, headers, i)| == |headers| - i
    ensures forall k :: i <= k < |headers| ==> ReceivedFrom(c, headers, i)[k - i] == Received(c, headers[k])
    decreases |headers| - i
  {
    if i == |headers| {
    } else {
      ReceivedInOrder(c, headers, i + 1);
    }
  }

  function InsertsOf(c: Shared, f: Field): seq<TableOp> {
    if IsInserted(c, f) then [Insert(Entry(LowerCase(f.name), f.value))] else []
  }

  function InsertsFrom(c: Shared, headers: seq<Field>, i: nat): seq<TableOp>
    requires i <= |headers|
    decreases |headers| - i
  {
    if i == |headers| then [] else InsertsOf(c, headers[i]) + InsertsFrom(c, headers, i + 1)
  }

  predicate WritesName(c: Shared, f: Field) {
    StaticName(c.statics, LowerCase(f.name)).None?
  }

  predicate WritesValue(c: Shared, f: Field) {
    f.sensitive || !IsExact(c, f)
  }

  /** Every string that is written survives its encoding. */
  predicate Carried(c: Shared, f: Field, useHuffman: bool)
    requires Usable(c)
  {
    (WritesName(c, f) && WritesValue(c, f) ==> c.keeps(LowerCase(f.name), useHuffman)) &&
    (WritesValue(c, f) ==> c.keeps(f.value, useHuffman))
  }

  predicate CarriedFrom(c: Shared, headers: seq<Field>, i: nat, useHuffman: bool)
    requires Usable(c)
  {
    forall k :: i <= k < |headers| ==> Carried(c, headers[k], useHuffman)
  }

  // ----- one representation -----

  predicate KeepsPlace(s: Step, end: nat, t: Table) {
    s.next == end && s.table.limit == t.limit
  }

  /**
   * f is all that was read, and the table is t, exactly when ok; otherwise the read fails or gives
   * another field. It ends at end and leaves the limit of t in any case.
   */
  predicate FieldReadsBack(r: Stepped, f: Field, end: nat, t: Table, ok: bool) {
    if ok then r == Ok(Step([f], end, t))
    else r.Ok? ==> |r.value.fields| == 1 && r.value.fields[0] != f && KeepsPlace(r.value, end, t)
  }

  /** The representation from offset to end reads back as f, leaving the table after, exactly when ok. */
  ghost predicate FieldReads(c: Shared, buf: Bytes, offset: nat, t: Table, f: Field, end: nat, after: Table, ok: bool) {
    Usable(c) && offset < |buf| && FieldReadsBack(ReadField(c, buf, offset, t), f, end, after, ok)
  }

  function AfterLiteral(t: Table, f: Field): Table {
    if f.indexing then Added(t, Entry(f.name, f.value)) else t
  }

  /** A name reads as s exactly when ok: from its index, or from its octets when the index is zero. */
  ghost predicate NameReadsAs(c: Shared, index: nat, octets: Bytes, s: string, ok: bool)
    requires Usable(c)
  {
    if index == 0 then ReadsAs(c, octets, s, ok)
    else index <= |c.statics| && c.statics[index - 1].name == s && octets == [] && ok
  }

  lemma NameReads(c: Shared, index: nat, octets: Bytes, s: string, ok: bool, buf: Bytes, pos: nat, t: Table)
    requires Usable(c) && NameReadsAs(c, index, octets, s, ok) && At(buf, pos, octets)
    ensures ReadsBack(ReadName(c, buf, Decoded(index, pos), t), s, pos + |octets|, ok)
  {
  }

  lemma ValueReads(c: Shared, buf: Bytes, index: Decoded<nat>, f: Field, t: Table,
                   nameEnd: nat, nameOk: bool, end: nat, valueOk: bool)
    requires Usable(c) && !f.sensitive
    requires ReadsBack(ReadName(c, buf, index, t), f.name, nameEnd, nameOk)
    requires ReadsBack(c.read(buf, nameEnd), f.value, end, valueOk)
    ensures FieldReadsBack(ReadLiteral(c, buf, Ok(index), f.indexing, t), f, end, AfterLiteral(t, f), nameOk && valueOk)
  {
    var r := ReadName(c, buf, index, t);
    if r.Ok? {
      var v := c.read(buf, nameEnd);
      assert ReadLiteral(c, buf, Ok(index), f.indexing, t) == WithValue(r.value.value, v, f.indexing, t);
      assert r == Ok(Decoded(r.value.value, nameEnd));
      if v.Ok? {
        assert v == Ok(Decoded(v.value.value, end));
      }
    }
  }

  /** A literal comes back exactly when the strings written in it do. */
  lemma LiteralReads(c: Shared, index: nat, nameOctets: Bytes, nameOk: bool, octets: Bytes, valueOk: bool,
                     buf: Bytes, pos: nat, end: nat, f: Field, t: Table)
    requires Usable(c) && NameReadsAs(c, index, nameOctets, f.name, nameOk) && ReadsAs(c, octets, f.value, valueOk)
    requires At(buf, pos, nameOctets) && At(buf, pos + |nameOctets|, octets) && end == pos + |nameOctets| + |octets|
    requires !f.sensitive
    ensures FieldReadsBack(ReadLiteral(c, buf, Ok(Decoded(index, pos)), f.indexing, t), f, end, AfterLiteral(t, f),
                           nameOk && valueOk)
  {
    var nameEnd := pos + |nameOctets|;
    NameReads(c, index, nameOctets, f.name, nameOk, buf, pos, t);
    ValueReads(c, buf, Decoded(index, pos), f, t, nameEnd, nameOk, end, valueOk);
  }

  /** The flag bits of a representation and the width of the integer behind them. */
  predicate FlagFor(flag: byte, n: nat, rep: Representation) {
    match rep
    case IndexedField => flag == 0x80 && n == 7
    case Incremental => flag == 0x40 && n == 6
    case SizeUpdate => flag == 0x20 && n == 5
    case NeverIndexed => flag == 0x10 && n == 4
    case NoIndexing => flag == 0 && n == 4
  }

  /** The flag bits choose the representation and leave the integer alone. */
  lemma FlagKept(flag: byte, n: nat, rep: Representation, first: byte)
    requires FlagFor(flag, n, rep) && first <= MaxPrefix(n)
    ensures LowBits(flag + first, n) == first && Classify(flag + first) == rep
  {
  }

  lemma ReadFlaggedInteger(flag: byte, value: nat, n: nat, rep: Representation, buf: Bytes, offset: nat)
    requires FlagFor(flag, n, rep)
    requires At(buf, offset, FlaggedInteger(flag, value, n))
    ensures offset < |buf| && Classify(buf[offset]) == rep
    ensures Read(buf, offset, n) == Ok(Decoded(value, offset + |FlaggedInteger(flag, value, n)|))
  {
    FlagKept(flag, n, rep, Octets(value, n)[0]);
    ReadFlagged(flag, value, n, buf, offset);
  }

  /** The octets at offset choose the representation and read as the value. */
  predicate IntegerReads(buf: Bytes, offset: nat, size: nat, n: nat, rep: Representation, value: nat)
    requires 1 <= n <= 8
  {
    offset < |buf| && Classify(buf[offset]) == rep && Read(buf, offset, n) == Ok(Decoded(value, offset + size))
  }

  /** So they do wherever they stand. */
  ghost predicate IntegerReadsAs(octets: Bytes, n: nat, rep: Representation, value: nat)
    requires 1 <= n <= 8
  {
    forall buf: Bytes, offset: nat {:trigger At(buf, offset, octets)} ::
      At(buf, offset, octets) ==> IntegerReads(buf, offset, |octets|, n, rep, value)
  }

  lemma FlaggedReads(flag: byte, value: nat, n: nat, rep: Representation)
    requires FlagFor(flag, n, rep)
    ensures IntegerReadsAs(FlaggedInteger(flag, value, n), n, rep, value)
  {
    var octets := FlaggedInteger(flag, value, n);
    forall buf: Bytes, offset: nat | At(buf, offset, octets)
      ensures IntegerReads(buf, offset, |octets|, n, rep, value)
    {
      ReadFlaggedInteger(flag, value, n, rep, buf, offset);
    }
  }

  lemma IndexedReads(c: Shared, index: nat, octets: Bytes, buf: Bytes, offset: nat, t: Table)
    requires Usable(c) && 1 <= index <= |c.statics|
    requires IntegerReadsAs(octets, 7, IndexedField, index) && At(buf, offset, octets)
    ensures var e := c.statics[index - 1];
            FieldReads(c, buf, offset, t, Field(e.name, e.value, false, false), offset + |octets|, t, true)
  {
    var read := Read(buf, offset, 7);
    assert ReadField(c, buf, offset, t) == ReadIndexed(c, read, t);
  }

  /** What follows the name index of a literal. */
  lemma LiteralLayout(first: Bytes, nameOctets: Bytes, octets: Bytes, buf: Bytes, offset: nat)
    requires At(buf, offset, (first + nameOctets) + octets)
    ensures At(buf, offset, first)
    ensures At(buf, offset + |first|, nameOctets) && At(buf, offset + |first| + |nameOctets|, octets)
  {
    AtConcat(buf, offset, first + nameOctets, octets);
    AtConcat(buf, offset, first, nameOctets);
  }

  function LiteralPrefix(rep: Representation): nat {
    if rep == Incremental then 6 else 4
  }

  predicate IsLiteral(rep: Representation) {
    rep == Incremental || rep == NeverIndexed || rep == NoIndexing
  }

  lemma LiteralIsRead(c: Shared, rep: Representation, first: Bytes, index: nat, buf: Bytes, offset: nat, t: Table)
    requires Usable(c) && IsLiteral(rep)
    requires IntegerReadsAs(first, LiteralPrefix(rep), rep, index) && At(buf, offset, first)
    ensures offset < |buf|
    ensures ReadField(c, buf, offset, t) ==
            ReadLiteral(c, buf, Ok(Decoded(index, offset + |first|)), rep == Incremental, t)
  {
    var read := Read(buf, offset, LiteralPrefix(rep));
    assert ReadField(c, buf, offset, t) == ReadLiteral(c, buf, read, rep == Incremental, t);
  }

  lemma WholeLiteralReads(c: Shared, rep: Representation, first: Bytes, index: nat, nameOctets: Bytes, nameOk: bool,
                          octets: Bytes, valueOk: bool, buf: Bytes, offset: nat, pos: nat, end: nat, f: Field, t: Table)
    requires Usable(c) && IsLiteral(rep) && !f.sensitive && f.indexing == (rep == Incremental)
    requires IntegerReadsAs(first, LiteralPrefix(rep), rep, index)
    requires NameReadsAs(c, index, nameOctets, f.name, nameOk) && ReadsAs(c, octets, f.value, valueOk)
    requires pos == offset + |first| && end == pos + |nameOctets| + |octets|
    requires At(buf, offset, first) && At(buf, pos, nameOctets) && At(buf, pos + |nameOctets|, octets)
    ensures FieldReads(c, buf, offset, t, f, end, AfterLiteral(t, f), nameOk && valueOk)
  {
    var r := ReadLiteral(c, buf, Ok(Decoded(index, pos)), f.indexing, t);
    assert FieldReadsBack(r, f, end, AfterLiteral(t, f), nameOk && valueOk) by {
      LiteralReads(c, index, nameOctets, nameOk, octets, valueOk, buf, pos, end, f, t);
    }
    assert offset < |buf| && ReadField(c, buf, offset, t) == r by {
      LiteralIsRead(c, rep, first, index, buf, offset, t);
    }
  }

  // ----- one field -----

  /** A new name, or the position of expected in the static table. */
  predicate NameFits(c: Shared, nameIndex: nat, name: Option<string>, expected: string) {
    match name
    case Some(s) => nameIndex == 0 && s == expected
    case None => 1 <= nameIndex <= |c.statics| && c.statics[nameIndex - 1].name == expected
  }

  predicate NameSurvives(c: Shared, name: Option<string>, useHuffman: bool)
    requires Usable(c)
  {
    name.Some? ==> c.keeps(name.value, useHuffman)
  }

  lemma PlanFits(c: Shared, f: Field)
    ensures var h, name := Plan(c, f), LowerCase(f.name);
            && (h.Indexed? <==> !WritesValue(c, f))
            && (h.Indexed? ==> 1 <= h.index <= |c.statics| && c.statics[h.index - 1] == Entry(name, f.value))
            && (!h.Indexed? ==>
                NameFits(c, h.nameIndex, h.name, name) && (h.name.Some? <==> WritesName(c, f)) && h.value == f.value)
            && (h.LiteralIncremental? <==> IsInserted(c, f)) && (h.LiteralNeverIndexed? <==> f.sensitive)
  {
  }

  lemma NameOctetsRead(c: Shared, nameIndex: nat, name: Option<string>, expected: string, useHuffman: bool)
    returns (octets: Bytes, ok: bool)
    requires Sound(c) && NameFits(c, nameIndex, name, expected) && NameOctets(c, nameIndex, name, useHuffman).Ok?
    ensures octets == NameOctets(c, nameIndex, name, useHuffman).value
    ensures NameReadsAs(c, nameIndex, octets, expected, ok) && ok == NameSurvives(c, name, useHuffman)
  {
    octets, ok := NameOctets(c, nameIndex, name, useHuffman).value, NameSurvives(c, name, useHuffman);
  }

  lemma ValueOctetsRead(c: Shared, value: string, useHuffman: bool) returns (octets: Bytes, ok: bool)
    requires Sound(c) && c.write(value, useHuffman).Ok?
    ensures octets == c.write(value, useHuffman).value
    ensures ReadsAs(c, octets, value, ok) && ok == c.keeps(value, useHuffman)
  {
    octets, ok := c.write(value, useHuffman).value, c.keeps(value, useHuffman);
  }

  /** The octets of a literal are those of its index, its name and its value. */
  predicate LiteralIs(c: Shared, flag: byte, n: nat, nameIndex: nat, name: Option<string>, value: string,
                      useHuffman: bool, first: Bytes, nameOctets: Bytes, octets: Bytes)
    requires 1 <= n <= 8 && flag + MaxPrefix(n) < 256
  {
    LiteralOctets(c, flag, n, nameIndex, name, value, useHuffman) == Ok((first + nameOctets) + octets)
  }

  lemma LiteralRoundTrip(c: Shared, flag: byte, n: nat, rep: Representation, nameIndex: nat, name: Option<string>,
                         f: Field, useHuffman: bool, buf: Bytes, offset: nat, end: nat, t: Table)
    requires Sound(c) && NameFits(c, nameIndex, name, f.name) && !f.sensitive && f.indexing == (rep == Incremental)
    requires FlagFor(flag, n, rep) && IsLiteral(rep)
    requires LiteralOctets(c, flag, n, nameIndex, name, f.value, useHuffman).Ok?
    requires At(buf, offset, LiteralOctets(c, flag, n, nameIndex, name, f.value, useHuffman).value)
    requires end == offset + |LiteralOctets(c, flag, n, nameIndex, name, f.value, useHuffman).value|
    ensures FieldReads(c, buf, offset, t, f, end, AfterLiteral(t, f),
                       NameSurvives(c, name, useHuffman) && c.keeps(f.value, useHuffman))
  {
    var nameOctets, nameOk := NameOctetsRead(c, nameIndex, name, f.name, useHuffman);
    var octets, valueOk := ValueOctetsRead(c, f.value, useHuffman);
    var first := FlaggedInteger(flag, nameIndex, n);
    var pos := offset + |first|;
    assert LiteralIs(c, flag, n, nameIndex, name, f.value, useHuffman, first, nameOctets, octets);
    LiteralLayout(first, nameOctets, octets, buf, offset);
    assert FieldReads(c, buf, offset, t, f, end, AfterLiteral(t, f), nameOk && valueOk) by {
      FlaggedReads(flag, nameIndex, n, rep);
      WholeLiteralReads(c, rep, first, nameIndex, nameOctets, nameOk, octets, valueOk, buf, offset, pos, end, f, t);
    }
  }

  lemma RunInserts(c: Shared, f: Field, t: Table)
    ensures Run(t, InsertsOf(c, f)) == AfterLiteral(t, Received(c, f))
  {
    if IsInserted(c, f) {
      var op := Insert(Entry(LowerCase(f.name), f.value));
      assert [op][..0] == [];
      assert Run(t, [op]) == Apply(Run(t, []), op);
    }
  }

  function RepresentationOf(h: EncodedHeader): Representation {
    match h
    case Indexed(_) => IndexedField
    case LiteralIncremental(_, _, _) => Incremental
    case LiteralNeverIndexed(_, _, _) => NeverIndexed
    case LiteralNoIndexing(_, _, _) => NoIndexing
  }

  function FlagOf(rep: Representation): byte {
    if rep == Incremental then 0x40 else if rep == NeverIndexed then 0x10 else 0
  }

  lemma LiteralPlan(c: Shared, f: Field, useHuffman: bool)
    requires Usable(c) && !Plan(c, f).Indexed?
    ensures var h, rep := Plan(c, f), RepresentationOf(Plan(c, f));
            && IsLiteral(rep) && FlagFor(FlagOf(rep), LiteralPrefix(rep), rep) &&
               NameFits(c, h.nameIndex, h.name, LowerCase(f.name))
            && Received(c, f) == Field(LowerCase(f.name), h.value, rep == Incremental, false)
            && FieldOctets(c, f, useHuffman) ==
               LiteralOctets(c, FlagOf(rep), LiteralPrefix(rep), h.nameIndex, h.name, h.value, useHuffman)
            && Carried(c, f, useHuffman) == (NameSurvives(c, h.name, useHuffman) && c.keeps(h.value, useHuffman))
  {
    PlanFits(c, f);
  }

  lemma LiteralFieldRoundTrip(c: Shared, f: Field, useHuffman: bool, buf: Bytes, offset: nat, t: Table)
    requires Sound(c) && !Plan(c, f).Indexed? && FieldOctets(c, f, useHuffman).Ok?
    requires At(buf, offset, FieldOctets(c, f, useHuffman).value)
    ensures FieldReads(c, buf, offset, t, Received(c, f), offset + |FieldOctets(c, f, useHuffman).value|,
                       AfterLiteral(t, Received(c, f)), Carried(c, f, useHuffman))
  {
    var h := Plan(c, f);
    var r, rep := Received(c, f), RepresentationOf(h);
    LiteralPlan(c, f, useHuffman);
    var end := offset + |FieldOctets(c, f, useHuffman).value|;
    assert FieldReads(c, buf, offset, t, r, end, AfterLiteral(t, r), Carried(c, f, useHuffman)) by {
      LiteralRoundTrip(c, FlagOf(rep), LiteralPrefix(rep), rep, h.nameIndex, h.name, r, useHuffman, buf,
                       offset, end, t);
    }
  }

  /** A field comes back, lower-cased, exactly when the strings written for it survive. */
  lemma FieldRoundTrip(c: Shared, f: Field, useHuffman: bool, buf: Bytes, offset: nat, t: Table)
    requires Sound(c) && FieldOctets(c, f, useHuffman).Ok?
    requires At(buf, offset, FieldOctets(c, f, useHuffman).value)
    ensures FieldReads(c, buf, offset, t, Received(c, f), offset + |FieldOctets(c, f, useHuffman).value|,
                       Run(t, InsertsOf(c, f)), Carried(c, f, useHuffman))
  {
    RunInserts(c, f, t);
    PlanFits(c, f);
    var h := Plan(c, f);
    if h.Indexed? {
      FlaggedReads(0x80, h.index, 7, IndexedField);
      IndexedReads(c, h.index, FlaggedInteger(0x80, h.index, 7), buf, offset, t);
    } else {
      LiteralFieldRoundTrip(c, f, useHuffman, buf, offset, t);
    }
  }

  /** The five patterns of section 6 of RFC 7541. */
  lemma ClassesInNumbers(octet: byte)
    ensures Classify(octet) == if octet >= 0x80 then IndexedField else if octet >= 0x40 then Incremental
                               else if octet >= 0x20 then SizeUpdate else if octet >= 0x10 then NeverIndexed
                               else NoIndexing
  {
  }

  /** The first octet of a field tells how it is represented. */
  lemma RepresentationsOnTheWire(c: Shared, f: Field, useHuffman: bool)
    requires FieldOctets(c, f, useHuffman).Ok?
    ensures var octets := FieldOctets(c, f, useHuffman).value;
            && octets != []
            && (octets[0] >= 0x80 <==> !f.sensitive && IsExact(c, f))
            && (0x40 <= octets[0] < 0x80 <==> !f.sensitive && !IsExact(c, f) && f.indexing)
            && (0x10 <= octets[0] < 0x20 <==> f.sensitive)
            && (octets[0] < 0x10 <==> !f.sensitive && !IsExact(c, f) && !f.indexing)
  {
    var h := Plan(c, f);
    PlanFits(c, f);
    var rep := RepresentationOf(h);
    var index := if h.Indexed? then h.index else h.nameIndex;
    var flag, n := if h.Indexed? then 0x80 else FlagOf(rep), if h.Indexed? then 7 else LiteralPrefix(rep);
    assert FieldOctets(c, f, useHuffman).value[0] == flag + Octets(index, n)[0];
    FlagKept(flag, n, rep, Octets(index, n)[0]);
    ClassesInNumbers(FieldOctets(c, f, useHuffman).value[0]);
  }

  lemma UpdateOnTheWire(limit: int)
    ensures UpdateOctets(Some(limit)).Ok? <==> limit >= 0
    ensures limit >= 0 ==> UpdateOctets(Some(limit)).value != [] && 0x20 <= UpdateOctets(Some(limit)).value[0] < 0x40
  {
  }

  // ----- one block -----

  /** The fields and the table after them come out exactly when ok; otherwise something else does. */
  ghost predicate BlockReads(o: Outcome, fields: seq<Field>, after: Table, ok: bool) {
    if ok then o == Outcome(Ok(fields), after) else o.result != Ok(fields)
  }

  lemma BeforeReads(first: seq<Field>, rest: Outcome, f: Field, fields: seq<Field>, last: Table, ok: bool, restOk: bool)
    requires |first| == 1 && (first[0] == f <==> ok)
    requires ok ==> BlockReads(rest, fields, last, restOk)
    ensures BlockReads(Before(first, rest), [f] + fields, last, ok && restOk)
  {
    assert first == [first[0]];
    if rest.result.Ok? {
      assert (first + rest.result.value)[0] == first[0] && (first + rest.result.value)[1..] == rest.result.value;
      assert ([f] + fields)[0] == f && ([f] + fields)[1..] == fields;
    }
  }

  lemma DecodeStep(c: Shared, buf: Bytes, offset: nat, t: Table, f: Field, end: nat, after: Table, ok: bool,
                   fields: seq<Field>, last: Table, restOk: bool)
    requires FieldReads(c, buf, offset, t, f, end, after, ok)
    requires ok ==> BlockReads(DecodeFrom(c, buf, end, after), fields, last, restOk)
    ensures BlockReads(DecodeFrom(c, buf, offset, t), [f] + fields, last, ok && restOk)
  {
    var r := ReadField(c, buf, offset, t);
    if r.Ok? {
      var rest := DecodeFrom(c, buf, r.value.next, r.value.table);
      assert DecodeFrom(c, buf, offset, t) == Before(r.value.fields, rest);
      BeforeReads(r.value.fields, rest, f, fields, last, ok, restOk);
    }
  }

  /** A representation, and what comes of it exactly when ok. */
  datatype Piece = Piece(octets: Bytes, field: Field, ops: seq<TableOp>, ok: bool)

  ghost predicate PieceReads(c: Shared, p: Piece) {
    forall buf: Bytes, offset: nat, t: Table {:trigger DecodeFrom(c, buf, offset, t), At(buf, offset, p.octets)} ::
      Usable(c) && At(buf, offset, p.octets) ==>
        FieldReads(c, buf, offset, t, p.field, offset + |p.octets|, Run(t, p.ops), p.ok)
  }

  function PieceOctets(pieces: seq<Piece>): Bytes {
    if pieces == [] then [] else pieces[0].octets + PieceOctets(pieces[1..])
  }

  function PieceFields(pieces: seq<Piece>): seq<Field> {
    if pieces == [] then [] else [pieces[0].field] + PieceFields(pieces[1..])
  }

  function PieceOps(pieces: seq<Piece>): seq<TableOp> {
    if pieces == [] then [] else pieces[0].ops + PieceOps(pieces[1..])
  }

  function PiecesOk(pieces: seq<Piece>): bool {
    pieces == [] || (pieces[0].ok && PiecesOk(pieces[1..]))
  }

  /** s is the rest of buf from offset on. */
  predicate Ends(buf: Bytes, offset: nat, s: Bytes) {
    offset <= |buf| && buf[offset..] == s
  }

  lemma Front(buf: Bytes, offset: nat, a: Bytes, b: Bytes)
    requires Ends(buf, offset, a + b)
    ensures At(buf, offset, a) && Ends(buf, offset + |a|, b)
  {
    assert buf[offset..][..|a|] == a && buf[offset..][|a|..] == b;
    assert |buf[offset..]| == |a| + |b|;
    assert buf[offset..offset + |a|] == buf[offset..][..|a|];
  }

  lemma {:induction false} PiecesRead(c: Shared, pieces: seq<Piece>, buf: Bytes, offset: nat, t: Table)
    requires Usable(c) && Ends(buf, offset, PieceOctets(pieces))
    requires forall k :: 0 <= k < |pieces| ==> PieceReads(c, pieces[k])
    ensures BlockReads(DecodeFrom(c, buf, offset, t), PieceFields(pieces), Run(t, PieceOps(pieces)), PiecesOk(pieces))
    decreases |pieces|
  {
    if pieces == [] {
    } else {
      var p, rest := pieces[0], pieces[1..];
      var end, after := offset + |p.octets|, Run(t, p.ops);
      Front(buf, offset, p.octets, PieceOctets(rest));
      var whole := DecodeFrom(c, buf, offset, t);
      assert PieceReads(c, p);
      assert FieldReads(c, buf, offset, t, p.field, end, after, p.ok);
      PiecesRead(c, rest, buf, end, after);
      RunConcat(t, p.ops, PieceOps(rest));
      DecodeStep(c, buf, offset, t, p.field, end, after, p.ok, PieceFields(rest), Run(t, PieceOps(pieces)),
                 PiecesOk(rest));
    }
  }

  lemma {:induction false} InsertsKeepLimit(t: Table, ops: seq<TableOp>)
    requires Inserts(ops)
    ensures Run(t, ops).limit == t.limit
  {
    if ops == [] {
    } else {
      InsertsKeepLimit(t, ops[..|ops| - 1]);
    }
  }

  /** Whatever becomes of the strings, the pieces leave the limit alone. */
  lemma {:induction false} PiecesKeepLimit(c: Shared, pieces: seq<Piece>, buf: Bytes, offset: nat, t: Table)
    requires Usable(c) && Ends(buf, offset, PieceOctets(pieces))
    requires forall k :: 0 <= k < |pieces| ==> PieceReads(c, pieces[k]) && Inserts(pieces[k].ops)
    ensures DecodeFrom(c, buf, offset, t).table.limit == t.limit
    decreases |pieces|
  {
    if pieces == [] {
    } else {
      var p, rest := pieces[0], pieces[1..];
      var end, after := offset + |p.octets|, Run(t, p.ops);
      Front(buf, offset, p.octets, PieceOctets(rest));
      var whole := DecodeFrom(c, buf, offset, t);
      assert PieceReads(c, p);
      assert FieldReads(c, buf, offset, t, p.field, end, after, p.ok);
      InsertsKeepLimit(t, p.ops);
      var r := ReadField(c, buf, offset, t);
      if r.Ok? {
        PiecesKeepLimit(c, rest, buf, end, r.value.table);
      }
    }
  }

  function PieceFor(c: Shared, f: Field, useHuffman: bool): Piece
    requires Usable(c) && FieldOctets(c, f, useHuffman).Ok?
  {
    Piece(FieldOctets(c, f, useHuffman).value, Received(c, f), InsertsOf(c, f), Carried(c, f, useHuffman))
  }

  lemma FieldIsPiece(c: Shared, f: Field, useHuffman: bool, p: Piece)
    requires Sound(c) && FieldOctets(c, f, useHuffman).Ok? && p == PieceFor(c, f, useHuffman)
    ensures PieceReads(c, p)
  {
    forall buf: Bytes, offset: nat, t: Table | At(buf, offset, p.octets)
      ensures FieldReads(c, buf, offset, t, p.field, offset + |p.octets|, Run(t, p.ops), p.ok)
    {
      FieldRoundTrip(c, f, useHuffman, buf, offset, t);
    }
  }

  lemma FieldPiece(c: Shared, f: Field, useHuffman: bool) returns (p: Piece)
    requires Sound(c) && FieldOctets(c, f, useHuffman).Ok?
    ensures p == PieceFor(c, f, useHuffman) && PieceReads(c, p) && Inserts(p.ops)
  {
    p := PieceFor(c, f, useHuffman);
    FieldIsPiece(c, f, useHuffman, p);
  }

  /** The pieces of a block. */
  lemma {:induction false} FieldPieces(c: Shared, headers: seq<Field>, i: nat, useHuffman: bool)
    returns (pieces: seq<Piece>)
    requires Sound(c) && i <= |headers| && FieldsFrom(c, headers, i, useHuffman).Ok?
    ensures forall k :: 0 <= k < |pieces| ==> PieceReads(c, pieces[k]) && Inserts(pieces[k].ops)
    ensures PieceOctets(pieces) == FieldsFrom(c, headers, i, useHuffman).value
    ensures PieceFields(pieces) == ReceivedFrom(c, headers, i) && PieceOps(pieces) == InsertsFrom(c, headers, i)
    ensures PiecesOk(pieces) == CarriedFrom(c, headers, i, useHuffman)
    decreases |headers| - i
  {
    if i == |headers| {
      pieces := [];
    } else {
      var p := FieldPiece(c, headers[i], useHuffman);
      var rest := FieldPieces(c, headers, i + 1, useHuffman);
      pieces := [p] + rest;
      assert pieces[1..] == rest;
    }
  }

  lemma FieldsRoundTrip(c: Shared, headers: seq<Field>, useHuffman: bool, buf: Bytes, offset: nat, t: Table)
    requires Sound(c) && FieldsFrom(c, headers, 0, useHuffman).Ok?
    requires Ends(buf, offset, FieldsFrom(c, headers, 0, useHuffman).value)
    ensures BlockReads(DecodeFrom(c, buf, offset, t), ReceivedFrom(c, headers, 0), Run(t, InsertsFrom(c, headers, 0)),
                       CarriedFrom(c, headers, 0, useHuffman))
  {
    var pieces := FieldPieces(c, headers, 0, useHuffman);
    PiecesRead(c, pieces, buf, offset, t);
  }

  lemma FieldsKeepLimit(c: Shared, headers: seq<Field>, useHuffman: bool, buf: Bytes, offset: nat, t: Table)
    requires Sound(c) && FieldsFrom(c, headers, 0, useHuffman).Ok?
    requires Ends(buf, offset, FieldsFrom(c, headers, 0, useHuffman).value)
    ensures DecodeFrom(c, buf, offset, t).table.limit == t.limit
  {
    var pieces := FieldPieces(c, headers, 0, useHuffman);
    PiecesKeepLimit(c, pieces, buf, offset, t);
  }

  /** What a block does to the decoder's table. */
  function BlockOps(c: Shared, update: Option<int>, headers: seq<Field>): seq<TableOp> {
    (if update.Some? then [Resize(update.value)] else []) + InsertsFrom(c, headers, 0)
  }

  lemma UpdateReads(c: Shared, limit: nat, buf: Bytes, offset: nat, t: Table)
    requires Usable(c) && At(buf, offset, FlaggedInteger(0x20, limit, 5))
    ensures offset < |buf|
    ensures ReadField(c, buf, offset, t) == Ok(Step([], offset + |FlaggedInteger(0x20, limit, 5)|, Resized(t, limit)))
  {
    var octets := FlaggedInteger(0x20, limit, 5);
    assert IntegerReads(buf, offset, |octets|, 5, SizeUpdate, limit) by {
      FlaggedReads(0x20, limit, 5, SizeUpdate);
    }
    assert ReadField(c, buf, offset, t) == ReadSizeUpdate(Read(buf, offset, 5), t);
  }

  lemma DecodeUpdate(c: Shared, limit: nat, rest: Bytes, t: Table)
    requires Usable(c)
    ensures var update := FlaggedInteger(0x20, limit, 5);
            DecodeBlock(c, update + rest, t) == DecodeFrom(c, update + rest, |update|, Resized(t, limit))
  {
    var update := FlaggedInteger(0x20, limit, 5);
    var buf := update + rest;
    assert buf[0..|update|] == update;
    UpdateReads(c, limit, buf, 0, t);
    BeforeNone(DecodeFrom(c, buf, |update|, Resized(t, limit)));
  }

  lemma RunResize(t: Table, limit: int, ops: seq<TableOp>)
    ensures Run(t, [Resize(limit)] + ops) == Run(Resized(t, limit), ops)
  {
    var first := [Resize(limit)];
    assert first[..0] == [];
    assert Run(t, first) == Apply(Run(t, []), first[0]);
    RunConcat(t, first, ops);
  }

  /**
   * A block comes back, names lower-cased and in order, exactly when all its strings survive;
   * and then the decoder's table has taken the size update and the insertions and nothing else.
   */
  lemma BlockRoundTrip(c: Shared, update: Option<int>, headers: seq<Field>, useHuffman: bool, t: Table)
    requires Sound(c) && BlockOctets(c, update, headers, useHuffman).Ok?
    ensures BlockReads(DecodeBlock(c, BlockOctets(c, update, headers, useHuffman).value, t),
                       ReceivedFrom(c, headers, 0),
                       Run(t, BlockOps(c, update, headers)), CarriedFrom(c, headers, 0, useHuffman))
  {
    var buf := BlockOctets(c, update, headers, useHuffman).value;
    var fields := FieldsFrom(c, headers, 0, useHuffman).value;
    if update.Some? {
      var first := FlaggedInteger(0x20, update.value, 5);
      assert buf == first + fields && Ends(buf, |first|, fields);
      DecodeUpdate(c, update.value, fields, t);
      RunResize(t, update.value, InsertsFrom(c, headers, 0));
      FieldsRoundTrip(c, headers, useHuffman, buf, |first|, Resized(t, update.value));
    } else {
      assert buf == fields && Ends(buf, 0, fields);
      assert BlockOps(c, update, headers) == InsertsFrom(c, headers, 0);
      FieldsRoundTrip(c, headers, useHuffman, buf, 0, t);
    }
  }

  // ----- whole sessions -----

  datatype Call = SetMaxTableSize(limit: int) | Encode(headers: seq<Field>)

  /** A block that was encoded, with the size update in front of it. */
  datatype Block = Block(update: Option<int>, headers: seq<Field>)

  /** The blocks that an encoder with this update waiting makes of the calls; a call that throws makes none. */
  function Blocks(c: Shared, update: Option<int>, calls: seq<Call>, useHuffman: bool): (r: seq<Block>)
    requires Usable(c)
    ensures forall k :: 0 <= k < |r| ==> BlockOctets(c, r[k].update, r[k].headers, useHuffman).Ok?
    decreases |calls|
  {
    if calls == [] then []
    else
      match calls[0]
      case SetMaxTableSize(limit) => Blocks(c, Some(limit), calls[1..], useHuffman)
      case Encode(headers) =>
        var rest := Blocks(c, if UpdateOctets(update).Ok? then None else update, calls[1..], useHuffman);
        if BlockOctets(c, update, headers, useHuffman).Ok? then [Block(update, headers)] + rest else rest
  }

  /** One decoder reads the blocks in turn. */
  function DecodeAll(c: Shared, blocks: seq<Block>, useHuffman: bool, t: Table)
    : (seq<Result<seq<Field>, HpackError>>, Table)
    requires Usable(c)
    requires forall k :: 0 <= k < |blocks| ==> BlockOctets(c, blocks[k].update, blocks[k].headers, useHuffman).Ok?
  {
    if blocks == [] then ([], t)
    else
      var o := DecodeBlock(c, BlockOctets(c, blocks[0].update, blocks[0].headers, useHuffman).value, t);
      var (results, last) := DecodeAll(c, blocks[1..], useHuffman, o.table);
      ([o.result] + results, last)
  }

  function AllReceived(c: Shared, blocks: seq<Block>): seq<Result<seq<Field>, HpackError>> {
    if blocks == [] then [] else [Ok(ReceivedFrom(c, blocks[0].headers, 0))] + AllReceived(c, blocks[1..])
  }

  function AllOps(c: Shared, blocks: seq<Block>): seq<TableOp> {
    if blocks == [] then [] else BlockOps(c, blocks[0].update, blocks[0].headers) + AllOps(c, blocks[1..])
  }

  predicate AllCarried(c: Shared, blocks: seq<Block>, useHuffman: bool)
    requires Usable(c)
  {
    forall k :: 0 <= k < |blocks| ==> CarriedFrom(c, blocks[k].headers, 0, useHuffman)
  }

  ghost predicate SessionReads(r: (seq<Result<seq<Field>, HpackError>>, Table),
                               expected: seq<Result<seq<Field>, HpackError>>, last: Table, ok: bool) {
    if ok then r == (expected, last) else r.0 != expected
  }

  lemma {:induction false} BlocksRoundTrip(c: Shared, blocks: seq<Block>, useHuffman: bool, t: Table)
    requires Sound(c)
    requires forall k :: 0 <= k < |blocks| ==> BlockOctets(c, blocks[k].update, blocks[k].headers, useHuffman).Ok?
    ensures SessionReads(DecodeAll(c, blocks, useHuffman, t), AllReceived(c, blocks), Run(t, AllOps(c, blocks)),
                         AllCarried(c, blocks, useHuffman))
  {
    if blocks == [] {
    } else {
      var b, rest := blocks[0], blocks[1..];
      var o := DecodeBlock(c, BlockOctets(c, b.update, b.headers, useHuffman).value, t);
      var ops, ok := BlockOps(c, b.update, b.headers), CarriedFrom(c, b.headers, 0, useHuffman);
      assert BlockReads(o, ReceivedFrom(c, b.headers, 0), Run(t, ops), ok) by {
        BlockRoundTrip(c, b.update, b.headers, useHuffman, t);
      }
      assert AllCarried(c, blocks, useHuffman) <==> ok && AllCarried(c, rest, useHuffman);
      assert DecodeAll(c, blocks, useHuffman, t).0[0] == o.result;
      assert DecodeAll(c, blocks, useHuffman, t).0[1..] == DecodeAll(c, rest, useHuffman, o.table).0;
      assert AllReceived(c, blocks)[0] == Ok(ReceivedFrom(c, b.headers, 0)) &&
             AllReceived(c, blocks)[1..] == AllReceived(c, rest);
      RunConcat(t, ops, AllOps(c, rest));
      BlocksRoundTrip(c, rest, useHuffman, o.table);
    }
  }

  /** Two spellings of a name have the same octets. */
  lemma SpellingIsLost(c: Shared, f: Field, name: string, useHuffman: bool)
    requires LowerCase(name) == LowerCase(f.name)
    ensures FieldOctets(c, f.(name := name), useHuffman) == FieldOctets(c, f, useHuffman)
  {
  }

  lemma NoRowBefore31(i: nat)
    requires i < 30
    ensures |STATIC_TABLE| == STATIC_TABLE_LENGTH && |STATIC_TABLE[i].name| != 12
  {
    RowOf(i + 1);
    if i < 14 {
      var row := ROWS_1_TO_14[i];
      assert |row.name| != 12;
    } else {
      var row := ROWS_15_TO_30[i - 14];
      assert |row.name| != 12;
    }
  }

  lemma ValuedRow(i: nat)
    requires i < STATIC_TABLE_LENGTH
    ensures |STATIC_TABLE| == STATIC_TABLE_LENGTH
    ensures STATIC_TABLE[i].value != "" ==> |STATIC_TABLE[i].name| != 12
  {
    RowOf(i + 1);
    if i < 30 {
      NoRowBefore31(i);
    } else if i < 46 {
      var row := ROWS_31_TO_46[i - 30];
      assert row.value == "";
    } else {
      var row := ROWS_47_TO_61[i - 46];
      assert row.value == "";
    }
  }

  lemma FirstOfName(statics: seq<Entry>, name: string, k: nat)
    requires k < |statics| && statics[k].name == name && forall i :: 0 <= i < k ==> |statics[i].name| != |name|
    ensures StaticName(statics, name) == Some(k + 1)
  {
    SearchesFindFirst(statics, name, "", 0, k);
  }

  lemma Row31()
    ensures |STATIC_TABLE| == STATIC_TABLE_LENGTH && STATIC_TABLE[30].name == "content-type"
  {
    RowOf(31);
  }

  lemma ContentTypeFound()
    ensures StaticName(STATIC_TABLE, "content-type") == Some(31)
  {
    Row31();
    forall i | 0 <= i < 30
      ensures |STATIC_TABLE[i].name| != 12
    {
      NoRowBefore31(i);
    }
    FirstOfName(STATIC_TABLE, "content-type", 30);
  }

  lemma ContentTypeHasNoValue(value: string)
    requires value != ""
    ensures StaticExact(STATIC_TABLE, "content-type", value).None?
  {
    var exact := StaticExact(STATIC_TABLE, "content-type", value);
    if exact.Some? {
      ValuedRow(exact.value - 1);
    }
  }

  lemma KnownNameIsPlanned(c: Shared, f: Field, index: nat)
    requires StaticName(c.statics, LowerCase(f.name)) == Some(index)
    requires StaticExact(c.statics, LowerCase(f.name), f.value).None?
    ensures var h := Plan(c, f); !h.Indexed? && h.nameIndex == index && h.name.None?
  {
  }

  lemma ContentTypeLowered()
    ensures LowerCase("Content-Type") == "content-type"
  {
  }

  /** However it is spelt, the name of the content type is the one of row 31. */
  lemma ContentTypeIsRow31(f: Field)
    requires LowerCase(f.name) == "content-type" && f.value != ""
    ensures var h := Plan(HPACK, f); !h.Indexed? && h.nameIndex == 31 && h.name.None?
    ensures LowerCase("Content-Type") == "content-type"
  {
    ContentTypeFound();
    ContentTypeHasNoValue(f.value);
    KnownNameIsPlanned(HPACK, f, 31);
    ContentTypeLowered();
  }

  /** Fields in printable ASCII always come back. */
  lemma PrintableIsCarried(f: Field, useHuffman: bool)
    requires forall i :: 0 <= i < |f.name| ==> ' ' <= f.name[i] <= '~'
    requires forall i :: 0 <= i < |f.value| ==> ' ' <= f.value[i] <= '~'
    ensures Usable(HPACK) && Carried(HPACK, f, useHuffman)
  {
    HpackIsSound();
    PrintableIsKept(LowerCase(f.name), useHuffman);
    PrintableIsKept(f.value, useHuffman);
  }
}
