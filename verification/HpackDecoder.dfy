/** Header block decoding, section 6 of RFC 7541 (src/hpack/decoder.ts). */
module HpackDecoder {
  import opened Bits
  import opened Results
  import opened PrefixInteger
  import opened StaticTable
  import opened HpackTables
  import opened DynamicTables
  import opened HeaderFields

  /** What one representation adds to the output, where it ends, and the table after it. */
  datatype Step = Step(fields: seq<Field>, next: nat, table: Table)

  type Stepped = Result<Step, HpackError>

  /** A whole block: the fields or an error, and the table, which an error leaves as it then was. */
  datatype Outcome = Outcome(result: Result<seq<Field>, HpackError>, table: Table)

  function ReadIndexed(c: Shared, index: Result<Decoded<nat>, HpackError>, t: Table): Stepped {
    match index
    case Err(e) => Err(e)
    case Ok(d) =>
      match ResolveIndex(c.statics, d.value, t)
      case None => Err(IndexOutOfRange)
      case Some(e) => Ok(Step([Field(e.name, e.value, false, false)], d.next, t))
  }

  function ReadSizeUpdate(limit: Result<Decoded<nat>, HpackError>, t: Table): Stepped {
    match limit
    case Err(e) => Err(e)
    case Ok(d) => Ok(Step([], d.next, Resized(t, d.value)))
  }

  /** A name, new or from the tables. */
  function ReadName(c: Shared, buf: Bytes, index: Decoded<nat>, t: Table): (r: Result<Decoded<string>, HpackError>)
    requires Usable(c)
    ensures r.Ok? && index.next <= |buf| ==> index.next <= r.value.next <= |buf|
  {
    if index.value == 0 then c.read(buf, index.next)
    else
      match ResolveIndex(c.statics, index.value, t)
      case None => Err(IndexOutOfRange)
      case Some(e) => Ok(Decoded(e.name, index.next))
  }

  /** The literal with this name whose value is read next. */
  function WithValue(name: string, value: Result<Decoded<string>, HpackError>, incremental: bool, t: Table): Stepped {
    match value
    case Err(e) => Err(e)
    case Ok(v) =>
      Ok(Step([Field(name, v.value, incremental, false)], v.next,
              if incremental then Added(t, Entry(name, v.value)) else t))
  }

  /** A literal behind its name index. */
  function ReadLiteral(c: Shared, buf: Bytes, index: Result<Decoded<nat>, HpackError>, incremental: bool,
                       t: Table): Stepped
    requires Usable(c)
  {
    match index
    case Err(e) => Err(e)
    case Ok(d) =>
      match ReadName(c, buf, d, t)
      case Err(e) => Err(e)
      case Ok(name) => WithValue(name.value, c.read(buf, name.next), incremental, t)
  }

  datatype Representation = IndexedField | Incremental | SizeUpdate | NoIndexing | NeverIndexed

  /** The bit patterns 1xxxxxxx, 01xxxxxx, 001xxxxx, 0000xxxx and, as what is left, 0001xxxx. */
  function Classify(octet: byte): Representation {
    if octet / 0x80 == 1 then IndexedField
    else if octet / 0x40 == 1 then Incremental
    else if octet / 0x20 == 1 then SizeUpdate
    else if octet / 0x10 == 0 then NoIndexing
    else NeverIndexed
  }

  function ReadField(c: Shared, buf: Bytes, offset: nat, t: Table): (r: Stepped)
    requires Usable(c) && offset < |buf|
    ensures r.Ok? ==> offset < r.value.next <= |buf| && |r.value.fields| <= 1
  {
    match Classify(buf[offset])
    case IndexedField => ReadIndexed(c, Read(buf, offset, 7), t)
    case Incremental => ReadLiteral(c, buf, Read(buf, offset, 6), true, t)
    case SizeUpdate => ReadSizeUpdate(Read(buf, offset, 5), t)
    case NoIndexing => ReadLiteral(c, buf, Read(buf, offset, 4), false, t)
    case NeverIndexed => ReadLiteral(c, buf, Read(buf, offset, 4), false, t)
  }

  function Before(fields: seq<Field>, o: Outcome): Outcome {
    match o.result
    case Err(_) => o
    case Ok(rest) => Outcome(Ok(fields + rest), o.table)
  }

  function DecodeFrom(c: Shared, buf: Bytes, offset: nat, t: Table): Outcome
    requires Usable(c)
    decreases |buf| - offset
  {
    if offset >= |buf| then Outcome(Ok([]), t)
    else
      match ReadField(c, buf, offset, t)
      case Err(e) => Outcome(Err(e), t)
      case Ok(s) => Before(s.fields, DecodeFrom(c, buf, s.next, s.table))
  }

  function DecodeBlock(c: Shared, buf: Bytes, t: Table): Outcome
    requires Usable(c)
  {
    DecodeFrom(c, buf, 0, t)
  }

  lemma BeforeNone(o: Outcome)
    ensures Before([], o) == o
  {
    if o.result.Ok? {
      assert [] + o.result.value == o.result.value;
    }
  }

  lemma BeforeAssociates(a: seq<Field>, b: seq<Field>, o: Outcome)
    ensures Before(a, Before(b, o)) == Before(a + b, o)
  {
    if o.result.Ok? {
      assert a + (b + o.result.value) == a + b + o.result.value;
    }
  }

  class HpackDecoder {
    const shared: Shared
    const dynamic: DynamicTable

    ghost predicate Valid()
      reads this, dynamic
    {
      shared == HPACK && Usable(shared) && dynamic.Valid()
    }

    constructor (maxTableSize: int)
      ensures Valid() && shared == HPACK && fresh(dynamic) && dynamic.State() == Table([], maxTableSize)
    {
      HpackIsSound();
      shared := HPACK;
      dynamic := new DynamicTable(maxTableSize);
    }

    method Decode(buf: Bytes) returns (r: Result<seq<Field>, HpackError>)
      requires Valid()
      modifies dynamic
      ensures Valid()
      ensures Outcome(r, dynamic.State()) == DecodeBlock(shared, buf, old(dynamic.State()))
    {
      var out, offset := [], 0;
      BeforeNone(DecodeBlock(shared, buf, dynamic.State()));
      while offset < |buf|
        invariant Valid() && offset <= |buf|
        invariant DecodeBlock(shared, buf, old(dynamic.State())) ==
                  Before(out, DecodeFrom(shared, buf, offset, dynamic.State()))
        decreases |buf| - offset
      {
        var step := DecodeField(buf, offset);
        if step.Err? {
          return Err(step.error);
        }
        BeforeAssociates(out, step.value.value, DecodeFrom(shared, buf, step.value.next, dynamic.State()));
        out, offset := out + step.value.value, step.value.next;
      }
      assert out + [] == out;
      return Ok(out);
    }

    /** One turn of the loop. */
    method DecodeField(buf: Bytes, offset: nat) returns (r: Result<Decoded<seq<Field>>, HpackError>)
      requires Valid() && offset < |buf|
      modifies dynamic
      ensures Valid()
      ensures match ReadField(shared, buf, offset, old(dynamic.State()))
              case Err(e) => r == Err(e) && dynamic.State() == old(dynamic.State())
              case Ok(s) => r == Ok(Decoded(s.fields, s.next)) && dynamic.State() == s.table
    {
      var octet := buf[offset];
      if octet / 0x80 == 1 {
        var index := DecodeInteger(buf, offset, 7);
        if index.Err? {
          return Err(index.error);
        }
        var resolved := Resolve(shared.statics, index.value.value, dynamic);
        if resolved.None? {
          return Err(IndexOutOfRange);
        }
        return Ok(Decoded([Field(resolved.value.name, resolved.value.value, false, false)], index.value.next));
      }
      if octet / 0x40 == 1 {
        r := DecodeLiteral(buf, offset, Incremental);
        return;
      }
      if octet / 0x20 == 1 {
        var limit := DecodeInteger(buf, offset, 5);
        if limit.Err? {
          return Err(limit.error);
        }
        dynamic.SetLimit(limit.value.value);
        return Ok(Decoded([], limit.value.next));
      }
      r := DecodeLiteral(buf, offset, if octet / 0x10 == 0 then NoIndexing else NeverIndexed);
    }

    method DecodeLiteral(buf: Bytes, offset: nat, indexing: Representation)
      returns (r: Result<Decoded<seq<Field>>, HpackError>)
      requires Valid() && offset < |buf|
      requires Classify(buf[offset]) == indexing && indexing in {Incremental, NoIndexing, NeverIndexed}
      modifies dynamic
      ensures Valid()
      ensures match ReadField(shared, buf, offset, old(dynamic.State()))
              case Err(e) => r == Err(e) && dynamic.State() == old(dynamic.State())
              case Ok(s) => r == Ok(Decoded(s.fields, s.next)) && dynamic.State() == s.table
    {
      var prefixBits := if buf[offset] / 0x40 == 1 then 6 else 4;
      var nameIndex := DecodeInteger(buf, offset, prefixBits);
      if nameIndex.Err? {
        return Err(nameIndex.error);
      }
      var name, nameOffset := "", nameIndex.value.next;
      if nameIndex.value.value == 0 {
        var newName := DecodeStringAt(buf, nameOffset);
        if newName.Err? {
          return Err(newName.error);
        }
        name, nameOffset := newName.value.value, newName.value.next;
      } else {
        var resolved := Resolve(shared.statics, nameIndex.value.value, dynamic);
        if resolved.None? {
          return Err(IndexOutOfRange);
        }
        name := resolved.value.name;
      }
      var value := DecodeStringAt(buf, nameOffset);
      if value.Err? {
        return Err(value.error);
      }
      if indexing == Incremental {
        dynamic.Add(name, value.value.value);
      }
      return Ok(Decoded([Field(name, value.value.value, indexing == Incremental, false)], value.value.next));
    }

    method SetMaxTableSize(maxSize: int)
      requires Valid()
      modifies dynamic
      ensures Valid() && dynamic.State() == Resized(old(dynamic.State()), maxSize)
    {
      dynamic.SetLimit(maxSize);
    }
  }

  // ----- tiling -----

  function EndOf(offset: nat, steps: seq<Step>): nat {
    if steps == [] then offset else steps[|steps| - 1].next
  }

  function TableOf(t: Table, steps: seq<Step>): Table {
    if steps == [] then t else steps[|steps| - 1].table
  }

  function FieldsOf(steps: seq<Step>): seq<Field> {
    if steps == [] then [] else steps[0].fields + FieldsOf(steps[1..])
  }

  /** Every representation starts where the one before it ended, with the table that one left. */
  ghost predicate Chain(c: Shared, buf: Bytes, offset: nat, t: Table, steps: seq<Step>)
    requires Usable(c)
    decreases |steps|
  {
    steps == [] ||
    (offset < |buf| && ReadField(c, buf, offset, t) == Ok(steps[0]) &&
     Chain(c, buf, steps[0].next, steps[0].table, steps[1..]))
  }

  /**
   * What is accepted is tiled exactly by its representations; what is rejected is tiled up to
   * the representation that fails, and the table keeps what came before it.
   */
  lemma {:induction false} DecodeTiles(c: Shared, buf: Bytes, offset: nat, t: Table) returns (steps: seq<Step>)
    requires Usable(c) && offset <= |buf|
    ensures Chain(c, buf, offset, t, steps) && offset + |steps| <= EndOf(offset, steps) <= |buf|
    ensures var o, end, last := DecodeFrom(c, buf, offset, t), EndOf(offset, steps), TableOf(t, steps);
            && o.table == last
            && (o.result.Ok? ==> end == |buf| && o.result.value == FieldsOf(steps))
            && (o.result.Err? ==> end < |buf| && ReadField(c, buf, end, last) == Err(o.result.error))
    decreases |buf| - offset
  {
    steps := [];
    if offset == |buf| {
    } else {
      var r := ReadField(c, buf, offset, t);
      if r.Ok? {
        var rest := DecodeTiles(c, buf, r.value.next, r.value.table);
        steps := [r.value] + rest;
        assert steps[1..] == rest;
      }
    }
  }

  /** An index that is out of range is an error of its own, wherever it stands. */
  lemma IndexErrors(c: Shared, buf: Bytes, index: Decoded<nat>, incremental: bool, t: Table)
    requires Usable(c)
    ensures !(1 <= index.value <= |c.statics| + |t.entries|) ==>
              ReadIndexed(c, Ok(index), t) == Err(IndexOutOfRange) &&
              (index.value != 0 ==> ReadLiteral(c, buf, Ok(index), incremental, t) == Err(IndexOutOfRange))
    ensures 1 <= index.value <= |c.statics| + |t.entries| ==> ReadIndexed(c, Ok(index), t).Ok?
  {
  }
}
