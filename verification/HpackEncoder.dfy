/** Header block encoding, section 6 of RFC 7541 (src/hpack/encoder.ts). */
module HpackEncoder {
  import opened Bits
  import opened Results
  import opened PrefixInteger
  import opened StaticTable
  import opened HpackTables
  import opened DynamicTables
  import opened HeaderFields

  datatype EncodedHeader =
    | Indexed(index: nat)
    | LiteralIncremental(nameIndex: nat, name: Option<string>, value: string)
    | LiteralNeverIndexed(nameIndex: nat, name: Option<string>, value: string)
    | LiteralNoIndexing(nameIndex: nat, name: Option<string>, value: string)

  // ----- the static table searches -----

  function ExactFrom(statics: seq<Entry>, name: string, value: string, i: nat): (r: Option<nat>)
    requires i <= |statics|
    ensures r.Some? ==> i < r.value <= |statics| && statics[r.value - 1] == Entry(name, value)
    decreases |statics| - i
  {
    if i == |statics| then None
    else if statics[i] == Entry(name, value) then Some(i + 1)
    else ExactFrom(statics, name, value, i + 1)
  }

  function NameFrom(statics: seq<Entry>, name: string, i: nat): (r: Option<nat>)
    requires i <= |statics|
    ensures r.Some? ==> i < r.value <= |statics| && statics[r.value - 1].name == name
    decreases |statics| - i
  {
    if i == |statics| then None
    else if statics[i].name == name then Some(i + 1)
    else NameFrom(statics, name, i + 1)
  }

  function StaticExact(statics: seq<Entry>, name: string, value: string): (r: Option<nat>)
    ensures r.Some? ==> 1 <= r.value <= |statics| && statics[r.value - 1] == Entry(name, value)
  {
    ExactFrom(statics, name, value, 0)
  }

  function StaticName(statics: seq<Entry>, name: string): (r: Option<nat>)
    ensures r.Some? ==> 1 <= r.value <= |statics| && statics[r.value - 1].name == name
  {
    NameFrom(statics, name, 0)
  }

  /** The searches find the first match if there is one. */
  lemma {:induction false} SearchesFindFirst(statics: seq<Entry>, name: string, value: string, i: nat, k: nat)
    requires i <= k < |statics|
    ensures statics[k] == Entry(name, value) ==>
            ExactFrom(statics, name, value, i).Some? && ExactFrom(statics, name, value, i).value <= k + 1
    ensures statics[k].name == name ==> NameFrom(statics, name, i).Some? && NameFrom(statics, name, i).value <= k + 1
    decreases |statics| - i
  {
    if i == k {
      assert statics[k].name == name ==> NameFrom(statics, name, i) == Some(k + 1);
    } else {
      SearchesFindFirst(statics, name, value, i + 1, k);
    }
  }

  method FindStaticExactIndex(statics: seq<Entry>, name: string, value: string) returns (r: Option<nat>)
    ensures r == StaticExact(statics, name, value)
  {
    var index := 1;
    for i := 0 to |statics|
      invariant index == i + 1
      invariant StaticExact(statics, name, value) == ExactFrom(statics, name, value, i)
    {
      if statics[i].name == name && statics[i].value == value {
        return Some(index);
      }
      index := index + 1;
    }
    return None;
  }

  method FindStaticNameIndex(statics: seq<Entry>, name: string) returns (r: Option<nat>)
    ensures r == StaticName(statics, name)
  {
    var index := 1;
    for i := 0 to |statics|
      invariant index == i + 1
      invariant StaticName(statics, name) == NameFrom(statics, name, i)
    {
      if statics[i].name == name {
        return Some(index);
      }
      index := index + 1;
    }
    return None;
  }

  // ----- what is emitted -----

  function IndexOr0(index: Option<nat>): nat {
    if index.Some? then index.value else 0
  }

  function Plan(c: Shared, field: Field): EncodedHeader {
    var name, value := LowerCase(field.name), field.value;
    var nameIndex := StaticName(c.statics, name);
    var newName := if nameIndex.None? then Some(name) else None;
    if field.sensitive then LiteralNeverIndexed(IndexOr0(nameIndex), newName, value)
    else if StaticExact(c.statics, name, value).Some? then Indexed(StaticExact(c.statics, name, value).value)
    else if field.indexing then LiteralIncremental(IndexOr0(nameIndex), newName, value)
    else LiteralNoIndexing(IndexOr0(nameIndex), newName, value)
  }

  function Append(a: Encoding, b: Encoding): Encoding {
    if a.Err? then a else if b.Err? then b else Ok(a.value + b.value)
  }

  /** An integer behind the flag bits of its representation. */
  function FlaggedInteger(flag: byte, value: nat, n: nat): Bytes
    requires 1 <= n <= 8 && flag + MaxPrefix(n) < 256
  {
    Flagged(flag, Octets(value, n))
  }

  function NameOctets(c: Shared, nameIndex: nat, name: Option<string>, useHuffman: bool): Encoding
  {
    if nameIndex == 0 && name.Some? then c.write(name.value, useHuffman) else Ok([])
  }

  function LiteralOctets(c: Shared, flag: byte, n: nat, nameIndex: nat, name: Option<string>, value: string,
                         useHuffman: bool): Encoding
    requires 1 <= n <= 8 && flag + MaxPrefix(n) < 256
  {
    Append(Append(Ok(FlaggedInteger(flag, nameIndex, n)), NameOctets(c, nameIndex, name, useHuffman)),
           c.write(value, useHuffman))
  }

  function HeaderOctets(c: Shared, h: EncodedHeader, useHuffman: bool): Encoding
  {
    match h
    case Indexed(index) => Ok(FlaggedInteger(0x80, index, 7))
    case LiteralIncremental(i, name, value) => LiteralOctets(c, 0x40, 6, i, name, value, useHuffman)
    case LiteralNeverIndexed(i, name, value) => LiteralOctets(c, 0x10, 4, i, name, value, useHuffman)
    case LiteralNoIndexing(i, name, value) => LiteralOctets(c, 0, 4, i, name, value, useHuffman)
  }

  function FieldOctets(c: Shared, field: Field, useHuffman: bool): Encoding
  {
    HeaderOctets(c, Plan(c, field), useHuffman)
  }

  function FieldsFrom(c: Shared, headers: seq<Field>, i: nat, useHuffman: bool): Encoding
    requires i <= |headers|
    decreases |headers| - i
  {
    if i == |headers| then Ok([])
    else Append(FieldOctets(c, headers[i], useHuffman), FieldsFrom(c, headers, i + 1, useHuffman))
  }

  /** A size update that waits goes in front of the block. */
  function UpdateOctets(update: Option<int>): Encoding {
    match update
    case None => Ok([])
    case Some(limit) => if limit < 0 then Err(NegativeInteger) else Ok(FlaggedInteger(0x20, limit, 5))
  }

  function BlockOctets(c: Shared, update: Option<int>, headers: seq<Field>, useHuffman: bool): Encoding
  {
    Append(UpdateOctets(update), FieldsFrom(c, headers, 0, useHuffman))
  }

  // ----- the encoder -----

  method EmitFlagged(flag: byte, value: int, n: nat) returns (r: Encoding)
    requires 1 <= n <= 8 && flag + MaxPrefix(n) < 256
    ensures r == if value < 0 then Err(NegativeInteger) else Ok(FlaggedInteger(flag, value, n))
  {
    var octets := EncodeInteger(value, n);
    if octets.Err? {
      return octets;
    }
    return Ok(Flagged(flag, octets.value));
  }

  lemma AppendAssociates(a: Bytes, b: Bytes, c: Encoding)
    ensures Append(Ok(a), Append(Ok(b), c)) == Append(Ok(a + b), c)
  {
    if c.Ok? {
      assert a + (b + c.value) == a + b + c.value;
    }
  }

  lemma AppendField(c: Shared, octets: Bytes, headers: seq<Field>, i: nat, useHuffman: bool, encoded: Encoding)
    requires i < |headers| && encoded == FieldOctets(c, headers[i], useHuffman)
    ensures Append(Ok(octets), FieldsFrom(c, headers, i, useHuffman)) ==
            if encoded.Err? then encoded
            else Append(Ok(octets + encoded.value), FieldsFrom(c, headers, i + 1, useHuffman))
  {
    if encoded.Ok? {
      AppendAssociates(octets, encoded.value, FieldsFrom(c, headers, i + 1, useHuffman));
    }
  }

  class HpackEncoder {
    const shared: Shared
    var nextSizeUpdate: Option<int>
    const maxTableSize: int
    const useHuffman: bool

    ghost predicate Valid() {
      shared == HPACK
    }

    constructor (maxTableSize: int, useHuffman: bool)
      ensures Valid() && shared == HPACK
      ensures this.maxTableSize == maxTableSize && this.useHuffman == useHuffman
      ensures nextSizeUpdate == if maxTableSize != 4096 then Some(maxTableSize) else None
    {
      shared := HPACK;
      this.maxTableSize, this.useHuffman := maxTableSize, useHuffman;
      nextSizeUpdate := None;
      if maxTableSize != DEFAULT_TABLE_SIZE_LIMIT {
        nextSizeUpdate := Some(maxTableSize);
      }
    }

    /** The size update goes out once, even when a field after it cannot be encoded. */
    method Encode(headers: seq<Field>) returns (r: Encoding)
      requires Valid()
      modifies this
      ensures r == BlockOctets(shared, old(nextSizeUpdate), headers, useHuffman)
      ensures nextSizeUpdate == if UpdateOctets(old(nextSizeUpdate)).Ok? then None else old(nextSizeUpdate)
    {
      var octets: Bytes := [];
      if nextSizeUpdate.Some? {
        var update := EmitFlagged(0x20, nextSizeUpdate.value, 5);
        if update.Err? {
          return update;
        }
        octets := update.value;
        nextSizeUpdate := None;
      }
      r := EncodeFields(octets, headers);
    }

    /** The representations of the fields, behind what is already there. */
    method EncodeFields(prefix: Bytes, headers: seq<Field>) returns (r: Encoding)
      requires Valid()
      ensures r == Append(Ok(prefix), FieldsFrom(shared, headers, 0, useHuffman))
    {
      var octets := prefix;
      for i := 0 to |headers|
        invariant Append(Ok(prefix), FieldsFrom(shared, headers, 0, useHuffman)) ==
                  Append(Ok(octets), FieldsFrom(shared, headers, i, useHuffman))
      {
        var encoded := EncodeField(headers[i]);
        AppendField(shared, octets, headers, i, useHuffman, encoded);
        if encoded.Err? {
          return encoded;
        }
        octets := octets + encoded.value;
      }
      assert octets + [] == octets;
      return Ok(octets);
    }

    method SetMaxTableSize(maxSize: int)
      modifies this
      ensures nextSizeUpdate == Some(maxSize)
    {
      nextSizeUpdate := Some(maxSize);
    }

    method EncodeField(field: Field) returns (r: Encoding)
      requires Valid()
      ensures r == FieldOctets(shared, field, useHuffman)
    {
      var plan := PlanHeader(field);
      r := EmitHeader(plan);
    }

    method PlanHeader(field: Field) returns (h: EncodedHeader)
      ensures h == Plan(shared, field)
    {
      var name, value := LowerCase(field.name), field.value;
      if field.sensitive {
        var nameIndex := FindStaticNameIndex(shared.statics, name);
        return LiteralNeverIndexed(IndexOr0(nameIndex), if nameIndex.None? then Some(name) else None, value);
      }
      var exact := FindStaticExactIndex(shared.statics, name, value);
      if exact.Some? {
        return Indexed(exact.value);
      }
      var nameIndex := FindStaticNameIndex(shared.statics, name);
      var resolvedName := if nameIndex.None? then Some(name) else None;
      if field.indexing {
        return LiteralIncremental(IndexOr0(nameIndex), resolvedName, value);
      }
      return LiteralNoIndexing(IndexOr0(nameIndex), resolvedName, value);
    }

    method EmitHeader(h: EncodedHeader) returns (r: Encoding)
      requires Valid()
      ensures r == HeaderOctets(shared, h, useHuffman)
    {
      match h {
        case Indexed(index) => r := EmitFlagged(0x80, index, 7);
        case LiteralIncremental(i, name, value) => r := EmitLiteral(0x40, 6, i, name, value);
        case LiteralNeverIndexed(i, name, value) => r := EmitLiteral(0x10, 4, i, name, value);
        case LiteralNoIndexing(i, name, value) => r := EmitLiteral(0, 4, i, name, value);
      }
    }

    method EmitLiteral(flag: byte, n: nat, nameIndex: nat, name: Option<string>, value: string) returns (r: Encoding)
      requires Valid() && 1 <= n <= 8 && flag + MaxPrefix(n) < 256
      ensures r == LiteralOctets(shared, flag, n, nameIndex, name, value, useHuffman)
    {
      var indexOctets := EmitFlagged(flag, nameIndex, n);
      var nameOctets: Encoding := Ok([]);
      if nameIndex == 0 && name.Some? {
        nameOctets := EncodeString(name.value, useHuffman);
      }
      if nameOctets.Err? {
        return nameOctets;
      }
      var valueOctets := EncodeString(value, useHuffman);
      if valueOctets.Err? {
        return valueOctets;
      }
      return Ok(indexOctets.value + nameOctets.value + valueOctets.value);
    }
  }
}
