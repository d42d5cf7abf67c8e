/**
 * A decoder of its own for every block (src/hpack/helpers.ts:49-57), against one decoder for a
 * whole session, as section 2.2 of RFC 7541 has it.
 */
module FreshDecoder {
  import opened Bits
  import opened Results
  import opened PrefixInteger
  import opened DynamicTables
  import opened HpackTables
  import opened HeaderFields
  import opened HpackDecoder
  import opened HpackHelpers

  /** The index a representation refers to; 0 if it refers to none. */
  function IndexAt(octets: Bytes, offset: nat): nat
    requires offset < |octets|
  {
    var index := match Classify(octets[offset])
                 case IndexedField => Read(octets, offset, 7)
                 case Incremental => Read(octets, offset, 6)
                 case SizeUpdate => Err(IndexOutOfRange)
                 case _ => Read(octets, offset, 4);
    if index.Ok? then index.value.value else 0
  }

  /** How many of the newest entries a block has inserted itself, after one more representation. */
  function OwnAfter(rep: Representation, own: nat, left: nat): nat {
    var inserted := if rep.Incremental? then own + 1 else own;
    if inserted <= left then inserted else left
  }

  /** No representation refers to an entry of an earlier block; the newest own entries are the block's. */
  predicate StaysInBlock(c: Shared, buf: Bytes, offset: nat, t: Table, own: nat)
    requires Usable(c)
    decreases |buf| - offset
  {
    offset < |buf| ==>
      IndexAt(buf, offset) <= |c.statics| + own &&
      var r := ReadField(c, buf, offset, t);
      r.Ok? ==> StaysInBlock(c, buf, r.value.next, r.value.table,
                             OwnAfter(Classify(buf[offset]), own, |r.value.table.entries|))
  }

  /** What a decoder has that saw only the block. */
  function OwnPart(t: Table, own: nat): Table
    requires own <= |t.entries|
  {
    Table(t.entries[..own], t.limit)
  }

  lemma PrefixesEvict(a: seq<StaticTable.Entry>, own: nat, budget: nat)
    requires own <= |a|
    ensures var kept := Evict(a, budget);
            Evict(a[..own], budget) == kept[..if own <= |kept| then own else |kept|]
  {
    var b, kept := a[..own], Evict(a, budget);
    var n, m := |Evict(b, budget)|, |kept|;
    EvictKeepsLongest(b, budget, n);
    EvictKeepsLongest(a, budget, n);
    assert b[..n] == a[..n];
    var k := if own <= m then own else m;
    EvictKeepsLongest(a, budget, k);
    EvictKeepsLongest(b, budget, k);
    assert b[..k] == a[..k];
  }

  lemma AddedToOwnPart(t: Table, own: nat, e: StaticTable.Entry)
    requires own <= |t.entries|
    ensures var r := Added(t, e);
            Added(OwnPart(t, own), e) == OwnPart(r, OwnAfter(Incremental, own, |r.entries|))
  {
    var all := [e] + t.entries;
    assert all[..own + 1] == [e] + t.entries[..own];
    PrefixesEvict(all, own + 1, Max(t.limit, EntrySize(e)));
  }

  lemma ResizedOwnPart(t: Table, own: nat, limit: nat)
    requires own <= |t.entries|
    ensures var r := Resized(t, limit);
            Resized(OwnPart(t, own), limit) == OwnPart(r, OwnAfter(SizeUpdate, own, |r.entries|))
  {
    PrefixesEvict(t.entries, own, limit);
  }

  /** r is what the session decoder reads, and f what the one that saw only the block reads. */
  ghost predicate ReadsAlike(rep: Representation, r: Stepped, f: Stepped, own: nat) {
    match r
    case Err(e) => f == Err(e)
    case Ok(s) =>
      OwnAfter(rep, own, |s.table.entries|) <= |s.table.entries| &&
      f == Ok(Step(s.fields, s.next, OwnPart(s.table, OwnAfter(rep, own, |s.table.entries|))))
  }

  lemma ResolvesAlike(c: Shared, index: nat, t: Table, own: nat)
    requires own <= |t.entries|
    ensures ResolveIndex(c.statics, index, OwnPart(t, own)) ==
            if index <= |c.statics| + own then ResolveIndex(c.statics, index, t) else None
  {
  }

  lemma IndexedAlike(c: Shared, index: Result<Decoded<nat>, HpackError>, t: Table, own: nat)
    requires own <= |t.entries|
    ensures var f := ReadIndexed(c, index, OwnPart(t, own));
            if index.Ok? && index.value.value > |c.statics| + own then f == Err(IndexOutOfRange)
            else ReadsAlike(IndexedField, ReadIndexed(c, index, t), f, own)
  {
    if index.Ok? {
      ResolvesAlike(c, index.value.value, t, own);
    }
  }

  lemma ValueAlike(name: string, value: Result<Decoded<string>, HpackError>, rep: Representation, t: Table, own: nat)
    requires own <= |t.entries|
    ensures ReadsAlike(rep, WithValue(name, value, rep.Incremental?, t),
                       WithValue(name, value, rep.Incremental?, OwnPart(t, own)), own)
  {
    if rep.Incremental? && value.Ok? {
      AddedToOwnPart(t, own, StaticTable.Entry(name, value.value.value));
    }
  }

  lemma LiteralAlike(c: Shared, rep: Representation, buf: Bytes, index: Result<Decoded<nat>, HpackError>, t: Table,
                     own: nat)
    requires Usable(c) && own <= |t.entries| && !rep.SizeUpdate?
    ensures var f := ReadLiteral(c, buf, index, rep.Incremental?, OwnPart(t, own));
            if index.Ok? && index.value.value > |c.statics| + own then f == Err(IndexOutOfRange)
            else ReadsAlike(rep, ReadLiteral(c, buf, index, rep.Incremental?, t), f, own)
  {
    if index.Ok? {
      ResolvesAlike(c, index.value.value, t, own);
      var name := ReadName(c, buf, index.value, t);
      if name.Ok? {
        ValueAlike(name.value.value, c.read(buf, name.value.next), rep, t, own);
      }
    }
  }

  lemma FieldAlike(c: Shared, buf: Bytes, offset: nat, t: Table, own: nat)
    requires Usable(c) && own <= |t.entries| && offset < |buf|
    ensures var f := ReadField(c, buf, offset, OwnPart(t, own));
            if IndexAt(buf, offset) > |c.statics| + own then f == Err(IndexOutOfRange)
            else ReadsAlike(Classify(buf[offset]), ReadField(c, buf, offset, t), f, own)
  {
    match Classify(buf[offset])
    case IndexedField => IndexedAlike(c, Read(buf, offset, 7), t, own);
    case Incremental => LiteralAlike(c, Incremental, buf, Read(buf, offset, 6), t, own);
    case SizeUpdate =>
      var limit := Read(buf, offset, 5);
      if limit.Ok? {
        ResizedOwnPart(t, own, limit.value.value);
      }
    case NoIndexing => LiteralAlike(c, NoIndexing, buf, Read(buf, offset, 4), t, own);
    case NeverIndexed => LiteralAlike(c, NeverIndexed, buf, Read(buf, offset, 4), t, own);
  }

  /**
   * A decoder that saw only the block reads the same fields or fails in the same way, exactly up
   * to the first representation that refers to an entry of an earlier block, where it gives up.
   */
  lemma {:induction false} FreshReadsExactly(c: Shared, buf: Bytes, offset: nat, t: Table, own: nat)
    requires Usable(c) && own <= |t.entries|
    ensures DecodeFrom(c, buf, offset, OwnPart(t, own)).result ==
            if StaysInBlock(c, buf, offset, t, own) then DecodeFrom(c, buf, offset, t).result else Err(IndexOutOfRange)
    decreases |buf| - offset
  {
    if offset >= |buf| {
    } else {
      FieldAlike(c, buf, offset, t, own);
      var r := ReadField(c, buf, offset, t);
      if r.Ok? && IndexAt(buf, offset) <= |c.statics| + own {
        FreshReadsExactly(c, buf, r.value.next, r.value.table,
                          OwnAfter(Classify(buf[offset]), own, |r.value.table.entries|));
      }
    }
  }

  /**
   * So headers are what one decoder for the whole session would find, unless their block needs the
   * blocks before it.
   */
  lemma HeadersAcrossBlocks(buf: Bytes, t: Table)
    requires t.limit == 4096
    ensures Usable(HPACK)
    ensures HeadersOf(buf) ==
            if !StaysInBlock(HPACK, buf, 0, t, 0) then Err(IndexOutOfRange)
            else match DecodeBlock(HPACK, buf, t).result
                 case Err(e) => Err(e)
                 case Ok(fields) => Ok(FieldMap(fields))
  {
    HpackIsSound();
    assert OwnPart(t, 0) == Table([], DEFAULT_TABLE_SIZE_LIMIT);
    FreshReadsExactly(HPACK, buf, 0, t, 0);
  }

  /** A block of one octet that names the newest entry of an earlier block. */
  lemma NewestIsOutOfReach(t: Table)
    requires t.limit == 4096 && t.entries != []
    ensures Usable(HPACK)
    ensures HeadersOf([0xBE]) == Err(IndexOutOfRange)
    ensures var e := t.entries[0]; DecodeBlock(HPACK, [0xBE], t).result == Ok([Field(e.name, e.value, false, false)])
  {
    HpackIsSound();
    var buf: Bytes := [0xBE];
    StaticTable.StaticLength();
    assert Read(buf, 0, 7) == Ok(Decoded(62, 1));
    assert IndexAt(buf, 0) == 62;
    var field := Field(t.entries[0].name, t.entries[0].value, false, false);
    assert ReadField(HPACK, buf, 0, t) == Ok(Step([field], 1, t));
    assert DecodeFrom(HPACK, buf, 1, t) == Outcome(Ok([]), t);
    assert [field] + [] == [field];
    HeadersAcrossBlocks(buf, t);
  }
}
