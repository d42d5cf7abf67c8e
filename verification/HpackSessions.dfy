/**
 * Sessions of any calls on one encoder, told by the strings of their fields: which calls make a
 * block, what one decoder reads of it, and which limits reach that decoder.
 */
module HpackSessions {
  import opened Bits
  import opened Results
  import opened PrefixInteger
  import opened StaticTable
  import opened HpackTables
  import opened DynamicTables
  import opened HpackStrings
  import opened HeaderFields
  import opened HpackEncoder
  import opened HpackDecoder
  import opened HpackRoundTrip

  // ----- which fields can be written -----

  /** Every string that has to be written is Latin-1; a name or value found in the static table need not be written. */
  predicate Writable(f: Field) {
    WritesValue(HPACK, f) ==> IsLatin1(f.value) && (WritesName(HPACK, f) ==> IsLatin1(LowerCase(f.name)))
  }

  /** A literal can be written exactly if the strings in it can. */
  lemma NameOrValue(h: EncodedHeader, useHuffman: bool)
    requires !h.Indexed?
    ensures HeaderOctets(HPACK, h, useHuffman).Ok? <==>
            IsLatin1(h.value) && (h.nameIndex == 0 && h.name.Some? ==> IsLatin1(h.name.value))
  {
    assert HPACK.write(h.value, useHuffman) == WriteString(h.value, useHuffman);
    assert h.name.Some? ==> HPACK.write(h.name.value, useHuffman) == WriteString(h.name.value, useHuffman);
  }

  lemma FieldEncodesExactly(f: Field, useHuffman: bool)
    ensures FieldOctets(HPACK, f, useHuffman).Ok? <==> Writable(f)
  {
    var h := Plan(HPACK, f);
    PlanFits(HPACK, f);
    assert forall s: string :: HPACK.write(s, useHuffman) == WriteString(s, useHuffman);
    if !h.Indexed? {
      NameOrValue(h, useHuffman);
    }
  }

  predicate WritableFrom(headers: seq<Field>, i: nat) {
    forall k :: i <= k < |headers| ==> Writable(headers[k])
  }

  predicate AllWritable(headers: seq<Field>) {
    WritableFrom(headers, 0)
  }

  lemma WritableNext(headers: seq<Field>, i: nat)
    requires i < |headers|
    ensures WritableFrom(headers, i) <==> Writable(headers[i]) && WritableFrom(headers, i + 1)
  {
  }

  /** A block can be encoded exactly if all its fields are writable, with Huffman coding or without. */
  lemma {:induction false} FieldsEncodeExactly(headers: seq<Field>, i: nat, useHuffman: bool)
    requires i <= |headers|
    ensures FieldsFrom(HPACK, headers, i, useHuffman).Ok? <==> WritableFrom(headers, i)
    decreases |headers| - i
  {
    if i == |headers| {
      assert FieldsFrom(HPACK, headers, i, useHuffman) == Ok([]);
    } else {
      FieldEncodesExactly(headers[i], useHuffman);
      FieldsEncodeExactly(headers, i + 1, useHuffman);
      WritableNext(headers, i);
    }
  }

  // ----- which calls make a block -----

  /** No block can be encoded while this update waits. */
  predicate IsStuck(update: Option<int>) {
    update.Some? && update.value < 0
  }

  function NextUpdate(update: Option<int>, call: Call): Option<int> {
    match call
    case SetMaxTableSize(limit) => Some(limit)
    case Encode(_) => if IsStuck(update) then update else None
  }

  /** The block that one call makes, if any. */
  function BlockBy(update: Option<int>, call: Call): seq<Block> {
    match call
    case SetMaxTableSize(_) => []
    case Encode(headers) => if !IsStuck(update) && AllWritable(headers) then [Block(update, headers)] else []
  }

  /** The blocks that the calls make: those with writable fields, unless a negative size update waits. */
  function MadeBlocks(update: Option<int>, calls: seq<Call>): seq<Block>
    decreases |calls|
  {
    if calls == [] then [] else BlockBy(update, calls[0]) + MadeBlocks(NextUpdate(update, calls[0]), calls[1..])
  }

  /** The encoder makes exactly these, with Huffman coding or without. */
  lemma {:induction false} BlocksExactly(update: Option<int>, calls: seq<Call>, useHuffman: bool)
    ensures Usable(HPACK) && Blocks(HPACK, update, calls, useHuffman) == MadeBlocks(update, calls)
    decreases |calls|
  {
    HpackIsSound();
    if calls == [] {
      assert Blocks(HPACK, update, calls, useHuffman) == [];
    } else {
      if calls[0].Encode? {
        FieldsEncodeExactly(calls[0].headers, 0, useHuffman);
      }
      assert calls[0].Encode? && !IsStuck(update) ==> UpdateOctets(update).Ok?;
      BlocksExactly(NextUpdate(update, calls[0]), calls[1..], useHuffman);
    }
  }

  /**
   * For any calls on one encoder, one decoder reads every block they make back to its fields
   * exactly when all strings written survive their encoding; and then its table is what the
   * emitted size updates and the insertions make of it, so a recent stretch of all insertions.
   */
  lemma SessionRoundTrip(calls: seq<Call>, maxTableSize: int, useHuffman: bool, limit: int)
    ensures Sound(HPACK)
    ensures var update := if maxTableSize != 4096 then Some(maxTableSize) else None;
            var blocks := Blocks(HPACK, update, calls, useHuffman);
            var last := Run(Table([], limit), AllOps(HPACK, blocks));
            && blocks == MadeBlocks(update, calls)
            && SessionReads(DecodeAll(HPACK, blocks, useHuffman, Table([], limit)), AllReceived(HPACK, blocks), last,
                            AllCarried(HPACK, blocks, useHuffman))
            && last.entries <= History(AllOps(HPACK, blocks))
  {
    HpackIsSound();
    var update := if maxTableSize != 4096 then Some(maxTableSize) else None;
    var blocks := Blocks(HPACK, update, calls, useHuffman);
    BlocksExactly(update, calls, useHuffman);
    BlocksRoundTrip(HPACK, blocks, useHuffman, Table([], limit));
    TableIsRecentHistory(limit, AllOps(HPACK, blocks));
  }

  // ----- the fate of a size update -----

  /** The update that waits after the calls. */
  function WaitingUpdate(update: Option<int>, calls: seq<Call>): Option<int>
    decreases |calls|
  {
    if calls == [] then update else WaitingUpdate(NextUpdate(update, calls[0]), calls[1..])
  }

  lemma SameFront(first: seq<Block>, a: seq<Block>, b: seq<Block>, c: seq<Block>)
    requires a == b + c
    ensures first + a == first + b + c
  {
  }

  lemma {:induction false} MadeInTwo(update: Option<int>, a: seq<Call>, b: seq<Call>)
    ensures MadeBlocks(update, a + b) == MadeBlocks(update, a) + MadeBlocks(WaitingUpdate(update, a), b)
    decreases |a|
  {
    if a == [] {
      assert a + b == b;
    } else {
      var next, rest := NextUpdate(update, a[0]), a[1..];
      assert (a + b)[1..] == rest + b;
      MadeInTwo(next, rest, b);
      SameFront(BlockBy(update, a[0]), MadeBlocks(next, rest + b), MadeBlocks(next, rest),
                MadeBlocks(WaitingUpdate(next, rest), b));
    }
  }

  /** Without further calls to change it, no update comes any more. */
  lemma {:induction false} NoMoreUpdates(calls: seq<Call>)
    requires forall k :: 0 <= k < |calls| ==> calls[k].Encode?
    ensures forall k :: 0 <= k < |MadeBlocks(None, calls)| ==> MadeBlocks(None, calls)[k].update.None?
    decreases |calls|
  {
    if calls == [] {
      assert MadeBlocks(None, calls) == [];
    } else {
      assert calls[0].Encode?;
      NoMoreUpdates(calls[1..]);
    }
  }

  /** The last size update of the blocks, if any. */
  function LimitAfter(blocks: seq<Block>, limit: int): int
    decreases |blocks|
  {
    if blocks == [] then limit
    else LimitAfter(blocks[1..], if blocks[0].update.Some? then blocks[0].update.value else limit)
  }

  lemma {:induction false} LimitInTwo(a: seq<Block>, b: seq<Block>, limit: int)
    ensures LimitAfter(a + b, limit) == LimitAfter(b, LimitAfter(a, limit))
    decreases |a|
  {
    if a == [] {
      assert a + b == b;
    } else {
      assert (a + b)[1..] == a[1..] + b;
      LimitInTwo(a[1..], b, if a[0].update.Some? then a[0].update.value else limit);
    }
  }

  lemma {:induction false} LimitUnchanged(blocks: seq<Block>, limit: int)
    requires forall k :: 0 <= k < |blocks| ==> blocks[k].update.None?
    ensures LimitAfter(blocks, limit) == limit
    decreases |blocks|
  {
    if blocks == [] {
      assert LimitAfter(blocks, limit) == limit;
    } else {
      assert blocks[0].update.None?;
      LimitUnchanged(blocks[1..], limit);
    }
  }

  /** Even of a corrupted block the decoder takes the size update, and nothing else that looks like one. */
  lemma BlockLimit(c: Shared, b: Block, useHuffman: bool, t: Table)
    requires Sound(c) && BlockOctets(c, b.update, b.headers, useHuffman).Ok?
    ensures DecodeBlock(c, BlockOctets(c, b.update, b.headers, useHuffman).value, t).table.limit ==
            if b.update.Some? then b.update.value else t.limit
  {
    var buf := BlockOctets(c, b.update, b.headers, useHuffman).value;
    var fields := FieldsFrom(c, b.headers, 0, useHuffman).value;
    if b.update.Some? {
      var first := FlaggedInteger(0x20, b.update.value, 5);
      assert buf == first + fields && Ends(buf, |first|, fields);
      DecodeUpdate(c, b.update.value, fields, t);
      FieldsKeepLimit(c, b.headers, useHuffman, buf, |first|, Resized(t, b.update.value));
    } else {
      assert buf == fields && Ends(buf, 0, fields);
      FieldsKeepLimit(c, b.headers, useHuffman, buf, 0, t);
    }
  }

  lemma {:induction false} LimitOfBlocks(c: Shared, blocks: seq<Block>, useHuffman: bool, t: Table)
    requires Sound(c)
    requires forall k :: 0 <= k < |blocks| ==> BlockOctets(c, blocks[k].update, blocks[k].headers, useHuffman).Ok?
    ensures DecodeAll(c, blocks, useHuffman, t).1.limit == LimitAfter(blocks, t.limit)
    decreases |blocks|
  {
    if blocks == [] {
      assert LimitAfter(blocks, t.limit) == t.limit;
    } else {
      var b := blocks[0];
      BlockLimit(c, b, useHuffman, t);
      var o := DecodeBlock(c, BlockOctets(c, b.update, b.headers, useHuffman).value, t);
      LimitOfBlocks(c, blocks[1..], useHuffman, o.table);
    }
  }

  /**
   * The block that a waiting update starts takes it along exactly if its fields are writable; if
   * they are not, no later block does. A negative one is in the way of every block.
   */
  lemma UpdateAndNextBlock(limit: int, headers: seq<Field>, rest: seq<Call>, useHuffman: bool)
    ensures Usable(HPACK)
    ensures Blocks(HPACK, Some(limit), [Encode(headers)] + rest, useHuffman) ==
            if limit < 0 then MadeBlocks(Some(limit), rest)
            else (if AllWritable(headers) then [Block(Some(limit), headers)] else []) + MadeBlocks(None, rest)
  {
    HpackIsSound();
    BlocksExactly(Some(limit), [Encode(headers)] + rest, useHuffman);
    assert ([Encode(headers)] + rest)[1..] == rest;
  }

  lemma LastBlocks(update: Option<int>, limit: nat, headers: seq<Field>, rest: seq<Call>)
    ensures MadeBlocks(update, [SetMaxTableSize(limit), Encode(headers)] + rest) ==
            (if AllWritable(headers) then [Block(Some(limit), headers)] else []) + MadeBlocks(None, rest)
  {
    var calls := [SetMaxTableSize(limit), Encode(headers)] + rest;
    assert calls[1..] == [Encode(headers)] + rest && calls[1..][1..] == rest;
  }

  /** What the last limit set does to the limit in force before it. */
  lemma LateLimit(update: Option<int>, before: seq<Call>, limit: nat, headers: seq<Field>, rest: seq<Call>, had: int)
    requires forall k :: 0 <= k < |rest| ==> rest[k].Encode?
    ensures LimitAfter(MadeBlocks(update, before + ([SetMaxTableSize(limit), Encode(headers)] + rest)), had) ==
            if AllWritable(headers) then limit else LimitAfter(MadeBlocks(update, before), had)
  {
    var last, tail := [SetMaxTableSize(limit), Encode(headers)] + rest, MadeBlocks(None, rest);
    var early := MadeBlocks(update, before);
    MadeInTwo(update, before, last);
    LastBlocks(WaitingUpdate(update, before), limit, headers, rest);
    LimitInTwo(early, MadeBlocks(WaitingUpdate(update, before), last), had);
    NoMoreUpdates(rest);
    LimitInTwo(if AllWritable(headers) then [Block(Some(limit), headers)] else [], tail, LimitAfter(early, had));
    LimitUnchanged(tail, limit);
    LimitUnchanged(tail, LimitAfter(early, had));
  }

  /**
   * In a whole session, the last limit set on the encoder becomes the limit of the decoder exactly if the
   * fields of the first block after it are writable; otherwise the decoder stays with the limit it had.
   * Strings that get corrupted on the way make no difference.
   */
  lemma LastLimitReachesExactly(update: Option<int>, before: seq<Call>, limit: nat, headers: seq<Field>,
                                rest: seq<Call>, useHuffman: bool, t: Table)
    requires forall k :: 0 <= k < |rest| ==> rest[k].Encode?
    ensures Usable(HPACK)
    ensures var calls := before + ([SetMaxTableSize(limit), Encode(headers)] + rest);
            DecodeAll(HPACK, Blocks(HPACK, update, calls, useHuffman), useHuffman, t).1.limit ==
            if AllWritable(headers) then limit
            else DecodeAll(HPACK, Blocks(HPACK, update, before, useHuffman), useHuffman, t).1.limit
  {
    HpackIsSound();
    var calls := before + ([SetMaxTableSize(limit), Encode(headers)] + rest);
    BlocksExactly(update, calls, useHuffman);
    BlocksExactly(update, before, useHuffman);
    LimitOfBlocks(HPACK, Blocks(HPACK, update, calls, useHuffman), useHuffman, t);
    LimitOfBlocks(HPACK, Blocks(HPACK, update, before, useHuffman), useHuffman, t);
    LateLimit(update, before, limit, headers, rest, t.limit);
  }

  /** A value outside Latin-1 is enough to lose an update. */
  lemma EuroLosesTheUpdate(limit: nat, rest: seq<Call>)
    ensures var f := Field("price", "\U{20AC}5", false, true);
            MadeBlocks(Some(limit), [Encode([f])] + rest) == MadeBlocks(None, rest)
  {
    var f := Field("price", "\U{20AC}5", false, true);
    assert f.value[0] as int == 0x20ac && !IsLatin1(f.value);
    assert !Writable([f][0]);
    assert ([Encode([f])] + rest)[1..] == rest;
  }
}
