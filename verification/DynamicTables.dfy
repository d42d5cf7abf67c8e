/** The evicting header table, sections 2.3 and 4 of RFC 7541 (src/hpack/dynamic-table.ts). */
module DynamicTables {
  import opened Results
  import opened StaticTable

  const TABLE_ENTRY_OVERHEAD: nat := 32
  const DEFAULT_TABLE_SIZE_LIMIT: nat := 4096

  function EntrySize(e: Entry): nat {
    |e.name| + |e.value| + TABLE_ENTRY_OVERHEAD
  }

  function Size(entries: seq<Entry>): nat {
    if entries == [] then 0 else Size(entries[..|entries| - 1]) + EntrySize(entries[|entries| - 1])
  }

  /** Drops the oldest entries, at the back, until the rest fit the budget. */
  function Evict(entries: seq<Entry>, budget: int): (kept: seq<Entry>)
    ensures kept <= entries
  {
    if Size(entries) > budget && entries != [] then Evict(entries[..|entries| - 1], budget) else entries
  }

  /** The state of a dynamic table: newest entry first. */
  datatype Table = Table(entries: seq<Entry>, limit: int)

  function Max(a: int, b: int): int {
    if a >= b then a else b
  }

  function Added(t: Table, e: Entry): Table {
    Table(Evict([e] + t.entries, Max(t.limit, EntrySize(e))), t.limit)
  }

  function Resized(t: Table, limit: int): Table {
    Table(Evict(t.entries, limit), limit)
  }

  /** The static entries have the first indices; after those the dynamic table follows, the newest entry first. */
  function ResolveIndex(statics: seq<Entry>, index: int, t: Table): (r: Option<Entry>)
    ensures r.Some? <==> 1 <= index <= |statics| + |t.entries|
    ensures 1 <= index <= |statics| ==> r == Some(statics[index - 1])
  {
    if index <= 0 then None
    else if index <= |statics| then Some(statics[index - 1])
    else if index - |statics| <= |t.entries| then Some(t.entries[index - |statics| - 1])
    else None
  }

  lemma {:induction false} SizeOfFront(e: Entry, entries: seq<Entry>)
    ensures Size([e] + entries) == EntrySize(e) + Size(entries)
  {
    var all := [e] + entries;
    if entries == [] {
      assert all[..0] == [];
    } else {
      assert all[..|all| - 1] == [e] + entries[..|entries| - 1];
      SizeOfFront(e, entries[..|entries| - 1]);
    }
  }

  class DynamicTable {
    var entries: seq<Entry>
    var currentSize: nat
    var maxSize: int

    ghost predicate Valid()
      reads this
    {
      currentSize == Size(entries)
    }

    ghost function State(): Table
      reads this
    {
      Table(entries, maxSize)
    }

    constructor (limit: int)
      ensures Valid() && State() == Table([], limit)
    {
      entries, currentSize, maxSize := [], 0, limit;
    }

    /** The entry at a position counted from 1, the newest first. */
    function Get(index: int): (r: Option<Entry>)
      reads this
      ensures r == ResolveIndex([], index, State())
    {
      if 0 <= index - 1 < |entries| then Some(entries[index - 1]) else None
    }

    method Add(name: string, value: string)
      requires Valid()
      modifies this
      ensures Valid() && State() == Added(old(State()), Entry(name, value))
    {
      var e := Entry(name, value);
      var entrySize := |name| + |value| + TABLE_ENTRY_OVERHEAD;
      SizeOfFront(e, entries);
      entries := [e] + entries;
      currentSize := currentSize + entrySize;
      EvictToFit(if maxSize >= entrySize then maxSize else entrySize);
    }

    method SetLimit(newLimit: int)
      requires Valid()
      modifies this
      ensures Valid() && State() == Resized(old(State()), newLimit)
    {
      maxSize := newLimit;
      EvictToFit(newLimit);
    }

    method EvictToFit(budget: int)
      requires Valid()
      modifies this
      ensures Valid() && State() == old(Table(Evict(entries, budget), maxSize))
    {
      while currentSize > budget && |entries| > 0
        invariant Valid() && maxSize == old(maxSize)
        invariant Evict(entries, budget) == Evict(old(entries), budget)
        decreases |entries|
      {
        var removed := entries[|entries| - 1];
        entries := entries[..|entries| - 1];
        currentSize := currentSize - (|removed.name| + |removed.value| + TABLE_ENTRY_OVERHEAD);
      }
    }
  }

  method Resolve(statics: seq<Entry>, index: int, dynamic: DynamicTable) returns (r: Option<Entry>)
    ensures r == ResolveIndex(statics, index, dynamic.State())
  {
    if index <= 0 {
      return None;
    }
    if index <= |statics| {
      return Some(statics[index - 1]);
    }
    var dynamicIndex := index - |statics| - 1;
    return dynamic.Get(dynamicIndex + 1);
  }

  function Letters(entries: seq<Entry>): nat {
    if entries == [] then 0
    else
      var e := entries[|entries| - 1];
      Letters(entries[..|entries| - 1]) + |e.name| + |e.value|
  }

  /** Section 4.1 of RFC 7541: an entry counts its letters and 32 more. */
  lemma {:induction false} SizeInNumbers(entries: seq<Entry>)
    ensures Size(entries) == Letters(entries) + 32 * |entries|
  {
    if entries == [] {
    } else {
      SizeInNumbers(entries[..|entries| - 1]);
    }
  }

  // ----- what eviction keeps -----

  lemma {:induction false} SizeOfPrefix(entries: seq<Entry>, k: nat)
    requires k <= |entries|
    ensures Size(entries[..k]) + TABLE_ENTRY_OVERHEAD * (|entries| - k) <= Size(entries)
    decreases |entries|
  {
    if k == |entries| {
      assert entries[..k] == entries;
    } else {
      var front := entries[..|entries| - 1];
      SizeOfPrefix(front, k);
      assert front[..k] == entries[..k];
    }
  }

  /** Eviction keeps the longest prefix that fits. */
  lemma {:induction false} EvictKeepsLongest(entries: seq<Entry>, budget: int, k: nat)
    requires budget >= 0 && k <= |entries|
    ensures Size(entries[..k]) <= budget <==> k <= |Evict(entries, budget)|
    decreases |entries|
  {
    if Size(entries) > budget && entries != [] {
      if k == |entries| {
        assert entries[..k] == entries;
      } else {
        var front := entries[..|entries| - 1];
        assert front[..k] == entries[..k];
        EvictKeepsLongest(front, budget, k);
      }
    } else {
      SizeOfPrefix(entries, k);
    }
  }

  lemma {:induction false} EvictFits(entries: seq<Entry>, budget: int)
    ensures Size(Evict(entries, budget)) <= budget || Evict(entries, budget) == []
    decreases |entries|
  {
    if Size(entries) <= budget || entries == [] {
      assert Evict(entries, budget) == entries;
    } else {
      EvictFits(entries[..|entries| - 1], budget);
    }
  }

  /** The newest entry is never evicted by its own insertion, and fills the table alone when it is too big for it. */
  lemma AddKeepsNewest(t: Table, e: Entry)
    ensures Added(t, e).entries != [] && Added(t, e).entries[0] == e
    ensures EntrySize(e) > t.limit ==> Added(t, e).entries == [e]
    ensures EntrySize(e) <= t.limit ==> Size(Added(t, e).entries) <= t.limit
  {
    var all := [e] + t.entries;
    var budget := Max(t.limit, EntrySize(e));
    assert all[..1] == [e] && [e][..0] == [];
    assert Size([e]) == EntrySize(e) by { SizeOfFront(e, []); assert [e] + [] == [e]; }
    EvictKeepsLongest(all, budget, 1);
    EvictFits(all, budget);
    if EntrySize(e) > t.limit && |all| > 1 {
      assert all[..2][..1] == [e];
      SizeOfPrefix(all[..2], 1);
      EvictKeepsLongest(all, budget, 2);
    }
  }

  /** Section 4.4 of RFC 7541: room is made first, and an entry too big for the table empties it. */
  function AddedByRfc(t: Table, e: Entry): Table {
    if EntrySize(e) > t.limit then Table([], t.limit)
    else Table([e] + Evict(t.entries, t.limit - EntrySize(e)), t.limit)
  }

  lemma {:induction false} EvictBehindFront(e: Entry, entries: seq<Entry>, budget: int)
    requires EntrySize(e) <= budget
    ensures Evict([e] + entries, budget) == [e] + Evict(entries, budget - EntrySize(e))
    decreases |entries|
  {
    SizeOfFront(e, entries);
    if Size(entries) <= budget - EntrySize(e) || entries == [] {
      assert Evict(entries, budget - EntrySize(e)) == entries;
    } else {
      var all := [e] + entries;
      assert all[..|all| - 1] == [e] + entries[..|entries| - 1];
      EvictBehindFront(e, entries[..|entries| - 1], budget);
    }
  }

  /** Insertion follows the standard exactly when the entry fits the table. */
  lemma AddFollowsRfcExactly(t: Table, e: Entry)
    ensures Added(t, e) == AddedByRfc(t, e) <==> EntrySize(e) <= t.limit
  {
    AddKeepsNewest(t, e);
    if EntrySize(e) <= t.limit {
      EvictBehindFront(e, t.entries, t.limit);
    }
  }

  // ----- whole histories -----

  datatype TableOp = Insert(entry: Entry) | Resize(limit: int)

  function Apply(t: Table, op: TableOp): Table {
    match op
    case Insert(e) => Added(t, e)
    case Resize(limit) => Resized(t, limit)
  }

  function Run(t: Table, ops: seq<TableOp>): Table {
    if ops == [] then t else Apply(Run(t, ops[..|ops| - 1]), ops[|ops| - 1])
  }

  /** Everything ever inserted, newest first. */
  function History(ops: seq<TableOp>): seq<Entry> {
    if ops == [] then []
    else
      var before := History(ops[..|ops| - 1]);
      match ops[|ops| - 1]
      case Insert(e) => [e] + before
      case Resize(_) => before
  }

  lemma {:induction false} RunConcat(t: Table, a: seq<TableOp>, b: seq<TableOp>)
    ensures Run(t, a + b) == Run(Run(t, a), b)
    decreases |b|
  {
    if b == [] {
      assert a + b == a;
    } else {
      assert (a + b)[..|a + b| - 1] == a + b[..|b| - 1];
      RunConcat(t, a, b[..|b| - 1]);
    }
  }

  lemma PrefixTransitive(a: seq<Entry>, b: seq<Entry>, c: seq<Entry>)
    requires a <= b <= c
    ensures a <= c
  {
  }

  /**
   * However often the limit changes, the table holds the newest insertions in order, and
   * they fit the limit unless a single entry is left.
   */
  lemma {:induction false} TableIsRecentHistory(limit: int, ops: seq<TableOp>)
    ensures var t := Run(Table([], limit), ops);
            t.entries <= History(ops) && (Size(t.entries) <= Max(t.limit, 0) || |t.entries| == 1)
  {
    if ops == [] {
    } else {
      var front, op := ops[..|ops| - 1], ops[|ops| - 1];
      var t := Run(Table([], limit), front);
      TableIsRecentHistory(limit, front);
      match op {
        case Insert(e) =>
          assert [e] + t.entries <= [e] + History(front);
          AddKeepsNewest(t, e);
        case Resize(n) =>
          EvictFits(t.entries, n);
      }
    }
  }

  predicate Inserts(ops: seq<TableOp>) {
    forall i :: 0 <= i < |ops| ==> ops[i].Insert?
  }

  /** entries is the longest prefix of h that fits the budget. */
  ghost predicate LongestFitting(entries: seq<Entry>, h: seq<Entry>, budget: int) {
    entries <= h && forall k :: 0 <= k <= |h| ==> (Size(h[..k]) <= budget <==> k <= |entries|)
  }

  lemma NextLongestFitting(entries: seq<Entry>, h: seq<Entry>, before: nat, e: Entry, limit: int)
    requires LongestFitting(entries, h, before) && (limit <= before || h == [])
    ensures var budget := Max(limit, EntrySize(e));
            LongestFitting(Evict([e] + entries, budget), [e] + h, budget)
  {
    var budget := Max(limit, EntrySize(e));
    var all, kept := [e] + entries, Evict([e] + entries, budget);
    assert all <= [e] + h;
    PrefixTransitive(kept, all, [e] + h);
    forall k | 0 <= k <= |h| + 1
      ensures Size(([e] + h)[..k]) <= budget <==> k <= |kept|
    {
      if k <= |all| {
        assert ([e] + h)[..k] == all[..k];
        EvictKeepsLongest(all, budget, k);
      } else {
        assert ([e] + h)[..k] == [e] + h[..k - 1];
        SizeOfFront(e, h[..k - 1]);
      }
    }
  }

  lemma {:induction false} LimitStays(limit: int, ops: seq<TableOp>)
    requires Inserts(ops)
    ensures Run(Table([], limit), ops).limit == limit
  {
    if ops == [] {
    } else {
      LimitStays(limit, ops[..|ops| - 1]);
    }
  }

  /** Under one limit the table is the longest prefix of the history that fits that limit or the newest entry. */
  lemma {:induction false} TableIsLongestFitting(limit: int, ops: seq<TableOp>)
    requires Inserts(ops) && ops != []
    ensures LongestFitting(Run(Table([], limit), ops).entries, History(ops),
                           Max(limit, EntrySize(ops[|ops| - 1].entry)))
    decreases |ops|
  {
    var front, e := ops[..|ops| - 1], ops[|ops| - 1].entry;
    var t, h := Run(Table([], limit), front), History(front);
    LimitStays(limit, front);
    assert Run(Table([], limit), ops) == Apply(t, Insert(e)) && History(ops) == [e] + h;
    if front == [] {
      NextLongestFitting([], [], 0, e, limit);
    } else {
      TableIsLongestFitting(limit, front);
      NextLongestFitting(t.entries, h, Max(limit, EntrySize(front[|front| - 1].entry)), e, limit);
    }
  }

  /**
   * Behind the static entries an index counts insertions back: the first is the newest, and those
   * evicted are the oldest.
   */
  lemma IndexCountsInsertionsBack(statics: seq<Entry>, limit: int, ops: seq<TableOp>, age: nat)
    requires 1 <= age <= |History(ops)|
    ensures var t := Run(Table([], limit), ops);
            ResolveIndex(statics, |statics| + age, t) ==
            if age <= |t.entries| then Some(History(ops)[age - 1]) else None
  {
    TableIsRecentHistory(limit, ops);
  }
}
