/**
 * The entries of a SETTINGS payload (src/frame/frame.ts:74-88, src/frame/frame.ts:113-160,
 * src/frame/frame.ts:243-250).
 */
module SettingsEntries {
  import opened Bits
  import opened Results
  import opened WireNumbers

  type Settings = map<nat, int>

  datatype Setting = Setting(id: int, value: int)

  // ----- the order of the entries -----

  ghost predicate IsSmallest(m: Settings, k: nat) {
    k in m && forall j :: j in m ==> k <= j
  }

  lemma HasSmallestKey(m: Settings)
    requires m != map[]
    ensures exists k: nat :: IsSmallest(m, k)
    decreases |m|
  {
    var a :| a in m;
    var rest := m - {a};
    assert m.Keys == rest.Keys + {a};
    if rest == map[] {
      assert forall j :: j in m ==> j == a;
      assert IsSmallest(m, a);
    } else {
      HasSmallestKey(rest);
      var b: nat :| IsSmallest(rest, b);
      assert forall j :: j in m ==> j == a || j in rest;
      assert IsSmallest(m, if a <= b then a else b);
    }
  }

  function FirstKey(m: Settings): (k: nat)
    requires m != map[]
    ensures k in m && forall j :: j in m ==> k <= j
  {
    HasSmallestKey(m);
    assert forall k: nat, j: nat :: IsSmallest(m, k) && IsSmallest(m, j) ==> j == k;
    var k: nat :| k in m && forall j :: j in m ==> k <= j;
    k
  }

  /** All entries, ascending, as JavaScript lists integer keys. */
  function NaturalEntries(m: Settings): (e: seq<Setting>)
    decreases |m|
  {
    if m == map[] then [] else
      var k := FirstKey(m);
      assert |m - {k}| < |m| by {
        assert m.Keys == (m - {k}).Keys + {k};
      }
      [Setting(k, m[k])] + NaturalEntries(m - {k})
  }

  function Occurrence(id: int, m: Settings): seq<Setting> {
    if id in m then [Setting(id, m[id])] else []
  }

  /** The listed entries that have a value, repeats included. */
  function Picked(order: seq<int>, m: Settings): seq<Setting> {
    if order == [] then []
    else Picked(order[..|order| - 1], m) + Occurrence(order[|order| - 1], m)
  }

  function Uncovered(e: seq<Setting>, order: seq<int>): seq<Setting> {
    if e == [] then []
    else Uncovered(e[..|e| - 1], order) + (if e[|e| - 1].id in order then [] else [e[|e| - 1]])
  }

  function Ordered(m: Settings, order: Option<seq<int>>): seq<Setting> {
    match order
    case None => NaturalEntries(m)
    case Some(ids) => Picked(ids, m) + Uncovered(NaturalEntries(m), ids)
  }

  /** A GREASE entry goes first. */
  function Entries(m: Settings, order: Option<seq<int>>, grease: Option<nat>): seq<Setting> {
    (if grease.Some? then [Setting(grease.value, 0)] else []) + Ordered(m, order)
  }

  method ListEntries(ids: seq<int>, m: Settings) returns (entries: seq<Setting>)
    ensures entries == Picked(ids, m)
  {
    entries := [];
    for i := 0 to |ids|
      invariant entries == Picked(ids[..i], m)
    {
      assert ids[..i + 1][..i] == ids[..i];
      var id: int := ids[i];
      if id in m {
        entries := entries + [Setting(id, m[id])];
      }
    }
    assert ids[..|ids|] == ids;
  }

  method RestEntries(natural: seq<Setting>, ids: seq<int>) returns (entries: seq<Setting>)
    ensures entries == Uncovered(natural, ids)
  {
    var covered := set id | id in ids;
    entries := [];
    for i := 0 to |natural|
      invariant entries == Uncovered(natural[..i], ids)
    {
      assert natural[..i + 1][..i] == natural[..i];
      if natural[i].id !in covered {
        entries := entries + [natural[i]];
      }
    }
    assert natural[..|natural|] == natural;
  }

  method CollectSettingsEntries(m: Settings, order: Option<seq<int>>, grease: Option<nat>)
    returns (entries: seq<Setting>)
    ensures entries == Entries(m, order, grease)
  {
    entries := [];
    if grease.Some? {
      entries := [Setting(grease.value, 0)];
    }
    var ordered := NaturalEntries(m);
    if order.Some? {
      var listed := ListEntries(order.value, m);
      var rest := RestEntries(ordered, order.value);
      ordered := listed + rest;
    }
    entries := entries + ordered;
  }

  // ----- the entries on the wire -----

  function EntryOctets(e: Setting): (s: Bytes)
    ensures |s| == 6
  {
    Be16(e.id) + Be32(e.value)
  }

  function EntriesOctets(entries: seq<Setting>): (s: Bytes)
    ensures |s| == 6 * |entries|
  {
    if entries == [] then [] else EntriesOctets(entries[..|entries| - 1]) + EntryOctets(entries[|entries| - 1])
  }

  /** Later entries replace earlier ones. */
  function Stored(entries: seq<Setting>): Settings {
    if entries == [] then map[]
    else
      var e := entries[|entries| - 1];
      Stored(entries[..|entries| - 1])[Low16(e.id) := Low32(e.value)]
  }

  /** The first n whole entries of a payload. */
  function ReadEntries(payload: Bytes, n: nat): Settings
    requires 6 * n <= |payload|
  {
    if n == 0 then map[]
    else ReadEntries(payload, n - 1)[Get16(payload, 6 * n - 6) := Get32(payload, 6 * n - 4)]
  }

  /** What is left over after the last whole entry is ignored. */
  method DecodeSettings(payload: Bytes) returns (settings: Settings)
    ensures settings == ReadEntries(payload, |payload| / 6)
  {
    settings := map[];
    var i := 0;
    ghost var n := 0;
    while i + 6 <= |payload|
      invariant i == 6 * n <= |payload| && settings == ReadEntries(payload, n)
    {
      var id := Get16(payload, i);
      var value := Get32(payload, i + 2);
      settings := settings[id := value];
      i := i + 6;
      n := n + 1;
    }
  }

  lemma {:induction false} ReadPrefix(a: Bytes, b: Bytes, n: nat)
    requires 6 * n <= |a|
    ensures ReadEntries(a + b, n) == ReadEntries(a, n)
  {
    if n == 0 {
    } else {
      ReadPrefix(a, b, n - 1);
      assert forall k :: 0 <= k < |a| ==> (a + b)[k] == a[k];
    }
  }

  lemma LastEntry(a: Bytes, e: Setting, n: nat)
    requires |a| == 6 * n
    ensures var s := a + EntryOctets(e);
            Get16(s, 6 * n) == Low16(e.id) && Get32(s, 6 * n + 2) == Low32(e.value)
  {
    var s := a + EntryOctets(e);
    assert s[6 * n..6 * n + 2] == Be16(e.id);
    assert s[6 * n + 2..6 * n + 6] == Be32(e.value);
    GetBe16(s, 6 * n, e.id);
    GetBe32(s, 6 * n + 2, e.value);
  }

  lemma {:induction false} EntriesReadBack(entries: seq<Setting>)
    ensures ReadEntries(EntriesOctets(entries), |entries|) == Stored(entries)
  {
    if entries == [] {
    } else {
      var n := |entries| - 1;
      var front, e := entries[..n], entries[n];
      var a, b := EntriesOctets(front), EntryOctets(e);
      EntriesReadBack(front);
      ReadPrefix(a, b, n);
      LastEntry(a, e, n);
    }
  }

  // ----- what the other side stores -----

  ghost predicate From(entries: seq<Setting>, m: Settings) {
    forall i :: 0 <= i < |entries| ==> entries[i].id in m && entries[i].value == m[entries[i].id]
  }

  ghost predicate Mentions(entries: seq<Setting>, id: int) {
    exists i :: 0 <= i < |entries| && entries[i].id == id
  }

  /** The smallest key first, then the others. */
  lemma NaturalNext(m: Settings)
    requires m != map[]
    ensures var k := FirstKey(m);
            && NaturalEntries(m) == [Setting(k, m[k])] + NaturalEntries(m - {k})
            && |m - {k}| == |m| - 1 && k in m
  {
    var k := FirstKey(m);
    assert m.Keys == (m - {k}).Keys + {k};
  }

  lemma StillMentions(entries: seq<Setting>, first: Setting, id: int)
    requires id == first.id || Mentions(entries, id)
    ensures Mentions([first] + entries, id)
  {
    var all := [first] + entries;
    if id == first.id {
      assert all[0].id == id;
    } else {
      var i :| 0 <= i < |entries| && entries[i].id == id;
      assert all[i + 1].id == id;
    }
  }

  lemma StillFrom(entries: seq<Setting>, m: Settings, k: nat)
    requires k in m && From(entries, m - {k})
    ensures From([Setting(k, m[k])] + entries, m)
  {
  }

  lemma {:induction false} NaturalIsAll(m: Settings)
    ensures From(NaturalEntries(m), m) && forall id :: id in m ==> Mentions(NaturalEntries(m), id)
    ensures |NaturalEntries(m)| == |m|
    decreases |m|
  {
    if m == map[] {
      assert NaturalEntries(m) == [];
    } else {
      var k := FirstKey(m);
      var rest := m - {k};
      NaturalNext(m);
      NaturalIsAll(rest);
      StillFrom(NaturalEntries(rest), m, k);
      forall id | id in m
        ensures Mentions(NaturalEntries(m), id)
      {
        assert id == k || id in rest;
        StillMentions(NaturalEntries(rest), Setting(k, m[k]), id);
      }
    }
  }

  lemma {:induction false} NaturalAscends(m: Settings, i: nat, j: nat)
    requires i < j < |NaturalEntries(m)|
    ensures NaturalEntries(m)[i].id < NaturalEntries(m)[j].id
    decreases |m|
  {
    var k := FirstKey(m);
    var rest := m - {k};
    NaturalNext(m);
    if i == 0 {
      NaturalIsAll(rest);
      assert NaturalEntries(rest)[j - 1].id in rest;
    } else {
      NaturalAscends(rest, i - 1, j - 1);
    }
  }

  lemma {:induction false} PickedIsFrom(order: seq<int>, m: Settings)
    ensures From(Picked(order, m), m)
    ensures forall id :: id in m && id in order ==> Mentions(Picked(order, m), id)
  {
    if order == [] {
    } else {
      var front, last := order[..|order| - 1], order[|order| - 1];
      PickedIsFrom(front, m);
      var e := Picked(order, m);
      assert Picked(front, m) <= e;
      forall id | id in m && id in order
        ensures Mentions(e, id)
      {
        if id == last {
          assert e[|e| - 1].id == id;
        } else {
          assert id in front && Mentions(Picked(front, m), id);
          var i :| 0 <= i < |Picked(front, m)| && Picked(front, m)[i].id == id;
          assert e[i].id == id;
        }
      }
    }
  }

  lemma {:induction false} UncoveredKeeps(e: seq<Setting>, order: seq<int>, m: Settings)
    requires From(e, m)
    ensures From(Uncovered(e, order), m)
    ensures forall id :: id !in order && Mentions(e, id) ==> Mentions(Uncovered(e, order), id)
  {
    if e == [] {
    } else {
      var front, last := e[..|e| - 1], e[|e| - 1];
      UncoveredKeeps(front, order, m);
      var u := Uncovered(e, order);
      assert Uncovered(front, order) <= u;
      forall id | id !in order && Mentions(e, id)
        ensures Mentions(u, id)
      {
        var i :| 0 <= i < |e| && e[i].id == id;
        if i == |front| {
          assert u[|u| - 1] == last;
        } else {
          assert front[i].id == id && Mentions(front, id);
          var j :| 0 <= j < |Uncovered(front, order)| && Uncovered(front, order)[j].id == id;
          assert u[j].id == id;
        }
      }
    }
  }

  lemma OrderedIsAll(m: Settings, order: Option<seq<int>>)
    ensures From(Ordered(m, order), m) && forall id :: id in m ==> Mentions(Ordered(m, order), id)
  {
    NaturalIsAll(m);
    if order.Some? {
      var ids := order.value;
      var a, b := Picked(ids, m), Uncovered(NaturalEntries(m), ids);
      PickedIsFrom(ids, m);
      UncoveredKeeps(NaturalEntries(m), ids, m);
      forall id | id in m
        ensures Mentions(a + b, id)
      {
        if id in ids {
          var i :| 0 <= i < |a| && a[i].id == id;
          assert (a + b)[i].id == id;
        } else {
          var i :| 0 <= i < |b| && b[i].id == id;
          assert (a + b)[|a| + i].id == id;
        }
      }
    }
  }

  function IdsOf(entries: seq<Setting>): seq<int> {
    seq(|entries|, i requires 0 <= i < |entries| => entries[i].id)
  }

  /** The listed ids that have a value, as they are listed. */
  function Kept(order: seq<int>, m: Settings): seq<int> {
    if order == [] then [] else (if order[0] in m then [order[0]] else []) + Kept(order[1..], m)
  }

  lemma KeptCons(id: int, rest: seq<int>, m: Settings)
    ensures Kept([id] + rest, m) == (if id in m then [id] else []) + Kept(rest, m)
  {
    assert ([id] + rest)[1..] == rest;
  }

  lemma {:induction false} KeptSnoc(order: seq<int>, id: int, m: Settings)
    ensures Kept(order + [id], m) == Kept(order, m) + if id in m then [id] else []
  {
    if order == [] {
      KeptCons(id, [], m);
      assert [] + [id] == [id] + [];
    } else {
      var rest := order[1..];
      KeptSnoc(rest, id, m);
      KeptCons(order[0], rest + [id], m);
      assert order + [id] == [order[0]] + (rest + [id]);
    }
  }

  lemma {:induction false} PickedFollows(order: seq<int>, m: Settings)
    ensures IdsOf(Picked(order, m)) == Kept(order, m)
  {
    if order == [] {
    } else {
      var front, last := order[..|order| - 1], order[|order| - 1];
      PickedFollows(front, m);
      KeptSnoc(front, last, m);
      assert order == front + [last];
      assert IdsOf(Picked(order, m)) == IdsOf(Picked(front, m)) + if last in m then [last] else [];
    }
  }

  ghost predicate Ascends(entries: seq<Setting>) {
    forall i, j :: 0 <= i < j < |entries| ==> entries[i].id < entries[j].id
  }

  lemma {:induction false} UncoveredAscends(e: seq<Setting>, order: seq<int>)
    requires Ascends(e)
    ensures Ascends(Uncovered(e, order))
    ensures forall i :: 0 <= i < |Uncovered(e, order)| ==>
            Uncovered(e, order)[i].id !in order && Uncovered(e, order)[i] in e
  {
    if e == [] {
    } else {
      var front := e[..|e| - 1];
      UncoveredAscends(front, order);
      var u := Uncovered(front, order);
      forall i | 0 <= i < |u|
        ensures u[i].id < e[|e| - 1].id
      {
        var j :| 0 <= j < |front| && front[j] == u[i];
        assert e[j].id < e[|e| - 1].id;
      }
    }
  }

  lemma IdsInThree(a: seq<Setting>, b: seq<Setting>, c: seq<Setting>)
    ensures IdsOf(a + (b + c)) == IdsOf(a) + IdsOf(b) + IdsOf(c)
  {
  }

  lemma NaturalAscend(m: Settings)
    ensures Ascends(NaturalEntries(m))
  {
    forall i, j | 0 <= i < j < |NaturalEntries(m)|
      ensures NaturalEntries(m)[i].id < NaturalEntries(m)[j].id
    {
      NaturalAscends(m, i, j);
    }
  }

  function GreaseEntry(grease: Option<nat>): seq<Setting> {
    if grease.Some? then [Setting(grease.value, 0)] else []
  }

  /** A GREASE entry leads; then come the listed ids that have a value, as listed, and then all others, ascending. */
  lemma EntriesInOrder(m: Settings, order: seq<int>, grease: Option<nat>) returns (rest: seq<Setting>)
    ensures IdsOf(Entries(m, Some(order), grease)) == IdsOf(GreaseEntry(grease)) + Kept(order, m) + IdsOf(rest)
    ensures Ascends(rest) && forall i :: 0 <= i < |rest| ==> rest[i].id !in order
    ensures GreaseEntry(grease) <= Entries(m, Some(order), grease)
  {
    rest := Uncovered(NaturalEntries(m), order);
    PickedFollows(order, m);
    NaturalAscend(m);
    UncoveredAscends(NaturalEntries(m), order);
    IdsInThree(GreaseEntry(grease), Picked(order, m), rest);
    assert Entries(m, Some(order), grease) == GreaseEntry(grease) + (Picked(order, m) + rest);
  }

  /** Ids fit 16 bits and values 32. */
  ghost predicate InRange(m: Settings) {
    forall id :: id in m ==> id < TWO16 && 0 <= m[id] < TWO32
  }

  lemma {:induction false} StoredFrom(entries: seq<Setting>, m: Settings)
    requires From(entries, m) && InRange(m)
    ensures forall id :: id in Stored(entries) <==> Mentions(entries, id)
    ensures forall id :: id in Stored(entries) ==> id in m && Stored(entries)[id] == m[id]
  {
    if entries == [] {
    } else {
      var front, last := entries[..|entries| - 1], entries[|entries| - 1];
      StoredFrom(front, m);
      forall id
        ensures Mentions(entries, id) <==> Mentions(front, id) || id == last.id
      {
        if Mentions(front, id) {
          var i :| 0 <= i < |front| && front[i].id == id;
          assert entries[i].id == id;
        }
        if id == last.id {
          assert entries[|front|].id == id;
        }
        if Mentions(entries, id) && id != last.id {
          var i :| 0 <= i < |entries| && entries[i].id == id;
          assert front[i].id == id;
        }
      }
    }
  }

  /** With GREASE, one entry of value zero is added unless a real setting has that id. */
  function WithGrease(m: Settings, grease: Option<nat>): Settings {
    if grease.None? || grease.value in m then m else m[grease.value := 0]
  }

  lemma StoredOrdered(m: Settings, order: Option<seq<int>>)
    requires InRange(m)
    ensures Stored(Ordered(m, order)) == m
  {
    var entries := Ordered(m, order);
    assert From(entries, m) && forall id :: id in m ==> Mentions(entries, id) by {
      OrderedIsAll(m, order);
    }
    StoredFrom(entries, m);
  }

  lemma {:induction false} StoredBehind(first: Setting, entries: seq<Setting>)
    ensures var m, id := Stored(entries), Low16(first.id);
            Stored([first] + entries) == if id in m then m else m[id := Low32(first.value)]
  {
    var all := [first] + entries;
    if entries == [] {
      assert all[..0] == [];
    } else {
      assert all[..|all| - 1] == [first] + entries[..|entries| - 1];
      StoredBehind(first, entries[..|entries| - 1]);
    }
  }

  /**
   * Whatever the order, with repeats and omissions, the other side stores the same settings,
   * and GREASE adds at most its own zero entry and replaces none.
   */
  lemma StoredAsGiven(m: Settings, order: Option<seq<int>>, grease: Option<nat>)
    requires InRange(m) && (grease.Some? ==> grease.value < TWO16)
    ensures Stored(Entries(m, order, grease)) == WithGrease(m, grease)
  {
    var given := Ordered(m, order);
    StoredOrdered(m, order);
    if grease.Some? {
      StoredBehind(Setting(grease.value, 0), given);
    } else {
      assert Entries(m, order, grease) == given;
    }
  }

  lemma {:induction false} ReadInRange(payload: Bytes, n: nat)
    requires 6 * n <= |payload|
    ensures InRange(ReadEntries(payload, n))
  {
    if n == 0 {
    } else {
      ReadInRange(payload, n - 1);
    }
  }

  lemma {:induction false} StoredInRange(entries: seq<Setting>)
    ensures InRange(Stored(entries))
  {
    if entries == [] {
    } else {
      StoredInRange(entries[..|entries| - 1]);
    }
  }

  lemma {:induction false} SmallSet(keys: set<nat>, bound: nat)
    requires forall k :: k in keys ==> k < bound
    ensures |keys| <= bound
  {
    if bound == 0 {
      assert keys == {};
    } else {
      var rest := keys - {bound - 1};
      SmallSet(rest, bound - 1);
      assert bound - 1 in keys ==> keys == rest + {bound - 1};
      assert bound - 1 !in keys ==> keys == rest;
    }
  }

  /** Without repeats, the payload always fits a frame. */
  lemma NaturalFits(m: Settings)
    requires InRange(m)
    ensures |EntriesOctets(NaturalEntries(m))| < TWO24
  {
    NaturalIsAll(m);
    SmallSet(m.Keys, TWO16);
  }
}
