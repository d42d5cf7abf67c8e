/**
 * The manager serves its streams in the order in which they were opened (src/stream/stream.ts:422-448,
 * src/stream/stream.ts:680-698).
 */
module StreamOrder {
  import opened Bits
  import opened Results
  import opened PrefixInteger
  import opened Frames
  import opened SettingsEntries
  import opened StreamTypes
  import opened StreamSteps
  import opened StreamProtocol
  import opened StreamInvariant
  import opened StreamRuns
  import opened StreamReactions

  // ----- age -----

  /** How long the log was when the stream was last opened. */
  function OpenedAt(log: seq<Event>, id: int): nat {
    if log == [] then 0
    else
      var last := log[|log| - 1];
      if last.Opened? && last.id == id then |log| else OpenedAt(log[..|log| - 1], id)
  }

  lemma {:induction false} OpenedBefore(log: seq<Event>, id: int)
    ensures OpenedAt(log, id) <= |log|
  {
    if log == [] {
    } else {
      OpenedBefore(log[..|log| - 1], id);
    }
  }

  ghost predicate NoneOpened(log: seq<Event>, more: seq<Event>) {
    log <= more && forall k :: |log| <= k < |more| ==> !more[k].Opened?
  }

  lemma {:induction false} SameAge(log: seq<Event>, more: seq<Event>, id: int)
    requires NoneOpened(log, more)
    ensures OpenedAt(more, id) == OpenedAt(log, id)
    decreases |more|
  {
    if |more| == |log| {
      assert more == log;
    } else {
      var front := more[..|more| - 1];
      assert !more[|front|].Opened?;
      SameAge(log, front, id);
    }
  }

  /** Older streams come first. */
  ghost predicate ByAge(order: seq<int>, log: seq<Event>) {
    forall i, k :: 0 <= i < k < |order| ==> OpenedAt(log, order[i]) < OpenedAt(log, order[k])
  }

  lemma StillByAge(order: seq<int>, log: seq<Event>, more: seq<Event>)
    requires ByAge(order, log) && NoneOpened(log, more)
    ensures ByAge(order, more)
  {
    forall i, k | 0 <= i < k < |order|
      ensures OpenedAt(more, order[i]) < OpenedAt(more, order[k])
    {
      SameAge(log, more, order[i]);
      SameAge(log, more, order[k]);
    }
  }

  lemma {:induction false} WithoutByAge(order: seq<int>, id: int, log: seq<Event>)
    requires ByAge(order, log)
    ensures ByAge(Without(order, id), log)
  {
    if order == [] {
    } else {
      var rest := Without(order[1..], id);
      WithoutByAge(order[1..], id, log);
      if order[0] != id {
        forall k | 0 <= k < |rest|
          ensures OpenedAt(log, order[0]) < OpenedAt(log, rest[k])
        {
          WithoutHas(order[1..], id, rest[k]);
          var j :| 0 <= j < |order[1..]| && order[1..][j] == rest[k];
          assert OpenedAt(log, order[0]) < OpenedAt(log, order[j + 1]);
        }
      }
    }
  }

  /** Nothing is opened, and what stays in the order stays in its place. */
  ghost predicate KeepsOrder(m: Manager, r: Manager) {
    NoneOpened(m.log, r.log) && (ByAge(m.order, m.log) ==> ByAge(r.order, r.log))
  }

  lemma SameOrder(m: Manager, r: Manager)
    requires NoneOpened(m.log, r.log) && r.order == m.order
    ensures KeepsOrder(m, r)
  {
    if ByAge(m.order, m.log) {
      StillByAge(m.order, m.log, r.log);
    }
  }

  lemma KeepsTwice(m: Manager, n: Manager, r: Manager)
    requires KeepsOrder(m, n) && KeepsOrder(n, r)
    ensures KeepsOrder(m, r)
  {
  }

  lemma NoneOpenedBy(m: Manager, r: Manager, answers: bool)
    requires Reacts(m, r, 1, answers) && Reacts(m, r, 2, answers)
    ensures NoneOpened(m.log, r.log)
  {
    forall k | |m.log| <= k < |r.log|
      ensures !r.log[k].Opened?
    {
      assert Reaction(r.log[k], 1, answers) && Reaction(r.log[k], 2, answers);
    }
  }

  lemma RejectKeepsOrder(m: Manager, id: int, err: StreamError)
    requires id in m.streams
    ensures KeepsOrder(m, Reject(m, id, err))
  {
    var r := Reject(m, id, err);
    assert r.order == Without(m.order, id);
    if ByAge(m.order, m.log) {
      WithoutByAge(m.order, id, m.log);
      StillByAge(r.order, m.log, r.log);
    }
  }

  lemma {:induction false} RejectingKeepsOrder(m: Manager, ids: seq<int>, last: Option<int>, err: StreamError)
    ensures KeepsOrder(m, RejectAbove(m, ids, last, err))
    decreases |ids|
  {
    if ids == [] {
      SameOrder(m, m);
    } else {
      var due := ids[0] in m.streams && (last.None? || ids[0] > last.value);
      var n := if due then Reject(m, ids[0], err) else m;
      if due {
        RejectKeepsOrder(m, ids[0], err);
      } else {
        SameOrder(m, m);
      }
      RejectingKeepsOrder(n, ids[1..], last, err);
      KeepsTwice(m, n, RejectAbove(n, ids[1..], last, err));
    }
  }

  lemma ResolvingKeepsOrder(m: Manager, id: int)
    requires id in m.streams
    ensures KeepsOrder(m, MaybeResolve(m, id))
  {
    var r := MaybeResolve(m, id);
    if IsSettling(m.streams[id]) {
      assert r.order == Without(m.order, id);
      if ByAge(m.order, m.log) {
        WithoutByAge(m.order, id, m.log);
        StillByAge(r.order, m.log, r.log);
      }
    } else {
      SameOrder(m, r);
    }
  }

  lemma DrainedKeepsOrder(m: Manager, id: int)
    requires id in m.streams
    ensures KeepsOrder(m, Drained(m, id))
  {
    DrainedReacts(m, id, 1, true);
    DrainedReacts(m, id, 2, true);
    NoneOpenedBy(m, Drained(m, id), true);
    SameOrder(m, Drained(m, id));
  }

  lemma DataKeepsOrder(m: Manager, id: int, flags: int, payload: Bytes)
    ensures KeepsOrder(m, AfterData(m, id, flags, payload))
  {
    if id !in m.streams {
      SameOrder(m, m);
    } else {
      var n := TakeData(m, id, flags, payload);
      SameOrder(m, n);
      if EndStreamBit(flags) {
        var o := Put(n, id, EndStream(n.streams[id]));
        SameOrder(m, o);
        ResolvingKeepsOrder(o, id);
        KeepsTwice(m, o, MaybeResolve(o, id));
      }
    }
  }

  lemma HeadersKeepOrder(decode: Decoder, m: Manager, id: int, endHeaders: bool, endStream: bool, payload: Bytes)
    ensures KeepsOrder(m, AfterHeaders(decode, m, id, endHeaders, endStream, payload).manager)
  {
    var r := AfterHeaders(decode, m, id, endHeaders, endStream, payload).manager;
    if id in m.streams {
      var s := m.streams[id].(pendingHeaderBytes := m.streams[id].pendingHeaderBytes + payload);
      var s2 := Promoted(WithHeaders(decode, s).0);
      var n := Put(m, id, if endStream then EndStream(s2) else s2);
      SameOrder(m, n);
      ResolvingKeepsOrder(n, id);
      KeepsTwice(m, n, MaybeResolve(n, id));
      if r != MaybeResolve(n, id) {
        SameOrder(m, r);
      }
    } else {
      SameOrder(m, m);
    }
  }

  lemma ContinuationKeepsOrder(decode: Decoder, m: Manager, id: int, endHeaders: bool, payload: Bytes)
    ensures KeepsOrder(m, AfterContinuation(decode, m, id, endHeaders, payload).manager)
  {
    var r, target := AfterContinuation(decode, m, id, endHeaders, payload).manager, ContinuedStream(m, id);
    if target in m.streams {
      var s := m.streams[target].(pendingHeaderBytes := m.streams[target].pendingHeaderBytes + payload);
      var s1 := WithHeaders(decode, s).0;
      var n := Put(m, target, s1).(pendingPush := m.pendingPush - {id});
      var o := if s1.isPushPromise then Log(n, [Push(target, s1.responseHeaders)]) else n;
      SameOrder(m, o);
      ResolvingKeepsOrder(o, target);
      KeepsTwice(m, o, MaybeResolve(o, target));
      if r != MaybeResolve(o, target) {
        SameOrder(m, r);
      }
    } else {
      SameOrder(m, m);
    }
  }

  /** A stream that is opened goes last. */
  lemma OpenedLast(m: Manager, r: Manager, id: int, window: int)
    requires ByAge(m.order, m.log) && id !in m.order
    requires r.order == m.order + [id] && r.log == m.log + [Opened(id, window)]
    ensures ByAge(r.order, r.log)
  {
    var log := r.log;
    assert log[..|m.log|] == m.log;
    forall i, k | 0 <= i < k < |r.order|
      ensures OpenedAt(log, r.order[i]) < OpenedAt(log, r.order[k])
    {
      assert r.order[i] == m.order[i] && OpenedAt(log, r.order[i]) == OpenedAt(m.log, m.order[i]);
      OpenedBefore(m.log, m.order[i]);
      if k < |m.order| {
        assert OpenedAt(log, r.order[k]) == OpenedAt(m.log, m.order[k]);
      }
    }
  }

  lemma PromiseKeepsOrder(decode: Decoder, m: Manager, id: int, promised: int, endHeaders: bool, payload: Bytes)
    requires Listed(m) && promised !in m.streams && ByAge(m.order, m.log)
    ensures var r := AfterPushPromise(decode, m, id, promised, endHeaders, payload).manager; ByAge(r.order, r.log)
  {
    var r := AfterPushPromise(decode, m, id, promised, endHeaders, payload).manager;
    var n := Log(Insert(m, NewStream(promised, DEFAULT_INITIAL_WINDOW_SIZE, true)),
                 [Opened(promised, DEFAULT_INITIAL_WINDOW_SIZE)]);
    assert promised !in m.order;
    OpenedLast(m, n, promised, DEFAULT_INITIAL_WINDOW_SIZE);
    assert r.order == n.order;
    StillByAge(n.order, n.log, r.log);
  }

  lemma {:induction false} SettingsOrder(m: Manager, entries: seq<Setting>)
    ensures AfterSettings(m, entries).order == m.order
    decreases |entries|
  {
    if entries == [] {
    } else {
      SettingsOrder(AfterSetting(m, entries[0]), entries[1..]);
    }
  }

  lemma SettingsKeepOrder(m: Manager, entries: seq<Setting>)
    ensures KeepsOrder(m, AfterSettings(m, entries))
  {
    var r := AfterSettings(m, entries);
    SettingsReact(m, entries, 1, true);
    SettingsReact(m, entries, 2, true);
    NoneOpenedBy(m, r, true);
    SettingsOrder(m, entries);
    SameOrder(m, r);
  }

  lemma CreditKeepsOrder(m: Manager, id: int, increment: int)
    ensures KeepsOrder(m, AfterWindowUpdate(m, id, increment))
  {
    var r := AfterWindowUpdate(m, id, increment);
    WindowUpdateReacts(m, id, increment, 1, true);
    WindowUpdateReacts(m, id, increment, 2, true);
    NoneOpenedBy(m, r, true);
    SameOrder(m, r);
  }

  lemma FrameKeepsOrder(decode: Decoder, m: Manager, f: Frame)
    requires Good(m) && Polite(m, Dispatch(f)) && ByAge(m.order, m.log)
    ensures var r := AfterDispatch(decode, m, f).manager; ByAge(r.order, r.log)
  {
    var r := AfterDispatch(decode, m, f).manager;
    match f
    case Data(flags, id, payload) => DataKeepsOrder(m, id, flags, payload);
    case Headers(_, id, endHeaders, endStream, _, _, payload) =>
      HeadersKeepOrder(decode, m, id, endHeaders, endStream, payload);
    case Continuation(_, id, endHeaders, payload) => ContinuationKeepsOrder(decode, m, id, endHeaders, payload);
    case PushPromise(_, id, endHeaders, _, promised, payload) =>
      PromiseKeepsOrder(decode, m, id, promised, endHeaders, payload);
    case WindowUpdate(_, id, increment) => CreditKeepsOrder(m, id, increment);
    case Goaway(_, _, last, errorCode, debugData) =>
      var n := Log(m, [GoawayIn(last, errorCode, debugData)]);
      SameOrder(m, n);
      RejectingKeepsOrder(n, m.order, Some(last), GoawayError(last, errorCode, debugData));
    case RstStream(_, id, errorCode) =>
      if id in m.streams {
        var n := Put(m, id, m.streams[id].(state := Closed(ResetByPeer(errorCode))));
        SameOrder(m, n);
        RejectKeepsOrder(n, id, RstStreamError(id, errorCode));
      }
    case SettingsFrame(_, _, ack, settings, _, _) =>
      var n := if ack then m else AfterSettings(m, NaturalEntries(settings));
      if ack {
        SameOrder(m, m);
      } else {
        SettingsKeepOrder(m, NaturalEntries(settings));
      }
      SameOrder(n, r);
    case _ => SameOrder(m, r);
  }

  lemma AfterByAge(decode: Decoder, m: Manager, input: Input)
    requires Good(m) && Polite(m, input) && ByAge(m.order, m.log)
    ensures var r := After(decode, m, input).manager; ByAge(r.order, r.log)
  {
    var r := After(decode, m, input).manager;
    match input
    case OpenStream =>
      NextIsFresh(m);
      assert m.nextId !in m.order;
      OpenedLast(m, r, m.nextId, m.initialWindow);
    case Dispatch(f) => FrameKeepsOrder(decode, m, f);
    case SendData(id, data, endStream) =>
      if id in m.streams {
        var n := Enqueue(m, id, data, endStream);
        SameOrder(m, n);
        DrainedKeepsOrder(n, id);
      }
    case ApplyWindowUpdate(id, increment) => CreditKeepsOrder(m, id, increment);
    case ExpectResponse(id) => SameOrder(m, r);
    case AbortAll(error) => assert r.order == [];
  }

  /** After any polite run the order of the streams is that of their age. */
  lemma {:induction false} RunByAge(decode: Decoder, inputs: seq<Input>)
    requires PoliteRun(decode, inputs)
    ensures var m := Run(decode, inputs); ByAge(m.order, m.log)
  {
    if inputs == [] {
    } else {
      var front := inputs[..|inputs| - 1];
      RunByAge(decode, front);
      RunGood(decode, front);
      AfterByAge(decode, Run(decode, front), inputs[|inputs| - 1]);
    }
  }

  // ----- who may send -----

  /** Its own window would let nothing of it through. */
  predicate OwnHeld(s: Stream) {
    s.sendQueue == [] || s.localWindow <= 0
  }

  lemma {:induction false} NothingWithoutWindow(m: Manager, i: nat)
    requires i <= |m.order| && m.sendWindow <= 0
    ensures DrainedFrom(m, i) == m
    decreases |m.order| - i
  {
    if i == |m.order| {
    } else {
      NothingWithoutWindow(m, i + 1);
    }
  }

  lemma DrainedStaysHeld(m: Manager, id: int, k: int)
    requires id in m.streams && k in m.streams && OwnHeld(m.streams[k])
    ensures OwnHeld(Drained(m, id).streams[k])
  {
    DrainedHoldsUp(m, id);
    if id == k {
      assert Drained(m, id) == m;
    }
  }

  lemma {:induction false} StaysHeld(m: Manager, i: nat, k: int)
    requires i <= |m.order| && k in m.streams && OwnHeld(m.streams[k])
    ensures OwnHeld(DrainedFrom(m, i).streams[k])
    decreases |m.order| - i
  {
    if i == |m.order| {
    } else {
      if m.order[i] in m.streams {
        DrainedStaysHeld(m, m.order[i], k);
      }
      StaysHeld(if m.order[i] in m.streams then Drained(m, m.order[i]) else m, i + 1, k);
    }
  }

  ghost predicate Distinct(order: seq<int>) {
    forall i, k :: 0 <= i < k < |order| ==> order[i] != order[k]
  }

  /**
   * If the k-th stream sends, those before it that were drained have nothing that their own window
   * would let through.
   */
  lemma {:induction false} DrainsInOrder(m: Manager, i: nat, j: nat, k: nat)
    requires i <= j < k < |m.order| && Distinct(m.order) && m.order[j] in m.streams && m.order[k] in m.streams
    requires DrainedFrom(m, i).streams[m.order[k]].sendQueue != m.streams[m.order[k]].sendQueue
    ensures OwnHeld(DrainedFrom(m, i).streams[m.order[j]])
    decreases |m.order| - i
  {
    var first := m.order[i];
    var n := if first in m.streams then Drained(m, first) else m;
    if first in m.streams {
      DrainedHoldsUp(m, first);
    }
    assert m.order[k] != first;
    if j == i {
      if n.sendWindow <= 0 {
        NothingWithoutWindow(n, i + 1);
      } else {
        StaysHeld(n, i + 1, first);
      }
    } else {
      DrainsInOrder(n, i + 1, j, k);
    }
  }

  lemma OlderIsFirst(m: Manager, a: int, b: int) returns (j: nat, k: nat)
    requires a in m.order && b in m.order && ByAge(m.order, m.log) && OpenedAt(m.log, a) < OpenedAt(m.log, b)
    ensures j < k < |m.order| && m.order[j] == a && m.order[k] == b && Distinct(m.order)
  {
    j :| 0 <= j < |m.order| && m.order[j] == a;
    k :| 0 <= k < |m.order| && m.order[k] == b;
  }

  /**
   * When credit for the connection makes a stream send, all older streams have sent what their own
   * windows let through.
   */
  lemma OldestFirst(decode: Decoder, inputs: seq<Input>, increment: int, a: int, b: int)
    requires PoliteRun(decode, inputs)
    requires var m := Run(decode, inputs);
             a in m.streams && b in m.streams && OpenedAt(m.log, a) < OpenedAt(m.log, b)
    ensures var m, r := Run(decode, inputs), AfterWindowUpdate(Run(decode, inputs), 0, increment);
            r.streams[b].sendQueue != m.streams[b].sendQueue ==> OwnHeld(r.streams[a])
  {
    var m := Run(decode, inputs);
    RunGood(decode, inputs);
    RunByAge(decode, inputs);
    var n := CreditConnection(m, increment);
    var j, k := OlderIsFirst(m, a, b);
    if DrainedFrom(n, 0).streams[b].sendQueue != m.streams[b].sendQueue {
      DrainsInOrder(n, 0, j, k);
    }
  }
}
