/** The log only grows, and what the manager does on its own account is only to react. */
module StreamReactions {
  import opened Bits
  import opened Results
  import opened PrefixInteger
  import opened Frames
  import opened SettingsEntries
  import opened StreamTypes
  import opened StreamSteps

  /** Nothing that a caller asks for; the only stream opened is the one promised, and only some answer requests. */
  predicate Reaction(e: Event, promised: int, answers: bool) {
    !e.Queued? && !e.Expected? && (e.Opened? ==> e.id == promised) && (e.Sent? ==> !e.frame.Headers?) &&
    (e.Resolved? || e.PushResponse? ==> answers)
  }

  ghost predicate Reacts(m: Manager, r: Manager, promised: int, answers: bool) {
    m.log <= r.log && r.nextId == m.nextId && forall k :: |m.log| <= k < |r.log| ==>
      Reaction(r.log[k], promised, answers)
  }

  lemma ReactsTwice(m: Manager, n: Manager, r: Manager, promised: int, answers: bool)
    requires Reacts(m, n, promised, answers) && Reacts(n, r, promised, answers)
    ensures Reacts(m, r, promised, answers)
  {
  }

  lemma {:induction false} DrainedReacts(m: Manager, id: int, promised: int, answers: bool)
    requires id in m.streams
    ensures Reacts(m, Drained(m, id), promised, answers)
    decreases |m.streams[id].sendQueue|
  {
    var queue := m.streams[id].sendQueue;
    if queue == [] || Cap(m, id) <= 0 {
    } else {
      var n := SendChunk(m, id, Min(Cap(m, id), |queue|));
      DrainedReacts(n, id, promised, answers);
      ReactsTwice(m, n, Drained(n, id), promised, answers);
    }
  }

  lemma {:induction false} DrainedFromReacts(m: Manager, i: nat, promised: int, answers: bool)
    requires i <= |m.order|
    ensures Reacts(m, DrainedFrom(m, i), promised, answers)
    decreases |m.order| - i
  {
    if i == |m.order| {
    } else {
      var n := if m.order[i] in m.streams then Drained(m, m.order[i]) else m;
      if m.order[i] in m.streams {
        DrainedReacts(m, m.order[i], promised, answers);
      }
      DrainedFromReacts(n, i + 1, promised, answers);
      ReactsTwice(m, n, DrainedFrom(n, i + 1), promised, answers);
    }
  }

  lemma SettingReacts(m: Manager, e: Setting, promised: int, answers: bool)
    ensures Reacts(m, AfterSetting(m, e), promised, answers)
  {
    if e.id == 4 {
      var n := WithInitialWindow(m, e.value);
      DrainedFromReacts(n, 0, promised, answers);
      ReactsTwice(m, n, DrainedFrom(n, 0), promised, answers);
    }
  }

  lemma {:induction false} SettingsReact(m: Manager, entries: seq<Setting>, promised: int, answers: bool)
    ensures Reacts(m, AfterSettings(m, entries), promised, answers)
    decreases |entries|
  {
    if entries == [] {
    } else {
      var n := AfterSetting(m, entries[0]);
      SettingReacts(m, entries[0], promised, answers);
      SettingsReact(n, entries[1..], promised, answers);
      ReactsTwice(m, n, AfterSettings(n, entries[1..]), promised, answers);
    }
  }

  lemma RejectReacts(m: Manager, id: int, err: StreamError, promised: int, answers: bool)
    requires id in m.streams
    ensures Reacts(m, Reject(m, id, err), promised, answers)
  {
  }

  lemma {:induction false} RejectingReacts(m: Manager, ids: seq<int>, last: Option<int>, err: StreamError,
                                           promised: int, answers: bool)
    ensures Reacts(m, RejectAbove(m, ids, last, err), promised, answers)
    decreases |ids|
  {
    if ids == [] {
    } else {
      var id := ids[0];
      var due := id in m.streams && (last.None? || id > last.value);
      var n := if due then Reject(m, id, err) else m;
      if due {
        RejectReacts(m, id, err, promised, answers);
      }
      RejectingReacts(n, ids[1..], last, err, promised, answers);
      ReactsTwice(m, n, RejectAbove(n, ids[1..], last, err), promised, answers);
    }
  }

  lemma WindowUpdateReacts(m: Manager, id: int, increment: int, promised: int, answers: bool)
    ensures Reacts(m, AfterWindowUpdate(m, id, increment), promised, answers)
  {
    if id == 0 {
      var n := CreditConnection(m, increment);
      DrainedFromReacts(n, 0, promised, answers);
      ReactsTwice(m, n, DrainedFrom(n, 0), promised, answers);
    } else if id in m.streams {
      var n := CreditStream(m, id, increment);
      DrainedReacts(n, id, promised, answers);
      ReactsTwice(m, n, Drained(n, id), promised, answers);
    }
  }

  lemma ResolvingReacts(m: Manager, id: int, promised: int)
    requires id in m.streams
    ensures Reacts(m, MaybeResolve(m, id), promised, true)
  {
  }

  lemma DataReacts(m: Manager, id: int, flags: int, payload: Bytes, promised: int)
    ensures Reacts(m, AfterData(m, id, flags, payload), promised, true)
  {
    if id in m.streams {
      var n := TakeData(m, id, flags, payload);
      var o := Put(n, id, EndStream(n.streams[id]));
      assert Reacts(m, n, promised, true) && Reacts(m, o, promised, true);
      ResolvingReacts(o, id, promised);
      ReactsTwice(m, o, MaybeResolve(o, id), promised, true);
    }
  }

  lemma HeadersReact(decode: Decoder, m: Manager, id: int, endHeaders: bool, endStream: bool, payload: Bytes,
                     promised: int)
    ensures Reacts(m, AfterHeaders(decode, m, id, endHeaders, endStream, payload).manager, promised, true)
  {
    if id in m.streams {
      var s := m.streams[id].(pendingHeaderBytes := m.streams[id].pendingHeaderBytes + payload);
      var (s1, thrown) := WithHeaders(decode, s);
      var t := if endStream then EndStream(Promoted(s1)) else Promoted(s1);
      ResolvingReacts(Put(m, id, t), id, promised);
    }
  }

  lemma ContinuationReacts(decode: Decoder, m: Manager, id: int, endHeaders: bool, payload: Bytes, promised: int)
    ensures Reacts(m, AfterContinuation(decode, m, id, endHeaders, payload).manager, promised, true)
  {
    var target := ContinuedStream(m, id);
    if target in m.streams {
      var s := m.streams[target].(pendingHeaderBytes := m.streams[target].pendingHeaderBytes + payload);
      var (s1, thrown) := WithHeaders(decode, s);
      var m1 := Put(m, target, s1).(pendingPush := m.pendingPush - {id});
      var m2 := if s1.isPushPromise then Log(m1, [Push(target, s1.responseHeaders)]) else m1;
      ResolvingReacts(m2, target, promised);
      ReactsTwice(m, m2, MaybeResolve(m2, target), promised, true);
    }
  }

  lemma PromiseReacts(decode: Decoder, m: Manager, id: int, promised: int, endHeaders: bool, payload: Bytes)
    ensures Reacts(m, AfterPushPromise(decode, m, id, promised, endHeaders, payload).manager, promised, false)
  {
  }

  lemma GoawayReacts(m: Manager, last: int, errorCode: int, debugData: Bytes, promised: int, answers: bool)
    ensures Reacts(m, AfterGoaway(m, last, errorCode, debugData), promised, answers)
  {
    var n := Log(m, [GoawayIn(last, errorCode, debugData)]);
    RejectingReacts(n, m.order, Some(last), GoawayError(last, errorCode, debugData), promised, answers);
    ReactsTwice(m, n, AfterGoaway(m, last, errorCode, debugData), promised, answers);
  }

  function PromisedBy(f: Frame): int {
    if f.PushPromise? then f.promisedStreamId else 0
  }

  /** The frames that can complete a response. */
  predicate Answers(f: Frame) {
    f.Data? || f.Headers? || f.Continuation?
  }

  /** A frame makes the manager react, and open no stream but the one it promises. */
  lemma DispatchReacts(decode: Decoder, m: Manager, f: Frame)
    ensures var r := AfterDispatch(decode, m, f).manager;
            Reacts(m, r, PromisedBy(f), Answers(f)) && Reacts(m, r, PromisedBy(f), true)
  {
    match f
    case SettingsFrame(_, _, ack, settings, _, _) =>
      SettingsReact(m, NaturalEntries(settings), 0, false);
    case WindowUpdate(_, id, increment) => WindowUpdateReacts(m, id, increment, 0, false);
    case Goaway(_, _, last, errorCode, debugData) => GoawayReacts(m, last, errorCode, debugData, 0, false);
    case Data(flags, id, payload) => DataReacts(m, id, flags, payload, 0);
    case Headers(_, id, endHeaders, endStream, _, _, payload) =>
      HeadersReact(decode, m, id, endHeaders, endStream, payload, 0);
    case Continuation(_, id, endHeaders, payload) => ContinuationReacts(decode, m, id, endHeaders, payload, 0);
    case RstStream(_, id, errorCode) =>
      if id in m.streams {
        RejectReacts(Put(m, id, m.streams[id].(state := Closed(ResetByPeer(errorCode)))), id,
                     RstStreamError(id, errorCode), 0, false);
      }
    case PushPromise(_, id, endHeaders, _, promised, payload) =>
      PromiseReacts(decode, m, id, promised, endHeaders, payload);
    case _ =>
  }

  lemma AbortReacts(m: Manager, err: StreamError, promised: int, answers: bool)
    ensures Reacts(m, AfterAbortAll(m, err), promised, answers)
  {
    RejectingReacts(m, m.order, None, err, promised, answers);
  }

  // ----- settings close nothing -----

  predicate ClosesNothing(e: Event) {
    !e.StreamClosed? && !e.GoawayIn?
  }

  ghost predicate KeepsOpen(m: Manager, r: Manager) {
    m.log <= r.log && forall k :: |m.log| <= k < |r.log| ==> ClosesNothing(r.log[k])
  }

  lemma {:induction false} DrainedKeepsOpen(m: Manager, id: int)
    requires id in m.streams
    ensures KeepsOpen(m, Drained(m, id))
    decreases |m.streams[id].sendQueue|
  {
    var queue := m.streams[id].sendQueue;
    if queue == [] || Cap(m, id) <= 0 {
    } else {
      DrainedKeepsOpen(SendChunk(m, id, Min(Cap(m, id), |queue|)), id);
    }
  }

  lemma {:induction false} DrainedFromKeepsOpen(m: Manager, i: nat)
    requires i <= |m.order|
    ensures KeepsOpen(m, DrainedFrom(m, i))
    decreases |m.order| - i
  {
    if i == |m.order| {
    } else {
      if m.order[i] in m.streams {
        DrainedKeepsOpen(m, m.order[i]);
      }
      DrainedFromKeepsOpen(if m.order[i] in m.streams then Drained(m, m.order[i]) else m, i + 1);
    }
  }

  lemma {:induction false} SettingsKeepOpen(m: Manager, entries: seq<Setting>)
    ensures KeepsOpen(m, AfterSettings(m, entries))
    decreases |entries|
  {
    if entries == [] {
    } else {
      if entries[0].id == 4 {
        DrainedFromKeepsOpen(WithInitialWindow(m, entries[0].value), 0);
      }
      SettingsKeepOpen(AfterSetting(m, entries[0]), entries[1..]);
    }
  }
}
