/** What goes out on the wire over whole runs of the connection: heads, bodies, and the form of every frame. */
module ConnectionMessages {
  import opened Bits
  import opened Results
  import opened PrefixInteger
  import opened Frames
  import opened FrameCodec
  import opened HpackHelpers
  import opened StreamTypes
  import opened StreamSteps
  import opened StreamProtocol
  import opened StreamReactions
  import opened StreamReplies
  import opened StreamInvariant
  import opened SlotPool
  import opened ConnectionSteps
  import opened ConnectionRequests
  import StaticTable
  import StreamLaws

  // ----- what a request says -----

  /** A request in time sends its block whole in one HEADERS frame, flagged as it should be, and then its body. */
  lemma RequestIsSent(w: World, i: nat, block: Bytes, body: Bytes)
    requires i < |w.pool.granted| && !w.pool.closing && !w.pool.closed
    ensures var n, id, log := |w.manager.log|, w.manager.nextId, WithRequest(w, i, Some(block), body).manager.log;
            && w.manager.log <= log && |log| > n + 2
            && log[n + 2].Sent? && log[n + 2].frame.Headers?
            && log[n + 2].frame.payload == block && log[n + 2].frame.streamId == id
            && log[n + 2].frame.flags == (if body == [] then 0x4 + 0x1 else 0x4)
            && log[n + 2].frame.endHeaders && (log[n + 2].frame.endStream <==> body == [])
            && (if body == [] then |log| == n + 3 else |log| > n + 3 && log[n + 3] == Queued(id, body, true))
  {
    var m := w.manager;
    var events := RequestEvents(m, Some(block), body);
    RequestedLog(m, Some(block), body, m.nextId);
    var log := Requested(m, Some(block), body).log;
    assert log[|m.log| + 2] == (m.log + events)[|m.log| + 2];
    if body == [] {
      assert log == m.log + events;
    } else {
      assert log[|m.log| + 3] == (m.log + events)[|m.log| + 3];
    }
  }

  datatype Asked = Asked(block: Bytes, body: Bytes)

  /** What the request that opened the stream asked for, if it was in time and its headers could be encoded. */
  function AskedOn(decode: Decoder, steps: seq<ConnectionSteps.Step>, id: int): Option<Asked> {
    if steps == [] then None
    else
      var front, s := steps[..|steps| - 1], steps[|steps| - 1];
      var w := ConnectionSteps.Run(decode, front);
      if s.OpenRequest? && s.i < |w.pool.granted| && w.manager.nextId == id
      then (if !TooLate(w) && s.block.Some? then Some(Asked(s.block.value, s.body)) else None)
      else AskedOn(decode, front, id)
  }

  /** e says what was asked for on its stream. */
  predicate SaysIt(e: Event, asked: int -> Option<Asked>) {
    match e
    case Queued(id, data, _) => asked(id).Some? && data == asked(id).value.body
    case Sent(Headers(_, id, _, endStream, _, _, payload)) =>
      asked(id).Some? && payload == asked(id).value.block && (endStream <==> asked(id).value.body == [])
    case _ => true
  }

  ghost predicate AllSay(log: seq<Event>, asked: int -> Option<Asked>) {
    forall k :: 0 <= k < |log| ==> SaysIt(log[k], asked)
  }

  lemma ReactionsSay(m: Manager, r: Manager, promised: int, asked: int -> Option<Asked>)
    requires Reacts(m, r, promised, true) && AllSay(m.log, asked)
    ensures AllSay(r.log, asked)
  {
    forall k | 0 <= k < |r.log|
      ensures SaysIt(r.log[k], asked)
    {
      if k < |m.log| {
        assert r.log[k] == m.log[k];
      } else {
        assert Reaction(r.log[k], promised, true);
      }
    }
  }

  lemma TornDownSays(w: World, cause: Cause, asked: int -> Option<Asked>)
    requires AllSay(w.manager.log, asked)
    ensures AllSay(TornDown(w, cause).manager.log, asked)
  {
    AbortReacts(w.manager, Aborted(cause), 0, true);
    ReactionsSay(w.manager, AfterAbortAll(w.manager, Aborted(cause)), 0, asked);
  }

  lemma OtherStepsSay(decode: Decoder, w: World, s: ConnectionSteps.Step, asked: int -> Option<Asked>)
    requires AllSay(w.manager.log, asked) && !(s.OpenRequest? && s.i < |w.pool.granted|)
    ensures AllSay(Next(decode, w, s).manager.log, asked)
  {
    match s
    case Receive(f) =>
      DispatchReacts(decode, w.manager, f);
      var o := AfterDispatch(decode, w.manager, f);
      ReactionsSay(w.manager, o.manager, PromisedBy(f), asked);
      if o.thrown.Some? {
        TornDownSays(Broken(Heard(w, o.manager), HeaderFailure(o.thrown.value)), HeaderFailure(o.thrown.value), asked);
      }
    case Fail(cause) => TornDownSays(Broken(w, cause), cause, asked);
    case Close => TornDownSays(WithSent(w, Goaway(0, 0, 0, 0, [])), ConnectionClosed, asked);
    case _ =>
  }

  lemma QueuedHasHead(log: seq<Event>, k: nat)
    requires WellPlaced(log) && k < |log| && log[k].Queued?
    ensures HasHead(log, log[k].id)
  {
    assert Placed(log, k) && IsHead(log[k - 1], log[k].id);
  }

  /** Nothing was said yet on a stream that is yet to be opened. */
  lemma FreshIsSilent(m: Manager, k: nat)
    requires Good(m) && WellPlaced(m.log) && k < |m.log|
    ensures !IsHead(m.log[k], m.nextId) && !(m.log[k].Queued? && m.log[k].id == m.nextId)
  {
    FreshHasNoHead(m);
    if m.log[k].Queued? {
      QueuedHasHead(m.log, k);
    }
  }

  lemma RequestedSays(m: Manager, block: Option<Bytes>, body: Bytes, asked: int -> Option<Asked>)
    requires AllSay(m.log, asked) && (block.Some? ==> asked(m.nextId) == Some(Asked(block.value, body)))
    ensures AllSay(Requested(m, block, body).log, asked)
  {
    if block.None? || body == [] {
      assert Requested(m, block, body).log == m.log + RequestEvents(m, block, body);
    } else {
      var n := Enqueue(Headed(m, block.value, body), m.nextId, body, true);
      assert n.log == m.log + RequestEvents(m, block, body);
      DrainedReacts(n, m.nextId, 0, true);
      ReactionsSay(n, Drained(n, m.nextId), 0, asked);
    }
  }

  lemma OpenedSays(w: World, i: nat, block: Option<Bytes>, body: Bytes, before: int -> Option<Asked>,
                   after: int -> Option<Asked>)
    requires Consistent(w) && WellPlaced(w.manager.log) && AllSay(w.manager.log, before) && i < |w.pool.granted|
    requires forall id :: id != w.manager.nextId ==> after(id) == before(id)
    requires !TooLate(w) && block.Some? ==> after(w.manager.nextId) == Some(Asked(block.value, body))
    ensures AllSay(WithRequest(w, i, block, body).manager.log, after)
  {
    var m := w.manager;
    forall k | 0 <= k < |m.log|
      ensures SaysIt(m.log[k], after)
    {
      FreshIsSilent(m, k);
      assert SaysIt(m.log[k], before);
    }
    if !TooLate(w) {
      RequestedSays(m, block, body, after);
    }
  }

  function AskedFor(decode: Decoder, steps: seq<ConnectionSteps.Step>): int -> Option<Asked> {
    id => AskedOn(decode, steps, id)
  }

  lemma SameSays(log: seq<Event>, a: int -> Option<Asked>, b: int -> Option<Asked>)
    requires AllSay(log, a) && forall id :: b(id) == a(id)
    ensures AllSay(log, b)
  {
    forall k | 0 <= k < |log|
      ensures SaysIt(log[k], b)
    {
      assert SaysIt(log[k], a);
    }
  }

  /** After any polite run all that went out or was queued is what was asked for. */
  lemma {:induction false} RunSays(decode: Decoder, steps: seq<ConnectionSteps.Step>)
    requires ConnectionSteps.PoliteRun(decode, steps)
    ensures AllSay(ConnectionSteps.Run(decode, steps).manager.log, AskedFor(decode, steps))
  {
    if steps == [] {
    } else {
      var front, s := steps[..|steps| - 1], steps[|steps| - 1];
      var w := ConnectionSteps.Run(decode, front);
      var before, after := AskedFor(decode, front), AskedFor(decode, steps);
      RunSays(decode, front);
      RunConsistent(decode, front);
      RunPlaced(decode, front);
      if s.OpenRequest? && s.i < |w.pool.granted| {
        OpenedSays(w, s.i, s.block, s.body, before, after);
      } else {
        assert forall id :: after(id) == before(id);
        OtherStepsSay(decode, w, s, before);
        SameSays(Next(decode, w, s).manager.log, before, after);
      }
    }
  }

  /** The head of a stream carries the block of the request that opened it, and ends it if there is no body. */
  lemma HeadSaysBlock(decode: Decoder, steps: seq<ConnectionSteps.Step>, j: nat, id: int)
    requires ConnectionSteps.PoliteRun(decode, steps)
    ensures var log, asked := ConnectionSteps.Run(decode, steps).manager.log, AskedOn(decode, steps, id);
            j < |log| && IsHead(log[j], id) ==>
              && asked.Some? && log[j].frame.payload == asked.value.block
              && (log[j].frame.endStream <==> asked.value.body == [])
  {
    RunSays(decode, steps);
    var log := ConnectionSteps.Run(decode, steps).manager.log;
    if j < |log| && IsHead(log[j], id) {
      assert SaysIt(log[j], AskedFor(decode, steps));
    }
  }

  /**
   * So the peer, decoding it by itself, reads the headers of the request, names lower-cased, if its
   * strings survive.
   */
  lemma HeadIsReadable(decode: Decoder, steps: seq<ConnectionSteps.Step>, j: nat, id: int,
                       headers: seq<StaticTable.Entry>, o: EncodeOptions)
    requires ConnectionSteps.PoliteRun(decode, steps) && CanEncode(headers, o) && AllCarriedFor(headers, o)
    requires var asked := AskedOn(decode, steps, id); asked.Some? && BlockFor(headers, o) == Ok(asked.value.block)
    ensures var log := ConnectionSteps.Run(decode, steps).manager.log;
            j < |log| && IsHead(log[j], id) ==> HeadersOf(log[j].frame.payload) == Ok(Lowered(headers))
  {
    HeadSaysBlock(decode, steps, j, id);
    HeadersRoundTrip(headers, o);
  }

  // ----- the body of a request -----

  /** Nothing is queued on the stream between log and more, and it is not opened anew. */
  lemma {:induction false} QueuedStays(log: seq<Event>, more: seq<Event>, id: int)
    requires log <= more
    requires forall k :: |log| <= k < |more| ==>
             !StreamLaws.Begins(more[k], id) && !(more[k].Queued? && more[k].id == id)
    ensures StreamLaws.QueuedOn(more, id) == StreamLaws.QueuedOn(log, id)
    decreases |more|
  {
    if |more| == |log| {
      assert more == log;
    } else {
      var front := more[..|more| - 1];
      assert !StreamLaws.Begins(more[|front|], id) && !(more[|front|].Queued? && more[|front|].id == id);
      QueuedStays(log, front, id);
      assert StreamLaws.QueuedOn(front, id) + [] == StreamLaws.QueuedOn(front, id);
    }
  }

  function BodyOf(asked: Option<Asked>): Bytes {
    if asked.Some? then asked.value.body else []
  }

  /** What was queued on a client stream is the body asked for. */
  ghost predicate BodiesQueued(log: seq<Event>, asked: int -> Option<Asked>) {
    forall id :: Odd(id) ==> StreamLaws.QueuedOn(log, id) == BodyOf(asked(id))
  }

  lemma ReactionsQueueNothing(m: Manager, r: Manager, promised: int, asked: int -> Option<Asked>)
    requires Reacts(m, r, promised, true) && !Odd(promised) && BodiesQueued(m.log, asked)
    ensures BodiesQueued(r.log, asked)
  {
    forall id | Odd(id)
      ensures StreamLaws.QueuedOn(r.log, id) == BodyOf(asked(id))
    {
      assert forall k :: |m.log| <= k < |r.log| ==> Reaction(r.log[k], promised, true);
      QueuedStays(m.log, r.log, id);
    }
  }

  lemma SentQueuesNothing(m: Manager, f: Frame, asked: int -> Option<Asked>)
    requires BodiesQueued(m.log, asked)
    ensures BodiesQueued(m.log + [Sent(f)], asked)
  {
    forall id | Odd(id)
      ensures StreamLaws.QueuedOn(m.log + [Sent(f)], id) == BodyOf(asked(id))
    {
      QueuedStays(m.log, m.log + [Sent(f)], id);
    }
  }

  lemma TornDownQueuesNothing(w: World, cause: Cause, asked: int -> Option<Asked>)
    requires BodiesQueued(w.manager.log, asked)
    ensures BodiesQueued(TornDown(w, cause).manager.log, asked)
  {
    AbortReacts(w.manager, Aborted(cause), 0, true);
    ReactionsQueueNothing(w.manager, AfterAbortAll(w.manager, Aborted(cause)), 0, asked);
  }

  lemma ReceivedQueuesNothing(decode: Decoder, w: World, f: Frame, asked: int -> Option<Asked>)
    requires ConnectionSteps.Polite(w, Receive(f)) && BodiesQueued(w.manager.log, asked)
    ensures BodiesQueued(Received(decode, w, f).manager.log, asked)
  {
    var o := AfterDispatch(decode, w.manager, f);
    assert BodiesQueued(o.manager.log, asked) && w.manager.log <= o.manager.log by {
      DispatchReacts(decode, w.manager, f);
      assert !Odd(PromisedBy(f));
      ReactionsQueueNothing(w.manager, o.manager, PromisedBy(f), asked);
    }
    if o.thrown.Some? {
      var cause := HeaderFailure(o.thrown.value);
      TornDownQueuesNothing(Broken(Heard(w, o.manager), cause), cause, asked);
    }
  }

  lemma OthersQueueNothing(decode: Decoder, w: World, s: ConnectionSteps.Step, asked: int -> Option<Asked>)
    requires ConnectionSteps.Polite(w, s) && BodiesQueued(w.manager.log, asked)
    requires !(s.OpenRequest? && s.i < |w.pool.granted|)
    ensures BodiesQueued(Next(decode, w, s).manager.log, asked)
  {
    match s
    case Receive(f) => ReceivedQueuesNothing(decode, w, f, asked);
    case Fail(cause) => TornDownQueuesNothing(Broken(w, cause), cause, asked);
    case SendGoaway(last, errorCode, debugData) =>
      SentQueuesNothing(w.manager, Goaway(0, 0, last, errorCode, debugData), asked);
    case Close =>
      SentQueuesNothing(w.manager, Goaway(0, 0, 0, 0, []), asked);
      TornDownQueuesNothing(WithSent(w, Goaway(0, 0, 0, 0, [])), ConnectionClosed, asked);
    case _ =>
  }

  /** The events of a request leave its body queued on its stream, and other streams alone. */
  lemma QueuedLast(log: seq<Event>, id: int, body: Bytes)
    requires StreamLaws.QueuedOn(log, id) == []
    ensures StreamLaws.QueuedOn(log + [Queued(id, body, true)], id) == body
  {
    assert (log + [Queued(id, body, true)])[..|log|] == log;
    assert [] + body == body;
  }

  lemma RequestQueues(m: Manager, block: Option<Bytes>, body: Bytes, id: int)
    ensures StreamLaws.QueuedOn(m.log + RequestEvents(m, block, body), id) ==
            if id != m.nextId then StreamLaws.QueuedOn(m.log, id) else if block.Some? then body else []
  {
    var id0, log := m.nextId, m.log;
    var begun := log + [Event.Opened(id0, m.initialWindow)];
    var whole := log + RequestEvents(m, block, body);
    assert begun[..|log|] == log;
    if id != id0 {
      QueuedStays(log, whole, id);
    } else if block.None? || body == [] {
      QueuedStays(begun, whole, id);
    } else {
      var head := whole[..|log| + 3];
      QueuedStays(begun, head, id);
      assert whole == head + [Queued(id0, body, true)];
      QueuedLast(head, id0, body);
    }
  }

  lemma RequestedQueues(m: Manager, block: Option<Bytes>, body: Bytes, before: int -> Option<Asked>,
                        after: int -> Option<Asked>)
    requires BodiesQueued(m.log, before) && forall id :: id != m.nextId ==> after(id) == before(id)
    requires after(m.nextId) == if block.Some? then Some(Asked(block.value, body)) else None
    ensures BodiesQueued(Requested(m, block, body).log, after)
  {
    var log := m.log + RequestEvents(m, block, body);
    forall id | Odd(id)
      ensures StreamLaws.QueuedOn(log, id) == BodyOf(after(id))
    {
      RequestQueues(m, block, body, id);
    }
    if block.None? || body == [] {
      assert Requested(m, block, body).log == log;
    } else {
      var n := Enqueue(Headed(m, block.value, body), m.nextId, body, true);
      assert n.log == log;
      DrainedReacts(n, m.nextId, 0, true);
      ReactionsQueueNothing(n, Drained(n, m.nextId), 0, after);
    }
  }

  lemma LateQueues(m: Manager, before: int -> Option<Asked>, after: int -> Option<Asked>)
    requires BodiesQueued(m.log, before) && forall id :: id != m.nextId ==> after(id) == before(id)
    requires after(m.nextId) == None
    ensures BodiesQueued(AfterOpen(m).log, after)
  {
    var log := m.log + [Event.Opened(m.nextId, m.initialWindow)];
    forall id | Odd(id)
      ensures StreamLaws.QueuedOn(log, id) == BodyOf(after(id))
    {
      assert log[..|m.log|] == m.log;
      if id != m.nextId {
        QueuedStays(m.log, log, id);
      }
    }
  }

  lemma SameQueued(log: seq<Event>, a: int -> Option<Asked>, b: int -> Option<Asked>)
    requires BodiesQueued(log, a) && forall id :: b(id) == a(id)
    ensures BodiesQueued(log, b)
  {
  }

  /** After any polite run what was queued on a client stream is the body of the request that opened it. */
  lemma {:induction false} RunQueues(decode: Decoder, steps: seq<ConnectionSteps.Step>)
    requires ConnectionSteps.PoliteRun(decode, steps)
    ensures BodiesQueued(ConnectionSteps.Run(decode, steps).manager.log, AskedFor(decode, steps))
  {
    if steps == [] {
    } else {
      var front, s := steps[..|steps| - 1], steps[|steps| - 1];
      var w := ConnectionSteps.Run(decode, front);
      var before, after := AskedFor(decode, front), AskedFor(decode, steps);
      RunQueues(decode, front);
      if s.OpenRequest? && s.i < |w.pool.granted| {
        if TooLate(w) {
          LateQueues(w.manager, before, after);
        } else {
          RequestedQueues(w.manager, s.block, s.body, before, after);
        }
      } else {
        OthersQueueNothing(decode, w, s, before);
        SameQueued(Next(decode, w, s).manager.log, before, after);
      }
    }
  }

  /** What went out as DATA on a live client stream and what still waits make up the body of its request. */
  lemma BodyGoesOut(decode: Decoder, steps: seq<ConnectionSteps.Step>, id: int)
    requires ConnectionSteps.PoliteRun(decode, steps)
    ensures var m := ConnectionSteps.Run(decode, steps).manager;
            id in m.streams && Odd(id) ==>
              StreamLaws.SentOn(m.log, id) + m.streams[id].sendQueue == BodyOf(AskedOn(decode, steps, id))
  {
    var m := ConnectionSteps.Run(decode, steps).manager;
    RunConsistent(decode, steps);
    RunQueues(decode, steps);
    if id in m.streams && Odd(id) {
      assert Tracked(m, Replay(m.log), id);
      StreamLaws.AccountsAreSums(m.log, id);
      assert StreamLaws.QueuedOn(m.log, id) == BodyOf(AskedFor(decode, steps)(id));
    }
  }

  // ----- the form of the frames -----

  /** The numbers of a frame fit their places on the wire. */
  predicate Fits(f: Frame) {
    0 <= f.streamId < 0x8000_0000 &&
    match f
    case Data(_, _, payload) => |payload| < 0x100_0000
    case Headers(_, _, _, _, _, _, payload) => |payload| < 0x100_0000
    case Ping(_, _, _, opaqueData) => 0 <= opaqueData < 0x1_0000_0000_0000_0000
    case Goaway(_, _, last, errorCode, debugData) =>
      0 <= last < 0x8000_0000 && 0 <= errorCode < 0x1_0000_0000 && 8 + |debugData| < 0x100_0000
    case WindowUpdate(_, _, increment) => 0 <= increment < 0x8000_0000
    case _ => true
  }

  lemma LegalIsCanonical(v: View, f: Frame)
    requires LegalFrame(v, f) && Fits(f)
    ensures Canonical(f)
  {
    assert !PaddedBit(4) && !PaddedBit(5) && EndHeadersBit(4) && EndHeadersBit(5);
    assert EndStreamBit(5) && !EndStreamBit(4) && AckBit(1);
  }

  /** Every frame that goes out in a polite run, its numbers fitting, is canonical: the peer parses it as it is here. */
  lemma SentIsCanonical(decode: Decoder, steps: seq<ConnectionSteps.Step>, k: nat, greaseId: nat)
    requires ConnectionSteps.PoliteRun(decode, steps)
    ensures var log := ConnectionSteps.Run(decode, steps).manager.log;
            k < |log| && log[k].Sent? && Fits(log[k].frame) ==>
              Canonical(log[k].frame) && Parse(Serialize(log[k].frame, greaseId)) == Ok(log[k].frame)
  {
    var log := ConnectionSteps.Run(decode, steps).manager.log;
    RunConsistent(decode, steps);
    if k < |log| && log[k].Sent? && Fits(log[k].frame) {
      LegalAt(log, k);
      LegalIsCanonical(Replay(log[..k]), log[k].frame);
      FrameRoundTrip(log[k].frame, greaseId);
    }
  }

  // ----- the end of the connection -----

  lemma {:induction false} HearsGoaway(p: Pool, events: seq<Event>, k: nat)
    requires k < |events| && events[k].GoawayIn?
    ensures Notified(p, events).closing
  {
    var front := events[..|events| - 1];
    if k == |front| {
    } else {
      HearsGoaway(p, front, k);
    }
  }

  /** A GOAWAY from the peer ends the taking in of requests; so does one of our own, which says what it was given. */
  lemma GoawayCloses(decode: Decoder, w: World, f: Frame, last: int, errorCode: int, debugData: Bytes)
    ensures f.Goaway? ==> Received(decode, w, f).pool.closing
    ensures var r := Next(decode, w, SendGoaway(last, errorCode, debugData));
            && r.pool == w.pool.(closing := true)
            && r.manager == w.manager.(log := w.manager.log + [Sent(Goaway(0, 0, last, errorCode, debugData))])
  {
    if f.Goaway? {
      var m := AfterDispatch(decode, w.manager, f).manager;
      GoawaySaysWhy(decode, w.manager, f);
      var events := m.log[|w.manager.log|..];
      assert events[0] == GoawayIn(f.lastStreamId, f.errorCode, f.debugData);
      HearsGoaway(w.pool, events, 0);
    }
  }

  /** What was logged since w was rejected for this cause, if it was rejected. */
  ghost predicate RejectsFor(w: World, r: World, cause: Cause) {
    w.manager.log <= r.manager.log &&
    forall k :: |w.manager.log| <= k < |r.manager.log| && r.manager.log[k].Rejected? ==>
      r.manager.log[k].error == Aborted(cause)
  }

  lemma {:induction false} ClosingStays(p: Pool, events: seq<Event>)
    requires p.closing
    ensures Notified(p, events).closing
  {
    if events == [] {
    } else {
      ClosingStays(p, events[..|events| - 1]);
    }
  }

  /** A fatal error closes the connection and is what every request in flight is rejected with. */
  lemma FatalSaysWhy(decode: Decoder, w: World, cause: Cause)
    requires !w.pool.closed
    ensures var r := Next(decode, w, Fail(cause)); r.pool.closed && r.pool.closing && RejectsFor(w, r, cause)
  {
    AbortSaysWhy(w.manager, Aborted(cause));
    ClosingStays(w.pool.(closing := true), AbortedManager(w.manager, cause).log[|w.manager.log|..]);
  }

  /**
   * Closing says GOAWAY, with no stream and no error, and then rejects with the reason that the
   * connection is closed.
   */
  lemma CloseSaysGoaway(decode: Decoder, w: World)
    requires !w.pool.closed
    ensures var r, n := Next(decode, w, Close), |w.manager.log|;
            && r.pool.closed && w.manager.log <= r.manager.log && |r.manager.log| > n
            && r.manager.log[n] == Sent(Goaway(0, 0, 0, 0, []))
            && forall k :: n < k < |r.manager.log| && r.manager.log[k].Rejected? ==>
                 r.manager.log[k].error == Aborted(ConnectionClosed)
  {
    AbortSaysWhy(WithSent(w, Goaway(0, 0, 0, 0, [])).manager, Aborted(ConnectionClosed));
  }

  /** Headers that cannot be decoded close the connection. */
  lemma UndecodableCloses(decode: Decoder, w: World, f: Frame)
    requires f.Headers? && f.endHeaders && f.streamId in w.manager.streams
    requires decode(w.manager.streams[f.streamId].pendingHeaderBytes + f.payload).Err?
    ensures Received(decode, w, f).pool.closed
  {
    UndecodableIsThrown(decode, w.manager, f);
  }
}
