/** What the manager says in answer, event by event. */
module StreamReplies {
  import opened Bits
  import opened Results
  import opened PrefixInteger
  import opened Frames
  import opened SettingsEntries
  import opened StreamTypes
  import opened StreamSteps
  import opened StreamProtocol
  import opened StreamInvariant
  import opened StreamRuns
  import opened StreamReactions

  // ----- answers to control frames -----

  /**
   * SETTINGS from the peer are acknowledged once, when they are in force, with no settings of our own;
   * their acknowledgement is not.
   */
  lemma SettingsAreAcknowledged(decode: Decoder, m: Manager, f: Frame)
    requires f.SettingsFrame?
    ensures var r := AfterDispatch(decode, m, f).manager;
            if f.ack then r == m.(log := m.log + [SettingsAcked])
            else
              && r.log != [] && r.log[|r.log| - 1] == Sent(SettingsFrame(0x1, 0, true, map[], None, false))
              && r.log[..|r.log| - 1] == AfterSettings(m, NaturalEntries(f.settings)).log
  {
  }

  /** A PING is answered with its own data and nothing else happens; an answer to ours is announced. */
  lemma PingIsEchoed(decode: Decoder, m: Manager, f: Frame)
    requires f.Ping?
    ensures AfterDispatch(decode, m, f).manager ==
            m.(log := m.log + [if f.ack then PingAcked(f.opaqueData) else Sent(Frame.Ping(0x1, 0, true, f.opaqueData))])
  {
  }

  /** RST_STREAM removes its stream and no other, and rejects who waits for it with its code. */
  lemma RstRemoves(decode: Decoder, m: Manager, f: Frame)
    requires f.RstStream?
    ensures var id, r := f.streamId, AfterDispatch(decode, m, f).manager;
            && r.streams == m.streams - {id}
            && r.log == m.log + if id !in m.streams then []
                                else if m.streams[id].resolver
                                then [StreamClosed(id, Normal), Rejected(id, RstStreamError(id, f.errorCode))]
                                else [StreamClosed(id, Normal)]
  {
    if f.streamId in m.streams {
      var n := Put(m, f.streamId, m.streams[f.streamId].(state := Closed(ResetByPeer(f.errorCode))));
      assert n.streams - {f.streamId} == m.streams - {f.streamId};
    } else {
      assert m.log + [] == m.log;
    }
  }

  /** PRIORITY changes nothing. */
  lemma PriorityIsIgnored(decode: Decoder, m: Manager, f: Frame)
    requires f.Priority?
    ensures AfterDispatch(decode, m, f) == Outcome(m, None)
  {
  }

  /** A response is handed out as the stream goes; that of a push is announced first. */
  lemma ResolvingSays(m: Manager, id: int)
    requires id in m.streams
    ensures var s, r := m.streams[id], MaybeResolve(m, id);
            var response := Response(s.responseHeaders, Join(s.responseChunks));
            if s.headersComplete && s.endStreamSeen && s.resolver
            then
              && r.streams == m.streams - {id}
              && r.log == m.log + (if s.isPushPromise then [PushResponse(id, response)] else []) +
                          [StreamClosed(id, Normal), Resolved(id, response)]
            else r == m
  {
    var s := m.streams[id];
    assert m.streams[id := s.(resolver := false)] - {id} == m.streams - {id};
    assert m.log + [] == m.log;
  }

  /** The octets of DATA, padding included, are given back at once: to the connection, then to the stream. */
  lemma DataIsGivenBack(decode: Decoder, m: Manager, f: Frame)
    requires f.Data? && f.streamId in m.streams
    ensures var id, n, r := f.streamId, |f.payload|, AfterDispatch(decode, m, f).manager;
            var said := m.log + [DataIn(id, f.flags, f.payload), Sent(WindowUpdate(0, 0, n))] +
                        if m.streams[id].state.Closed? then [] else [Sent(WindowUpdate(0, id, n))];
            said <= r.log && (f.flags % 2 == 0 ==> r.log == said)
  {
    var taken := TakeData(m, f.streamId, f.flags, f.payload);
    if f.flags % 2 == 1 {
      ResolvingSays(Put(taken, f.streamId, EndStream(taken.streams[f.streamId])), f.streamId);
    }
  }

  // ----- credit -----

  /** From a to b nothing was said but DATA. */
  ghost predicate SaysOnlyData(a: Manager, b: Manager) {
    a.log <= b.log && forall k :: |a.log| <= k < |b.log| ==> b.log[k].Sent? && b.log[k].frame.Data?
  }

  lemma {:induction false} DrainedSaysData(m: Manager, id: int)
    requires id in m.streams
    ensures SaysOnlyData(m, Drained(m, id))
    decreases |m.streams[id].sendQueue|
  {
    var queue := m.streams[id].sendQueue;
    if queue == [] || Cap(m, id) <= 0 {
    } else {
      DrainedSaysData(SendChunk(m, id, Min(Cap(m, id), |queue|)), id);
    }
  }

  lemma {:induction false} DrainedFromSaysData(m: Manager, i: nat)
    requires i <= |m.order|
    ensures SaysOnlyData(m, DrainedFrom(m, i))
    decreases |m.order| - i
  {
    if i == |m.order| {
    } else {
      var n := if m.order[i] in m.streams then Drained(m, m.order[i]) else m;
      if m.order[i] in m.streams {
        DrainedSaysData(m, m.order[i]);
      }
      DrainedFromSaysData(n, i + 1);
    }
  }

  /** WINDOW_UPDATE credits its stream, or the connection, with just its increment; all it sends is DATA. */
  lemma CreditIsTaken(decode: Decoder, m: Manager, f: Frame)
    requires f.WindowUpdate?
    ensures var id, r := f.streamId, AfterDispatch(decode, m, f).manager;
            if id != 0 && id !in m.streams then r == m
            else
              var credit := if id == 0 then ConnectionCredit(f.windowSizeIncrement)
              else StreamCredit(id, f.windowSizeIncrement);
              SaysOnlyData(m.(log := m.log + [credit]), r)
  {
    var id := f.streamId;
    if id == 0 {
      DrainedFromSaysData(CreditConnection(m, f.windowSizeIncrement), 0);
    } else if id in m.streams {
      DrainedSaysData(CreditStream(m, id, f.windowSizeIncrement), id);
    }
  }

  // ----- settling -----

  /** Every rejection among many gives the reason. */
  lemma {:induction false} RejectionsSayWhy(m: Manager, ids: seq<int>, last: Option<int>, err: StreamError)
    ensures var r := RejectAbove(m, ids, last, err);
            m.log <= r.log && forall k :: |m.log| <= k < |r.log| && r.log[k].Rejected? ==> r.log[k].error == err
    decreases |ids|
  {
    if ids == [] {
    } else {
      var due := ids[0] in m.streams && (last.None? || ids[0] > last.value);
      var n := if due then Reject(m, ids[0], err) else m;
      assert m.log <= n.log && forall k :: |m.log| <= k < |n.log| && n.log[k].Rejected? ==> n.log[k].error == err;
      RejectionsSayWhy(n, ids[1..], last, err);
    }
  }

  /** GOAWAY is announced as it came, and whoever is rejected for it learns all that it says. */
  lemma GoawaySaysWhy(decode: Decoder, m: Manager, f: Frame)
    requires f.Goaway?
    ensures var r := AfterDispatch(decode, m, f).manager;
            && m.log + [GoawayIn(f.lastStreamId, f.errorCode, f.debugData)] <= r.log
            && forall k :: |m.log| < k < |r.log| && r.log[k].Rejected? ==>
                 r.log[k].error == GoawayError(f.lastStreamId, f.errorCode, f.debugData)
  {
    RejectionsSayWhy(Log(m, [GoawayIn(f.lastStreamId, f.errorCode, f.debugData)]), m.order, Some(f.lastStreamId),
                     GoawayError(f.lastStreamId, f.errorCode, f.debugData));
  }

  lemma AbortSaysWhy(m: Manager, err: StreamError)
    ensures var r := AfterAbortAll(m, err);
            m.log <= r.log && forall k :: |m.log| <= k < |r.log| && r.log[k].Rejected? ==> r.log[k].error == err
  {
    RejectionsSayWhy(m, m.order, None, err);
  }

  /** Who asks for the response of a stream that is gone is refused at once, with code 1; else they wait. */
  lemma ExpectingSays(m: Manager, id: int)
    ensures var r := AfterExpect(m, id);
            if id in m.streams
            then r == m.(streams := m.streams[id := m.streams[id].(resolver := true)], log := m.log + [Expected(id)])
            else r == m.(log := m.log + [Expected(id), Rejected(id, RstStreamError(id, 1))])
  {
  }

  // ----- pushes -----

  /** A promise opens a stream reserved by the peer, and is announced with its headers once they can be decoded. */
  lemma PromiseSays(decode: Decoder, m: Manager, f: Frame)
    requires f.PushPromise?
    ensures var o, id := AfterDispatch(decode, m, f), f.promisedStreamId;
            && id in o.manager.streams && o.manager.streams[id].state == RemoteReserved
            && o.manager.streams[id].isPushPromise && !o.manager.streams[id].resolver
            && (if !f.endHeaders then
                  && o.thrown == None && o.manager.log == m.log + [Opened(id, 65535)]
                  && o.manager.streams[id].pendingHeaderBytes == f.payload
                else
                  match decode(f.payload)
                  case Ok(headers) =>
                    o.thrown == None && o.manager.log == m.log + [Opened(id, 65535), Push(id, headers)]
                  case Err(e) => o.thrown == Some(e) && o.manager.log == m.log + [Opened(id, 65535)])
  {
    assert [] + f.payload == f.payload;
  }

  /** What cannot be decoded is thrown, with the error; nothing is said then. */
  lemma UndecodableIsThrown(decode: Decoder, m: Manager, f: Frame)
    requires f.Headers? && f.endHeaders && f.streamId in m.streams
    ensures var o, block := AfterDispatch(decode, m, f), m.streams[f.streamId].pendingHeaderBytes + f.payload;
            match decode(block)
            case Err(e) => o.thrown == Some(e) && o.manager.log == m.log
            case Ok(_) => o.thrown == None
  {
  }
}
