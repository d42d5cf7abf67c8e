/**
 * What an observer at the border of the manager can work out from the events alone, and
 * which event may come next: flow control, delivery and settlement as sections 5.1, 6.9 and
 * 8.1 of RFC 7540 and the documentation of the manager promise them.
 */
module StreamProtocol {
  import opened Bits
  import opened Frames
  import opened StreamTypes

  /** base is the send window less the initial window in force. */
  datatype Account = Account(live: bool, base: int, queued: Bytes, sent: Bytes, endRequested: bool, owed: int,
                             taken: nat, body: Bytes)

  datatype View = View(
    sendWindow: int,
    initialWindow: int,
    maxFrame: int,
    received: int,
    credited: int,
    accounts: map<int, Account>,
    awaiting: set<int>,
    lastOpened: int)

  const START: View := View(65535, 65535, 16384, 0, 0, map[], {}, -1)

  predicate Live(v: View, id: int) {
    id in v.accounts && v.accounts[id].live
  }

  function With(v: View, id: int, a: Account): View {
    v.(accounts := v.accounts[id := a])
  }

  function ObserveSent(v: View, f: Frame): View {
    match f
    case Data(_, id, payload) =>
      if Live(v, id) then
        var a := v.accounts[id];
        With(v, id, a.(base := a.base - |payload|, sent := a.sent + payload)).(sendWindow := v.sendWindow - |payload|)
      else v
    case WindowUpdate(_, id, n) =>
      if id == 0 then v.(credited := v.credited + n)
      else if Live(v, id) then With(v, id, v.accounts[id].(owed := v.accounts[id].owed - n))
      else v
    case _ => v
  }

  function Observe(v: View, e: Event): View {
    match e
    case Opened(id, window) =>
      With(v, id, Account(true, window - v.initialWindow, [], [], false, 0, 0, []))
        .(lastOpened := if Odd(id) then id else v.lastOpened)
    case ConnectionCredit(n) => v.(sendWindow := v.sendWindow + n)
    case StreamCredit(id, n) => if Live(v, id) then With(v, id, v.accounts[id].(base := v.accounts[id].base + n)) else v
    case InitialWindow(size) => v.(initialWindow := size)
    case MaxFrame(size) => v.(maxFrame := size)
    case Queued(id, data, endStream) =>
      if Live(v, id) then
        var a := v.accounts[id];
        With(v, id, a.(queued := a.queued + data, endRequested := a.endRequested || endStream))
      else v
    case DataIn(id, flags, payload) =>
      if Live(v, id) then
        var a := v.accounts[id];
        With(v, id, a.(owed := a.owed + |payload|, taken := a.taken + |payload|, body :=
                       a.body + Unpadded(flags, payload)))
          .(received := v.received + |payload|)
      else v
    case Expected(id) => v.(awaiting := v.awaiting + {id})
    case Resolved(id, _) => v.(awaiting := v.awaiting - {id})
    case Rejected(id, _) => v.(awaiting := v.awaiting - {id})
    case StreamClosed(id, _) => if Live(v, id) then With(v, id, v.accounts[id].(live := false)) else v
    case Sent(f) => ObserveSent(v, f)
    case _ => v
  }

  /** The send window of a stream. */
  function Window(v: View, id: int): int
    requires id in v.accounts
  {
    v.initialWindow + v.accounts[id].base
  }

  predicate LegalFrame(v: View, f: Frame) {
    match f
    case Data(flags, id, payload) =>
      // It fits both windows and the frame size and is as long as they and the queue allow, is
      // next of what was queued, and ends the stream exactly when the end was asked for and nothing is left.
      && Live(v, id)
      && 1 <= |payload| <= v.maxFrame && |payload| <= v.sendWindow && |payload| <= Window(v, id)
      && |payload| in {v.maxFrame, v.sendWindow, Window(v, id), |v.accounts[id].queued| - |v.accounts[id].sent|}
      && v.accounts[id].sent + payload <= v.accounts[id].queued
      && flags == (if v.accounts[id].endRequested &&
                   v.accounts[id].sent + payload == v.accounts[id].queued then 1 else 0)
    case WindowUpdate(flags, id, n) =>
      // Everything received is given back, to the connection and to the stream.
      flags == 0 && if id == 0 then n == v.received - v.credited else Live(v, id) && n == v.accounts[id].owed
    case Headers(flags, id, endHeaders, endStream, padded, priority, _) =>
      // A request head: whole, in front of all data.
      && Live(v, id) && v.accounts[id].queued == [] && endHeaders && !padded && priority.None?
      && flags == (if endStream then 5 else 4)
    case Goaway(flags, id, _, _, _) => flags == 0 && id == 0
    case SettingsFrame(flags, id, ack, settings, order, grease) =>
      // Only acknowledgements.
      flags == 1 && id == 0 && ack && settings == map[] && order.None? && !grease
    case Ping(flags, id, ack, _) => flags == 1 && id == 0 && ack
    case _ => false
  }

  /** e may come after events that give this view. */
  predicate Legal(v: View, e: Event) {
    match e
    case Opened(id, window) =>
      // Never twice at once; client streams ascend over the odd numbers and start with the initial window.
      !Live(v, id) && id !in v.awaiting &&
      (if Odd(id) then id > v.lastOpened && window == v.initialWindow else window == 65535)
    case MaxFrame(size) => 16384 <= size <= 16777215
    case StreamCredit(id, _) => Live(v, id)
    case Queued(id, _, _) => Live(v, id)
    case DataIn(id, _, _) => Live(v, id)
    // One callback pair at a time, and each is called once, when its stream is gone.
    case Expected(id) => id !in v.awaiting
    case Resolved(id, response) =>
      id in v.awaiting && id in v.accounts && !Live(v, id) && response.body == v.accounts[id].body
    case Rejected(id, _) => id in v.awaiting && !Live(v, id)
    case StreamClosed(id, reason) => Live(v, id) && reason == Normal
    case Sent(f) => LegalFrame(v, f)
    case _ => true
  }

  function Replay(log: seq<Event>): View {
    if log == [] then START else Observe(Replay(log[..|log| - 1]), log[|log| - 1])
  }

  predicate LegalLog(log: seq<Event>) {
    log == [] || (LegalLog(log[..|log| - 1]) && Legal(Replay(log[..|log| - 1]), log[|log| - 1]))
  }

  /** Every event was legal when it came. */
  lemma {:induction false} LegalAt(log: seq<Event>, k: nat)
    requires LegalLog(log)
    ensures k < |log| ==> LegalLog(log[..k]) && Legal(Replay(log[..k]), log[k])
  {
    if k >= |log| {
    } else if k == |log| - 1 {
      assert log[..|log| - 1] == log[..k];
    } else {
      var front := log[..|log| - 1];
      LegalAt(front, k);
      assert front[..k] == log[..k];
    }
  }
}
