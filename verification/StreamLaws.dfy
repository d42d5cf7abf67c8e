/** What the legality of a log means over the whole of it. */
module StreamLaws {
  import opened Bits
  import opened Results
  import opened Frames
  import opened StreamTypes
  import opened StreamProtocol

  // ----- windows -----

  function ConnectionCredits(log: seq<Event>): int {
    if log == [] then 0
    else
      var last := log[|log| - 1];
      ConnectionCredits(log[..|log| - 1]) + (if last.ConnectionCredit? then last.increment else 0)
  }

  function OctetsOf(e: Event): nat {
    match e
    case Sent(Data(_, _, payload)) => |payload|
    case _ => 0
  }

  /** The octets of all DATA frames sent. */
  function OctetsSent(log: seq<Event>): nat {
    if log == [] then 0 else OctetsSent(log[..|log| - 1]) + OctetsOf(log[|log| - 1])
  }

  predicate CreditsAreNatural(log: seq<Event>) {
    forall k :: 0 <= k < |log| && log[k].ConnectionCredit? ==> log[k].increment >= 0
  }

  /** The connection window is what it started with and was given, less what was sent, and never negative. */
  lemma {:induction false} ConnectionWindow(log: seq<Event>)
    requires LegalLog(log)
    ensures Replay(log).sendWindow == 65535 + ConnectionCredits(log) - OctetsSent(log)
    ensures CreditsAreNatural(log) ==> Replay(log).sendWindow >= 0
  {
    if log == [] {
    } else {
      var front, e := log[..|log| - 1], log[|log| - 1];
      ConnectionWindow(front);
      assert CreditsAreNatural(log) ==> CreditsAreNatural(front);
      assert Legal(Replay(front), e);
    }
  }

  predicate Begins(e: Event, id: int) {
    e.Opened? && e.id == id
  }

  /** The increments given to a stream since it was opened. */
  function CreditsOn(log: seq<Event>, id: int): int {
    if log == [] then 0
    else
      var last := log[|log| - 1];
      if Begins(last, id) then 0
      else CreditsOn(log[..|log| - 1], id) + (if last.StreamCredit? && last.id == id then last.increment else 0)
  }

  function InitialIn(log: seq<Event>): int {
    if log == [] then 65535
    else if log[|log| - 1].InitialWindow? then log[|log| - 1].size
    else InitialIn(log[..|log| - 1])
  }

  function FrameSizeIn(log: seq<Event>): int {
    if log == [] then 16384
    else if log[|log| - 1].MaxFrame? then log[|log| - 1].size
    else FrameSizeIn(log[..|log| - 1])
  }

  lemma {:induction false} SizesInForce(log: seq<Event>)
    ensures Replay(log).initialWindow == InitialIn(log) && Replay(log).maxFrame == FrameSizeIn(log)
  {
    if log == [] {
    } else {
      SizesInForce(log[..|log| - 1]);
    }
  }

  /** The window a stream was opened with, less the initial window then in force: zero for client streams. */
  function HeadStart(log: seq<Event>, id: int): int {
    if log == [] then 0
    else
      var front, last := log[..|log| - 1], log[|log| - 1];
      if Begins(last, id) then last.window - InitialIn(front) else HeadStart(front, id)
  }

  lemma {:induction false} ClientsHaveNoHeadStart(log: seq<Event>, id: int)
    requires LegalLog(log) && Odd(id)
    ensures HeadStart(log, id) == 0
  {
    if log == [] {
    } else {
      var front, e := log[..|log| - 1], log[|log| - 1];
      SizesInForce(front);
      assert Legal(Replay(front), e);
      ClientsHaveNoHeadStart(front, id);
    }
  }

  /** A stream opened by the peer began with 65535, whatever the initial window was. */
  lemma {:induction false} PromisedHeadStart(log: seq<Event>, id: int)
    requires LegalLog(log) && !Odd(id) && id in Replay(log).accounts
    ensures exists k :: 0 <= k < |log| && Begins(log[k], id) &&
                        HeadStart(log, id) == 65535 - InitialIn(log[..k])
  {
    if log == [] {
    } else {
      var front, e := log[..|log| - 1], log[|log| - 1];
      assert Legal(Replay(front), e);
      if Begins(e, id) {
        assert Begins(log[|front|], id) && log[..|front|] == front;
      } else {
        PromisedHeadStart(front, id);
        var k :| 0 <= k < |front| && Begins(front[k], id) &&
                 HeadStart(front, id) == 65535 - InitialIn(front[..k]);
        assert log[k] == front[k] && log[..k] == front[..k];
      }
    }
  }

  /**
   * However often SETTINGS changes it, the window of a stream is the initial window in force,
   * its head start and what it was given, less what it sent.
   */
  lemma {:induction false} StreamWindow(log: seq<Event>, id: int)
    requires LegalLog(log) && Live(Replay(log), id)
    ensures var v := Replay(log);
            Window(v, id) == v.initialWindow + HeadStart(log, id) + CreditsOn(log, id) - |v.accounts[id].sent|
  {
    if log == [] {
    } else {
      var front, e := log[..|log| - 1], log[|log| - 1];
      assert Legal(Replay(front), e);
      SizesInForce(front);
      if !Begins(e, id) {
        assert Live(Replay(front), id);
        StreamWindow(front, id);
      }
    }
  }

  /** Everything sent was queued, in order. */
  lemma {:induction false} SentWasQueued(log: seq<Event>, id: int)
    requires LegalLog(log) && id in Replay(log).accounts
    ensures Replay(log).accounts[id].sent <= Replay(log).accounts[id].queued
  {
    if log == [] {
    } else {
      var front, e := log[..|log| - 1], log[|log| - 1];
      assert Legal(Replay(front), e);
      if !Begins(e, id) {
        SentWasQueued(front, id);
        var a, b := Replay(front).accounts[id], Replay(log).accounts[id];
        assert a.queued <= b.queued;
      }
    }
  }

  /**
   * When a stream is not held up, it has sent the least of what was queued, what the
   * connection had left for it, and what it was itself allowed, whatever the order of events.
   */
  lemma SentIsTheMinimum(log: seq<Event>, id: int)
    requires LegalLog(log) && Odd(id) && Live(Replay(log), id) && CreditsAreNatural(log)
    requires var v := Replay(log);
             Window(v, id) >= 0 &&
             (v.accounts[id].sent == v.accounts[id].queued || v.sendWindow <= 0 || Window(v, id) <= 0)
    ensures var v := Replay(log);
            var sent := |v.accounts[id].sent|;
            var others := OctetsSent(log) - sent;
            sent == Min(|v.accounts[id].queued|, Min(65535 + ConnectionCredits(log) - others,
                                                     v.initialWindow + CreditsOn(log, id)))
  {
    ConnectionWindow(log);
    StreamWindow(log, id);
    ClientsHaveNoHeadStart(log, id);
    SentWasQueued(log, id);
  }

  /** SETTINGS never lowers the initial window. */
  predicate NeverShrinks(log: seq<Event>) {
    forall k :: 0 <= k < |log| && log[k].InitialWindow? ==> log[k].size >= InitialIn(log[..k])
  }

  predicate StreamCreditsAreNatural(log: seq<Event>) {
    forall k :: 0 <= k < |log| && log[k].StreamCredit? ==> log[k].increment >= 0
  }

  lemma UnshrunkFront(log: seq<Event>)
    requires log != [] && NeverShrinks(log) && StreamCreditsAreNatural(log)
    ensures var front, e := log[..|log| - 1], log[|log| - 1];
            && NeverShrinks(front) && StreamCreditsAreNatural(front)
            && (e.InitialWindow? ==> e.size >= InitialIn(front)) && (e.StreamCredit? ==> e.increment >= 0)
  {
    var front := log[..|log| - 1];
    assert log[|front|] == log[|log| - 1] && log[..|front|] == front;
    forall k | 0 <= k < |front| && front[k].InitialWindow?
      ensures front[k].size >= InitialIn(front[..k])
    {
      assert front[..k] == log[..k] && front[k] == log[k];
    }
  }

  /** If SETTINGS never lowers the initial window, no window is ever below zero. */
  lemma {:induction false} UnshrunkIsNatural(log: seq<Event>, id: int)
    requires LegalLog(log) && NeverShrinks(log) && StreamCreditsAreNatural(log)
    ensures Replay(log).initialWindow >= 65535
    ensures Live(Replay(log), id) ==> Window(Replay(log), id) >= 0
  {
    if log == [] {
    } else {
      var front, e := log[..|log| - 1], log[|log| - 1];
      UnshrunkFront(log);
      UnshrunkIsNatural(front, id);
      SizesInForce(front);
      assert Legal(Replay(front), e);
    }
  }

  // ----- bytes -----

  function SentOn(log: seq<Event>, id: int): Bytes {
    if log == [] then []
    else
      var last := log[|log| - 1];
      if Begins(last, id) then []
      else
        SentOn(log[..|log| - 1], id) +
        (match last case Sent(Data(_, i, payload)) => (if i == id then payload else []) case _ => [])
  }

  function QueuedOn(log: seq<Event>, id: int): Bytes {
    if log == [] then []
    else
      var last := log[|log| - 1];
      if Begins(last, id) then []
      else QueuedOn(log[..|log| - 1], id) + (if last.Queued? && last.id == id then last.data else [])
  }

  predicate EndAsked(log: seq<Event>, id: int) {
    log != [] &&
    var last := log[|log| - 1];
    !Begins(last, id) && (EndAsked(log[..|log| - 1], id) || (last.Queued? && last.id == id && last.endStream))
  }

  lemma {:induction false} AccountsAreSums(log: seq<Event>, id: int)
    requires LegalLog(log) && id in Replay(log).accounts
    ensures var a := Replay(log).accounts[id];
            a.sent == SentOn(log, id) && a.queued == QueuedOn(log, id) && a.endRequested == EndAsked(log, id)
  {
    if log == [] {
    } else {
      var front, e := log[..|log| - 1], log[|log| - 1];
      assert Legal(Replay(front), e);
      if !Begins(e, id) {
        AccountsAreSums(front, id);
        assert SentOn(front, id) + [] == SentOn(front, id) && QueuedOn(front, id) + [] == QueuedOn(front, id);
      }
    }
  }

  predicate EndsStream(e: Event, id: int) {
    match e
    case Sent(Data(flags, i, _)) => i == id && flags == 1
    case _ => false
  }

  predicate SendsOn(e: Event, id: int) {
    match e
    case Sent(Data(_, i, _)) => i == id
    case _ => false
  }

  /** A DATA frame ends its stream exactly when the end was asked for and with it all that was queued is sent. */
  lemma EndsExactly(log: seq<Event>, k: nat, id: int)
    requires LegalLog(log) && k < |log| && SendsOn(log[k], id)
    ensures EndsStream(log[k], id) <==> EndAsked(log[..k], id) && SentOn(log[..k + 1], id) == QueuedOn(log[..k], id)
  {
    LegalAt(log, k);
    AccountsAreSums(log[..k], id);
    assert log[..k + 1][..k] == log[..k];
  }

  /**
   * Every DATA frame is not empty, not too long, and fits both windows as they were when it was sent;
   * and it is as long as the frame size, the windows and what was queued allow.
   */
  lemma DataFits(log: seq<Event>, k: nat, id: int)
    requires LegalLog(log) && k < |log| && SendsOn(log[k], id)
    ensures var before, n := log[..k], OctetsOf(log[k]);
            && 1 <= n <= FrameSizeIn(before)
            && n <= 65535 + ConnectionCredits(before) - OctetsSent(before)
            && n <= InitialIn(before) + HeadStart(before, id) + CreditsOn(before, id) - |SentOn(before, id)|
            && (Odd(id) ==> HeadStart(before, id) == 0)
            && n in {FrameSizeIn(before), 65535 + ConnectionCredits(before) - OctetsSent(before),
                     InitialIn(before) + HeadStart(before, id) + CreditsOn(before, id) - |SentOn(before, id)|,
                     |QueuedOn(before, id)| - |SentOn(before, id)|}
  {
    LegalAt(log, k);
    ConnectionWindow(log[..k]);
    SizesInForce(log[..k]);
    AccountsAreSums(log[..k], id);
    StreamWindow(log[..k], id);
    if Odd(id) {
      ClientsHaveNoHeadStart(log[..k], id);
    }
  }

  // ----- settlement -----

  predicate Expects(e: Event, id: int) {
    e.Expected? && e.id == id
  }

  predicate Settles(e: Event, id: int) {
    (e.Resolved? || e.Rejected?) && e.id == id
  }

  function CountExpected(log: seq<Event>, id: int): nat {
    if log == [] then 0 else CountExpected(log[..|log| - 1], id) + Bit(Expects(log[|log| - 1], id))
  }

  function CountSettled(log: seq<Event>, id: int): nat {
    if log == [] then 0 else CountSettled(log[..|log| - 1], id) + Bit(Settles(log[|log| - 1], id))
  }

  /** Every registration is settled exactly once, or still waits. */
  lemma {:induction false} SettledOnce(log: seq<Event>, id: int)
    requires LegalLog(log)
    ensures CountExpected(log, id) == CountSettled(log, id) + Bit(id in Replay(log).awaiting)
  {
    if log == [] {
    } else {
      SettledOnce(log[..|log| - 1], id);
      assert Legal(Replay(log[..|log| - 1]), log[|log| - 1]);
    }
  }

  /** The data of a stream since it was opened, without padding. */
  function DataOf(log: seq<Event>, id: int): Bytes {
    if log == [] then []
    else
      var last := log[|log| - 1];
      if Begins(last, id) then []
      else
        DataOf(log[..|log| - 1], id) +
        (if last.DataIn? && last.id == id then Unpadded(last.flags, last.payload) else [])
  }

  lemma {:induction false} BodyIsData(log: seq<Event>, id: int)
    requires LegalLog(log)
    ensures id in Replay(log).accounts ==> Replay(log).accounts[id].body == DataOf(log, id)
    ensures id !in Replay(log).accounts ==> DataOf(log, id) == []
  {
    if log == [] {
    } else {
      var front, e := log[..|log| - 1], log[|log| - 1];
      BodyIsData(front, id);
      assert Legal(Replay(front), e);
      assert DataOf(front, id) + [] == DataOf(front, id);
    }
  }

  /** A response carries exactly the data that came in for its stream, in order. */
  lemma ResponseIsData(log: seq<Event>, k: nat)
    requires LegalLog(log) && k < |log| && log[k].Resolved?
    ensures log[k].response.body == DataOf(log[..k], log[k].id)
  {
    LegalAt(log, k);
    BodyIsData(log[..k], log[k].id);
  }

  // ----- the end of a request -----

  predicate QueuesOn(e: Event, id: int) {
    e.Queued? && e.id == id && e.data != []
  }

  predicate DrainedIn(v: View, id: int) {
    Live(v, id) ==> v.accounts[id].sent == v.accounts[id].queued
  }

  predicate Drained(log: seq<Event>, id: int) {
    DrainedIn(Replay(log), id)
  }

  /** Between k and n nothing more is queued on the stream, and it is not opened anew. */
  ghost predicate QuietSince(log: seq<Event>, k: nat, n: nat, id: int)
    requires n <= |log|
  {
    forall j :: k < j < n ==> !QueuesOn(log[j], id) && !Begins(log[j], id)
  }

  lemma QuietlyDrained(v: View, e: Event, id: int)
    requires Legal(v, e) && SendsOn(e, id)
    ensures v.accounts[id].sent != v.accounts[id].queued
  {
    var a := v.accounts[id];
    assert |a.sent + e.frame.payload| > |a.sent|;
  }

  lemma QuietEvent(v: View, e: Event, id: int)
    requires Legal(v, e) && DrainedIn(v, id) && !QueuesOn(e, id) && !Begins(e, id)
    ensures DrainedIn(Observe(v, e), id) && !SendsOn(e, id)
  {
    if SendsOn(e, id) {
      QuietlyDrained(v, e, id);
    }
  }

  lemma StaysDrained(log: seq<Event>, n: nat, id: int)
    requires LegalLog(log) && n < |log| && Drained(log[..n], id)
    requires !QueuesOn(log[n], id) && !Begins(log[n], id)
    ensures Drained(log[..n + 1], id) && !SendsOn(log[n], id)
  {
    LegalAt(log, n);
    assert log[..n + 1][..n] == log[..n];
    QuietEvent(Replay(log[..n]), log[n], id);
  }

  lemma EndDrains(log: seq<Event>, k: nat, id: int)
    requires LegalLog(log) && k < |log| && EndsStream(log[k], id)
    ensures Drained(log[..k + 1], id)
  {
    LegalAt(log, k);
    assert log[..k + 1][..k] == log[..k];
  }

  /** Once END_STREAM is out and nothing more is queued, no DATA follows it on that stream. */
  lemma {:induction false} NothingAfterEnd(log: seq<Event>, k: nat, n: nat, id: int)
    requires LegalLog(log) && k < n <= |log| && EndsStream(log[k], id) && QuietSince(log, k, n, id)
    ensures Drained(log[..n], id) && forall j :: k < j < n ==> !SendsOn(log[j], id)
    decreases n
  {
    if n - 1 > k {
      NothingAfterEnd(log, k, n - 1, id);
      StaysDrained(log, n - 1, id);
    } else {
      EndDrains(log, k, id);
    }
  }

  lemma QueuedGrows(log: seq<Event>, n: nat, id: int)
    requires n < |log| && !Begins(log[n], id)
    ensures QueuedOn(log[..n], id) <= QueuedOn(log[..n + 1], id)
    ensures SentOn(log[..n], id) <= SentOn(log[..n + 1], id)
    ensures !SendsOn(log[n], id) ==> SentOn(log[..n], id) == SentOn(log[..n + 1], id)
    ensures SendsOn(log[n], id) ==> QueuedOn(log[..n], id) == QueuedOn(log[..n + 1], id)
    ensures EndAsked(log[..n], id) ==> EndAsked(log[..n + 1], id)
  {
    assert log[..n + 1][..n] == log[..n];
  }

  /** The stream was not opened anew after q. */
  ghost predicate SameStream(log: seq<Event>, q: nat, n: nat, id: int)
    requires n <= |log|
  {
    forall j :: q <= j < n ==> !Begins(log[j], id)
  }

  ghost predicate EndedBetween(log: seq<Event>, q: nat, n: nat, id: int)
    requires n <= |log|
  {
    exists j :: q <= j < n && EndsStream(log[j], id)
  }

  lemma LegalFront(log: seq<Event>, n: nat)
    requires LegalLog(log) && n <= |log|
    ensures LegalLog(log[..n])
  {
    if n < |log| {
      LegalAt(log, n);
    } else {
      assert log[..n] == log;
    }
  }

  lemma Known(log: seq<Event>, n: nat, id: int)
    requires LegalLog(log) && n <= |log| && id in Replay(log[..n]).accounts
    ensures SentOn(log[..n], id) <= QueuedOn(log[..n], id)
  {
    LegalFront(log, n);
    AccountsAreSums(log[..n], id);
    SentWasQueued(log[..n], id);
  }

  /** The last data of all ends the stream. */
  lemma LastDataEnds(log: seq<Event>, n: nat, id: int)
    requires LegalLog(log) && n < |log| && SendsOn(log[n], id) && EndAsked(log[..n], id)
    requires SentOn(log[..n + 1], id) == QueuedOn(log[..n + 1], id)
    ensures EndsStream(log[n], id) && |SentOn(log[..n], id)| < |SentOn(log[..n + 1], id)|
  {
    QueuedGrows(log, n, id);
    EndsExactly(log, n, id);
    LegalAt(log, n);
    assert log[..n + 1][..n] == log[..n];
  }

  /** What does not send cannot be what completed the sending. */
  lemma QuietCompletesNothing(log: seq<Event>, n: nat, id: int)
    requires LegalLog(log) && n < |log| && !SendsOn(log[n], id) && !Begins(log[n], id)
    requires id in Replay(log[..n]).accounts && SentOn(log[..n + 1], id) == QueuedOn(log[..n + 1], id)
    ensures SentOn(log[..n], id) == QueuedOn(log[..n], id) == SentOn(log[..n + 1], id) && !EndsStream(log[n], id)
  {
    QueuedGrows(log, n, id);
    Known(log, n, id);
  }

  lemma StaysKnown(log: seq<Event>, n: nat, id: int)
    requires n < |log| && id in Replay(log[..n]).accounts
    ensures id in Replay(log[..n + 1]).accounts
  {
    assert log[..n + 1][..n] == log[..n];
  }

  predicate AllSent(log: seq<Event>, n: nat, id: int)
    requires n <= |log|
  {
    SentOn(log[..n], id) == QueuedOn(log[..n], id)
  }

  function SentUpTo(log: seq<Event>, n: nat, id: int): nat
    requires n <= |log|
  {
    |SentOn(log[..n], id)|
  }

  /** If all is sent by then, the stream was ended exactly if something was sent. */
  ghost predicate EndFits(log: seq<Event>, q: nat, n: nat, id: int)
    requires q <= n <= |log|
  {
    && SentUpTo(log, q, id) <= SentUpTo(log, n, id)
    && (AllSent(log, n, id) ==> (EndedBetween(log, q, n, id) <==> SentUpTo(log, q, id) < SentUpTo(log, n, id)))
  }

  lemma EndFitsSending(log: seq<Event>, q: nat, k: nat, id: int)
    requires LegalLog(log) && q <= k < |log| && SendsOn(log[k], id) && EndAsked(log[..k], id)
    requires EndFits(log, q, k, id)
    ensures EndFits(log, q, k + 1, id)
  {
    assert SentUpTo(log, k, id) <= SentUpTo(log, k + 1, id) by {
      QueuedGrows(log, k, id);
    }
    if AllSent(log, k + 1, id) {
      LastDataEnds(log, k, id);
      assert EndedBetween(log, q, k + 1, id);
    }
  }

  lemma EndedNext(log: seq<Event>, q: nat, k: nat, id: int)
    requires q <= k < |log|
    ensures EndedBetween(log, q, k + 1, id) <==> EndedBetween(log, q, k, id) || EndsStream(log[k], id)
  {
  }

  lemma EndFitsQuietly(log: seq<Event>, q: nat, k: nat, id: int)
    requires LegalLog(log) && q <= k < |log| && !SendsOn(log[k], id) && !Begins(log[k], id)
    requires id in Replay(log[..k]).accounts && EndFits(log, q, k, id)
    ensures EndFits(log, q, k + 1, id)
  {
    assert SentUpTo(log, k, id) == SentUpTo(log, k + 1, id) by {
      QueuedGrows(log, k, id);
    }
    EndedNext(log, q, k, id);
    if AllSent(log, k + 1, id) {
      QuietCompletesNothing(log, k, id);
    }
  }

  lemma NextFits(log: seq<Event>, q: nat, k: nat, id: int)
    requires LegalLog(log) && q <= k < |log| && !Begins(log[k], id)
    requires id in Replay(log[..k]).accounts && EndAsked(log[..k], id) && EndFits(log, q, k, id)
    ensures EndFits(log, q, k + 1, id)
  {
    if SendsOn(log[k], id) {
      EndFitsSending(log, q, k, id);
    } else {
      EndFitsQuietly(log, q, k, id);
    }
  }

  lemma AskedNext(log: seq<Event>, k: nat, id: int)
    requires k < |log| && !Begins(log[k], id) && id in Replay(log[..k]).accounts && EndAsked(log[..k], id)
    ensures id in Replay(log[..k + 1]).accounts && EndAsked(log[..k + 1], id)
  {
    QueuedGrows(log, k, id);
    StaysKnown(log, k, id);
  }

  lemma {:induction false} StillAsked(log: seq<Event>, q: nat, n: nat, id: int)
    requires q <= n <= |log| && id in Replay(log[..q]).accounts && EndAsked(log[..q], id)
    requires SameStream(log, q, n, id)
    ensures id in Replay(log[..n]).accounts && EndAsked(log[..n], id)
    decreases n
  {
    if n == q {
    } else {
      StillAsked(log, q, n - 1, id);
      AskedNext(log, n - 1, id);
    }
  }

  /** If anything is sent after the end was asked for, and at last everything is, the last of it ends the stream. */
  lemma {:induction false} EndGoesOut(log: seq<Event>, q: nat, n: nat, id: int)
    requires LegalLog(log) && q <= n <= |log| && id in Replay(log[..q]).accounts && EndAsked(log[..q], id)
    requires SameStream(log, q, n, id)
    ensures EndFits(log, q, n, id)
    decreases n
  {
    if n == q {
    } else {
      var k := n - 1;
      assert SameStream(log, q, k, id) && !Begins(log[k], id);
      StillAsked(log, q, k, id);
      EndGoesOut(log, q, k, id);
      NextFits(log, q, k, id);
    }
  }

  /**
   * END_STREAM goes out at all exactly if something of what was queued was still to be sent when
   * the end was first asked for, or was queued later: for a stream that has sent everything, and
   * on which the end was asked for at q.
   */
  lemma EndGoesOutExactly(log: seq<Event>, q: nat, id: int)
    requires LegalLog(log) && q < |log| && Live(Replay(log[..q]), id)
    requires log[q].Queued? && log[q].id == id && log[q].endStream
    requires SameStream(log, q, |log|, id) && SentOn(log, id) == QueuedOn(log, id)
    ensures EndedBetween(log, q, |log|, id) <==> |SentOn(log[..q], id)| < |QueuedOn(log, id)|
  {
    assert log[..q + 1][..q] == log[..q] && log[..|log|] == log;
    assert SentOn(log[..q + 1], id) == SentOn(log[..q], id) + [];
    EndGoesOut(log, q + 1, |log|, id);
    assert EndFits(log, q + 1, |log|, id) && AllSent(log, |log|, id);
    assert EndedBetween(log, q, |log|, id) <==> EndedBetween(log, q + 1, |log|, id);
  }

  // ----- identifiers -----

  lemma {:induction false} LastOpened(log: seq<Event>, i: nat)
    requires LegalLog(log) && i < |log| && log[i].Opened? && Odd(log[i].id)
    ensures log[i].id <= Replay(log).lastOpened
  {
    var front := log[..|log| - 1];
    assert Legal(Replay(front), log[|log| - 1]);
    if i == |front| {
    } else {
      LastOpened(front, i);
    }
  }

  /** Client streams are opened in ascending odd order, so none is opened twice. */
  lemma OpenedAscends(log: seq<Event>, i: nat, j: nat)
    requires LegalLog(log) && i < j < |log|
    requires log[i].Opened? && log[j].Opened? && Odd(log[i].id) && Odd(log[j].id)
    ensures log[i].id < log[j].id
  {
    LegalAt(log, j);
    LastOpened(log[..j], i);
  }

  lemma {:induction false} LastOpenedGrows(log: seq<Event>, more: seq<Event>)
    requires LegalLog(log + more)
    ensures Replay(log).lastOpened <= Replay(log + more).lastOpened
    decreases |more|
  {
    if more == [] {
      assert log + more == log;
    } else {
      var front, e := more[..|more| - 1], more[|more| - 1];
      assert (log + more)[..|log + more| - 1] == log + front;
      LastOpenedGrows(log, front);
      assert Legal(Replay(log + front), e);
    }
  }

  /** A client stream that is live and was not opened meanwhile was live all along. */
  lemma {:induction false} LivesOn(log: seq<Event>, more: seq<Event>, id: int)
    requires LegalLog(log + more) && Odd(id) && Live(Replay(log + more), id)
    requires forall k :: 0 <= k < |more| ==> !Begins(more[k], id)
    ensures Live(Replay(log), id) && forall k :: 0 <= k < |more| ==> !(more[k].StreamClosed? && more[k].id == id)
    decreases |more|
  {
    if more == [] {
      assert log + more == log;
    } else {
      var front, e := more[..|more| - 1], more[|more| - 1];
      assert (log + more)[..|log + more| - 1] == log + front;
      assert Legal(Replay(log + front), e);
      assert !Begins(more[|front|], id);
      LivesOn(log, front, id);
    }
  }

  /** What was queued was queued by somebody. */
  lemma {:induction false} QueuedBySomebody(log: seq<Event>, id: int) returns (q: nat)
    requires QueuedOn(log, id) != []
    ensures q < |log| && QueuesOn(log[q], id)
  {
    var front, e := log[..|log| - 1], log[|log| - 1];
    if QueuesOn(e, id) {
      q := |front|;
    } else {
      assert QueuedOn(log, id) == QueuedOn(front, id) + [];
      q := QueuedBySomebody(front, id);
    }
  }

  // ----- receiving -----

  function OctetsReceived(log: seq<Event>): nat {
    if log == [] then 0
    else
      var last := log[|log| - 1];
      OctetsReceived(log[..|log| - 1]) + (if last.DataIn? then |last.payload| else 0)
  }

  function CreditGiven(log: seq<Event>): int {
    if log == [] then 0
    else CreditGiven(log[..|log| - 1]) + (match log[|log| - 1] case Sent(WindowUpdate(_, 0, n)) => n case _ => 0)
  }

  /** The connection gives back exactly what came in, padding included. */
  lemma {:induction false} CreditIsReceived(log: seq<Event>)
    requires LegalLog(log)
    ensures Replay(log).received == OctetsReceived(log) && Replay(log).credited == CreditGiven(log)
  {
    if log == [] {
    } else {
      CreditIsReceived(log[..|log| - 1]);
      assert Legal(Replay(log[..|log| - 1]), log[|log| - 1]);
    }
  }

  /** The octets that came in on a stream since it was opened, padding included. */
  function TakenOn(log: seq<Event>, id: int): nat {
    if log == [] then 0
    else
      var last := log[|log| - 1];
      if Begins(last, id) then 0
      else TakenOn(log[..|log| - 1], id) + if last.DataIn? && last.id == id then |last.payload| else 0
  }

  lemma {:induction false} TakenIsSum(log: seq<Event>, id: int)
    requires LegalLog(log) && id in Replay(log).accounts
    ensures Replay(log).accounts[id].taken == TakenOn(log, id)
  {
    if log == [] {
    } else {
      var front, e := log[..|log| - 1], log[|log| - 1];
      assert Legal(Replay(front), e);
      if !Begins(e, id) {
        TakenIsSum(front, id);
      }
    }
  }

  // ----- removal -----

  /** A stream that is gone was announced. */
  lemma {:induction false} RemovalIsAnnounced(log: seq<Event>, more: seq<Event>, id: int)
    requires Live(Replay(log), id) && !Live(Replay(log + more), id)
    ensures exists k :: 0 <= k < |more| && more[k].StreamClosed? && more[k].id == id
    decreases |more|
  {
    assert more == [] ==> log + more == log;
    if more == [] {
    } else {
      var front, e := more[..|more| - 1], more[|more| - 1];
      assert (log + more)[..|log + more| - 1] == log + front;
      if Live(Replay(log + front), id) {
        assert e.StreamClosed? && e.id == id;
        assert more[|more| - 1] == e;
      } else {
        RemovalIsAnnounced(log, front, id);
        var k :| 0 <= k < |front| && front[k].StreamClosed? && front[k].id == id;
        assert more[k] == front[k];
      }
    }
  }
}
