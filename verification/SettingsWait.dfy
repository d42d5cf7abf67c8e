/** Waiting for the peer to acknowledge our SETTINGS (src/connection.ts:392-393, src/connection.ts:500-518). */
module SettingsWait {
  import opened Results
  import opened StreamTypes

  datatype Outcome = Acknowledged | TimedOut | Broken(cause: Cause)

  /** A wait listens, with its timer running, until it is acknowledged or its time is up. */
  datatype Wait = Wait(outcome: Option<Outcome>, listens: bool)

  /** All waits ever begun, and the one that a fatal error would break. */
  datatype Waits = Waits(all: seq<Wait>, breaks: Option<nat>)

  const NO_WAITS: Waits := Waits([], None)

  /** What a promise is first settled with stays. */
  function Settled(w: Wait, outcome: Outcome): Wait {
    if w.outcome.None? then w.(outcome := Some(outcome)) else w
  }

  datatype Step =
    | Begin
    | Acknowledge
    | TimeOut(i: nat)
    | Break(cause: Cause)

  predicate Listens(w: Waits) {
    exists i :: 0 <= i < |w.all| && w.all[i].listens
  }

  function Heard(all: seq<Wait>): (r: seq<Wait>)
    ensures |r| == |all|
    ensures forall i :: 0 <= i < |all| ==>
              r[i] == if all[i].listens then Settled(all[i], Acknowledged).(listens := false) else all[i]
  {
    if all == [] then []
    else
      var w := all[|all| - 1];
      Heard(all[..|all| - 1]) + [if w.listens then Settled(w, Acknowledged).(listens := false) else w]
  }

  /** Any listener and any timer forgets the one to break, whosever it is. */
  function After(w: Waits, s: Step): Waits {
    match s
    case Begin => Waits(w.all + [Wait(None, true)], Some(|w.all|))
    case Acknowledge => if Listens(w) then Waits(Heard(w.all), None) else w
    case TimeOut(i) =>
      if i < |w.all| && w.all[i].listens
      then Waits(w.all[i := Settled(w.all[i], TimedOut).(listens := false)], None)
      else w
    case Break(cause) =>
      match w.breaks
      case None => w
      case Some(i) => if i < |w.all| then Waits(w.all[i := Settled(w.all[i], Broken(cause))], None) else w
  }

  function Run(steps: seq<Step>): Waits {
    if steps == [] then NO_WAITS else After(Run(steps[..|steps| - 1]), steps[|steps| - 1])
  }

  predicate IsPending(w: Waits, i: int) {
    0 <= i < |w.all| && w.all[i].outcome.None?
  }

  /** Only the last wait begun can be broken, and only while it is pending; what is pending listens. */
  ghost predicate Sound(w: Waits) {
    && (w.breaks.Some? ==> w.breaks.value == |w.all| - 1 && IsPending(w, w.breaks.value))
    && (forall i :: IsPending(w, i) ==> w.all[i].listens)
  }

  lemma AfterSound(w: Waits, s: Step)
    requires Sound(w)
    ensures Sound(After(w, s))
  {
    var r := After(w, s);
    forall i | IsPending(r, i)
      ensures r.all[i].listens
    {
      assert i < |w.all| ==> IsPending(w, i);
    }
  }

  /** No wait is settled twice. */
  lemma OutcomeStays(w: Waits, s: Step, i: nat)
    requires i < |w.all| && w.all[i].outcome.Some?
    ensures i < |After(w, s).all| && After(w, s).all[i].outcome == w.all[i].outcome
  {
  }

  /**
   * A pending wait is settled exactly by an acknowledgement, by its own time, or by a fatal error if
   * it is the one to break.
   */
  lemma SettledExactly(w: Waits, s: Step, i: nat)
    requires Sound(w) && IsPending(w, i)
    ensures !IsPending(After(w, s), i) <==>
            s.Acknowledge? || s == TimeOut(i) || (s.Break? && w.breaks == Some(i))
  {
    assert w.all[i].listens;
  }

  /** And it is settled as what happened to it. */
  lemma SettledAs(w: Waits, s: Step, i: nat)
    requires Sound(w) && IsPending(w, i) && !IsPending(After(w, s), i)
    ensures var outcome := After(w, s).all[i].outcome.value;
            match s
            case Acknowledge => outcome == Acknowledged
            case TimeOut(_) => outcome == TimedOut
            case Break(cause) => outcome == Broken(cause)
            case Begin => false
  {
  }

  /** The last wait begun is forgotten when the time of an earlier one is up. */
  function Forgets(w: Waits, s: Step, before: bool): bool {
    match s
    case Begin => false
    case TimeOut(i) => before || (i + 1 < |w.all| && w.all[i].listens)
    case _ => before
  }

  function ForgottenBy(steps: seq<Step>): bool {
    if steps == [] then false
    else
      var front := steps[..|steps| - 1];
      Forgets(Run(front), steps[|steps| - 1], ForgottenBy(front))
  }

  lemma {:induction false} RunSound(steps: seq<Step>)
    ensures Sound(Run(steps))
  {
    if steps == [] {
    } else {
      RunSound(steps[..|steps| - 1]);
      AfterSound(Run(steps[..|steps| - 1]), steps[|steps| - 1]);
    }
  }

  /** The last wait begun, while pending, is the one a fatal error breaks. */
  predicate BreaksTheLast(w: Waits, forgotten: bool) {
    w.all != [] && IsPending(w, |w.all| - 1) ==> (w.breaks == Some(|w.all| - 1) <==> !forgotten)
  }

  lemma NextBreaksTheLast(w: Waits, s: Step, forgotten: bool)
    requires Sound(w) && BreaksTheLast(w, forgotten)
    ensures BreaksTheLast(After(w, s), Forgets(w, s, forgotten))
  {
    var n := |w.all| - 1;
    assert IsPending(w, n) ==> w.all[n].listens;
  }

  /** After any run a fatal error breaks the last wait begun exactly if the time of no earlier one was up since. */
  lemma {:induction false} BreaksTheLastExactly(steps: seq<Step>)
    ensures BreaksTheLast(Run(steps), ForgottenBy(steps))
  {
    if steps == [] {
    } else {
      var front := steps[..|steps| - 1];
      BreaksTheLastExactly(front);
      RunSound(front);
      NextBreaksTheLast(Run(front), steps[|steps| - 1], ForgottenBy(front));
    }
  }

  lemma RunOneMore(steps: seq<Step>, s: Step)
    ensures Run(steps + [s]) == After(Run(steps), s)
  {
    assert (steps + [s])[..|steps|] == steps;
  }
}
