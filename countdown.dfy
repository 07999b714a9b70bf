/**
  The countdown engine of the Timer tab (`TimerFrame`).

  `start_timer` stores the parsed entry in `remaining` and runs one
  `update_timer` at once; each `update_timer` either shows `remaining` as
  MM:SS, decrements it and asks the event loop for one more call a second
  later, or shows "Timer finished!" and beeps. A request made with
  `after(1000, ...)` is modelled as one unit of `pending`: the number of
  `update_timer` calls queued and not yet run. Nothing ever cancels a
  queued call.

  The state machine is first given as functions on `TimerState` (the
  specification), then as the class `TimerFrame` whose methods update its
  fields in place and are proved to follow those functions.
 */
module Countdown {

  import opened Wrappers
  import opened Format

  const InvalidText := "Please enter a valid number"
  const FinishedText := "Timer finished!"

  /** What `time_label` is showing. */
  datatype Display =
    | Blank                    // the empty label of a new frame
    | Remaining(seconds: nat)  // a positive count, as MM:SS
    | Finished
    | InvalidEntry

  /** The exact text of the label: MM:SS for a count, else a fixed message. */
  function Text(d: Display): string {
    match d
    case Blank => ""
    case Remaining(r) => TimerText(r)
    case Finished => FinishedText
    case InvalidEntry => InvalidText
  }

  /** What the user perceives: the label changes, or the beep sounds once. */
  datatype Event = Show(shown: Display) | Beep

  datatype TimerState = TimerState(
    remaining: int,        // the `remaining_time` IntVar; Python's int() accepts negatives
    display: Display,      // what `time_label` shows
    pending: nat,          // `update_timer` calls queued with `after` and not yet run
    events: seq<Event>)    // everything shown or sounded so far, oldest first

  // ---------------------------------------------------------------------
  // Specification: the state machine as functions
  // ---------------------------------------------------------------------

  /** What is left to do: every positive second still to show, plus every queued call. */
  function Work(s: TimerState): nat {
    (if s.remaining > 0 then s.remaining else 0) + s.pending
  }

  /** A positive count always has a call queued that will show it: the countdown cannot stall. */
  predicate Armed(s: TimerState) {
    s.remaining > 0 ==> s.pending >= 1
  }

  /**
    One run of `update_timer`. It always leaves the state armed, and the
    work is conserved: a second shown is paid for by a call queued.
   */
  function Tick(s: TimerState): (t: TimerState)
    ensures Armed(t)
    ensures Work(t) == Work(s)
    ensures s.events < t.events
  {
    if s.remaining > 0 then
      var d := Remaining(s.remaining);
      s.(remaining := s.remaining - 1, display := d, pending := s.pending + 1,
         events := s.events + [Show(d)])
    else
      s.(display := Finished, events := s.events + [Show(Finished), Beep])
  }

  /** `start_timer`, given what `int()` made of the entry text (None: ValueError). */
  function Start(s: TimerState, entry: Option<int>): (t: TimerState)
    ensures s.events < t.events
    ensures entry.Some? ==> Armed(t)
    ensures Armed(s) ==> Armed(t)
    ensures entry.None? ==> Work(t) == Work(s)
  {
    match entry
    case None => s.(display := InvalidEntry, events := s.events + [Show(InvalidEntry)])
    case Some(n) => Tick(s.(remaining := n))
  }

  /** The event loop runs one queued `update_timer`. */
  function Fire(s: TimerState): (t: TimerState)
    requires s.pending > 0
    ensures Armed(t)
    ensures Work(t) == Work(s) - 1
    ensures s.events < t.events
  {
    Tick(s.(pending := s.pending - 1))
  }

  /**
    Runs queued calls until none is left. The history only grows, and from
    an armed state the count is no longer positive at the end.
   */
  function Drain(s: TimerState): (t: TimerState)
    ensures t.pending == 0
    ensures s.events <= t.events
    ensures Armed(s) ==> t.remaining <= 0
    decreases Work(s)
  {
    if s.pending == 0 then s else Drain(Fire(s))
  }

  /** Runs up to `k` queued calls, one after the other. */
  function FireN(s: TimerState, k: nat): TimerState
    decreases k
  {
    if k == 0 || s.pending == 0 then s else FireN(Fire(s), k - 1)
  }

  /** The displays of the counts `hi`, `hi - 1`, ..., `lo`, in that order. */
  function Shown(hi: int, lo: int): seq<Event>
    requires lo >= 1
    decreases hi - lo
  {
    if hi < lo then [] else [Show(Remaining(hi))] + Shown(hi - 1, lo)
  }

  /** `k` finishing calls: each shows "Timer finished!" and beeps. */
  function Finishes(k: nat): seq<Event> {
    if k == 0 then [] else [Show(Finished), Beep] + Finishes(k - 1)
  }

  // ---------------------------------------------------------------------
  // Properties of the specification
  // ---------------------------------------------------------------------

  /** A bad entry shows the error message and changes neither the count nor the queue. */
  lemma StartInvalid(s: TimerState)
    ensures Start(s, None).remaining == s.remaining
    ensures Start(s, None).pending == s.pending
    ensures Start(s, None).display == InvalidEntry
    ensures Start(s, None).events == s.events + [Show(InvalidEntry)]
  {
  }

  /**
    A positive count is shown as MM:SS, goes down by exactly one and queues
    exactly one more call; a count of zero or less is left as it is, shows
    "Timer finished!", beeps once and queues nothing.
   */
  lemma TickCases(s: TimerState)
    ensures s.remaining > 0 ==>
      && Tick(s).remaining == s.remaining - 1
      && Tick(s).pending == s.pending + 1
      && Tick(s).display == Remaining(s.remaining)
      && Tick(s).events == s.events + [Show(Remaining(s.remaining))]
    ensures s.remaining <= 0 ==>
      && Tick(s).remaining == s.remaining
      && Tick(s).pending == s.pending
      && Tick(s).display == Finished
      && Tick(s).events == s.events + [Show(Finished), Beep]
  {
  }

  lemma {:induction false} ShownLength(hi: int, lo: int)
    requires lo >= 1
    ensures |Shown(hi, lo)| == if hi < lo then 0 else hi - lo + 1
    decreases hi - lo
  {
    if hi >= lo {
      ShownLength(hi - 1, lo);
    }
  }

  /** Extending the displayed range by one at the low end appends one display. */
  lemma {:induction false} ShownExtend(hi: int, lo: int)
    requires lo >= 2 && hi >= lo - 1
    ensures Shown(hi, lo - 1) == Shown(hi, lo) + [Show(Remaining(lo - 1))]
    decreases hi - lo
  {
    var last := [Show(Remaining(lo - 1))];
    if hi >= lo {
      ShownExtend(hi - 1, lo);
      assert Shown(hi, lo - 1) == [Show(Remaining(hi))] + Shown(hi - 1, lo - 1);
      assert Shown(hi, lo) == [Show(Remaining(hi))] + Shown(hi - 1, lo);
    } else {
      assert Shown(hi, lo) == [];
      assert Shown(hi, lo - 1) == last + Shown(hi - 1, lo - 1);
      assert Shown(hi - 1, lo - 1) == [];
    }
  }

  /** No event of `evs` makes the label read "00:00". */
  predicate NeverShowsZero(evs: seq<Event>) {
    forall i :: 0 <= i < |evs| && evs[i].Show? ==> Text(evs[i].shown) != "00:00"
  }

  lemma NeverShowsZeroAppend(a: seq<Event>, b: seq<Event>)
    requires NeverShowsZero(a) && NeverShowsZero(b)
    ensures NeverShowsZero(a + b)
  {
    forall i | 0 <= i < |a + b| && (a + b)[i].Show?
      ensures Text((a + b)[i].shown) != "00:00"
    {
      if i >= |a| {
        assert (a + b)[i] == b[i - |a|];
      }
    }
  }

  /** The displays of positive counts never read "00:00". */
  lemma {:induction false} ShownNeverZero(hi: int, lo: int)
    requires lo >= 1
    ensures NeverShowsZero(Shown(hi, lo))
    decreases hi - lo
  {
    if hi >= lo {
      TimerTextIsZero(hi);
      assert Text(Remaining(hi)) != "00:00";
      ShownNeverZero(hi - 1, lo);
      NeverShowsZeroAppend([Show(Remaining(hi))], Shown(hi - 1, lo));
    }
  }

  lemma {:induction false} FinishesNeverZero(k: nat)
    ensures NeverShowsZero(Finishes(k))
  {
    if k > 0 {
      FinishesNeverZero(k - 1);
      assert Text(Finished) != "00:00";
      NeverShowsZeroAppend([Show(Finished), Beep], Finishes(k - 1));
    }
  }

  /**
    Running every queued call: the count ends at zero (or stays where it
    was if it was not positive), each positive count is shown once from
    the highest down, and every queued chain ends with its own
    "Timer finished!" and beep.
   */
  lemma {:induction false} DrainOutcome(s: TimerState)
    ensures Drain(s) ==
      if s.pending == 0 then s
      else s.(remaining := if s.remaining > 0 then 0 else s.remaining,
              display := Finished,
              pending := 0,
              events := s.events + Shown(s.remaining, 1) + Finishes(s.pending))
    decreases Work(s)
  {
    if s.pending > 0 {
      var t := Fire(s);
      DrainOutcome(t);
      if s.remaining > 0 {
        assert t.events == s.events + [Show(Remaining(s.remaining))];
        assert Shown(s.remaining, 1) == [Show(Remaining(s.remaining))] + Shown(s.remaining - 1, 1);
        assert t.events + Shown(t.remaining, 1) + Finishes(t.pending)
            == s.events + Shown(s.remaining, 1) + Finishes(s.pending);
      } else if t.pending == 0 {
        assert Finishes(1) == [Show(Finished), Beep] + Finishes(0);
        assert Shown(s.remaining, 1) == [];
      } else {
        assert Shown(s.remaining, 1) == [];
        assert t.events + Shown(t.remaining, 1) + Finishes(t.pending)
            == s.events + Shown(s.remaining, 1) + Finishes(s.pending);
      }
    }
  }

  /**
    A started countdown, run to the end: the displays are n, n-1, ..., 1
    and then one "Timer finished!" with a beep for the new chain and one
    more for every chain that was still queued (a restart does not cancel
    the earlier chain).
   */
  lemma StartThenDrain(s: TimerState, n: int)
    ensures Drain(Start(s, Some(n))) ==
      s.(remaining := if n > 0 then 0 else n,
         display := Finished,
         pending := 0,
         events := s.events + Shown(n, 1) + Finishes(s.pending + 1))
  {
    if n > 0 {
      StartPositiveThenDrain(s, n);
    } else {
      StartStoppedThenDrain(s, n);
    }
  }

  /** The positive case of `StartThenDrain`: the start shows n and queues a call. */
  lemma StartPositiveThenDrain(s: TimerState, n: int)
    requires n > 0
    ensures Drain(Start(s, Some(n))) ==
      s.(remaining := 0, display := Finished, pending := 0,
         events := s.events + Shown(n, 1) + Finishes(s.pending + 1))
  {
    var shown := [Show(Remaining(n))];
    var t := s.(remaining := n - 1, display := Remaining(n), pending := s.pending + 1,
                events := s.events + shown);
    assert Start(s, Some(n)) == t;
    DrainOutcome(t);
    assert Shown(n, 1) == shown + Shown(n - 1, 1);
    assert (s.events + shown) + Shown(n - 1, 1) == s.events + Shown(n, 1);
  }

  /** The other case: a count of zero or less finishes at once and queues nothing. */
  lemma StartStoppedThenDrain(s: TimerState, n: int)
    requires n <= 0
    ensures Drain(Start(s, Some(n))) ==
      s.(remaining := n, display := Finished, pending := 0,
         events := s.events + Shown(n, 1) + Finishes(s.pending + 1))
  {
    var done := [Show(Finished), Beep];
    var t := s.(remaining := n, display := Finished, events := s.events + done);
    assert Start(s, Some(n)) == t;
    DrainOutcome(t);
    assert Shown(n, 1) == [];
    assert Finishes(s.pending + 1) == done + Finishes(s.pending);
    assert (s.events + done) + Finishes(s.pending) == s.events + Finishes(s.pending + 1);
  }

  /**
    With no other chain queued, a countdown from n >= 1 decrements exactly
    n times: after the immediate call and k < n queued calls the count is
    n-1-k, n..n-k have been shown, one call is queued and the timer has not
    finished; the n-th queued call finishes it and leaves nothing queued.
   */
  lemma {:induction false} CountdownSteps(s: TimerState, n: int, k: nat)
    requires s.pending == 0 && n >= 1 && k <= n
    ensures k < n ==>
      FireN(Start(s, Some(n)), k) ==
        s.(remaining := n - 1 - k, display := Remaining(n - k), pending := 1,
           events := s.events + Shown(n, n - k))
    ensures k == n ==>
      FireN(Start(s, Some(n)), k) ==
        s.(remaining := 0, display := Finished, pending := 0,
           events := s.events + Shown(n, 1) + [Show(Finished), Beep])
  {
    var t := Start(s, Some(n));
    if k == 0 {
      assert Shown(n, n) == [Show(Remaining(n))] + Shown(n - 1, n);
    } else {
      CountdownSteps(s, n, k - 1);
      FireNStep(t, k - 1);
      if k < n {
        ShownExtend(n, n - k + 1);
      }
    }
  }

  /** Running k+1 calls is running k and then one more, while calls remain queued. */
  lemma {:induction false} FireNStep(s: TimerState, k: nat)
    requires FireN(s, k).pending > 0
    ensures FireN(s, k + 1) == Fire(FireN(s, k))
    decreases k
  {
    if k > 0 && s.pending > 0 {
      FireNStep(Fire(s), k - 1);
    }
  }

  /**
    From n >= 1 the whole run after the start shows n counts and one
    "Timer finished!" plus beep per chain, and the label never reads "00:00".
   */
  lemma RunNeverShowsZero(s: TimerState, n: int)
    requires n >= 1
    ensures |Drain(Start(s, Some(n))).events| >= |s.events|
    ensures var run := Drain(Start(s, Some(n))).events[|s.events|..];
      && NeverShowsZero(run)
      && |run| == n + 2 * (s.pending + 1)
  {
    var run := Shown(n, 1) + Finishes(s.pending + 1);
    ShownNeverZero(n, 1);
    FinishesNeverZero(s.pending + 1);
    NeverShowsZeroAppend(Shown(n, 1), Finishes(s.pending + 1));
    ShownLength(n, 1);
    FinishesLength(s.pending + 1);
    StartThenDrain(s, n);
    var all := Drain(Start(s, Some(n))).events;
    assert all == s.events + run;
    assert all[|s.events|..] == run;
  }

  lemma {:induction false} FinishesLength(k: nat)
    ensures |Finishes(k)| == 2 * k
  {
    if k > 0 {
      FinishesLength(k - 1);
    }
  }

  // ---------------------------------------------------------------------
  // The Timer tab as an object updated in place
  // ---------------------------------------------------------------------

  class TimerFrame {
    var remaining: int
    var display: Display
    var pending: nat
    var events: seq<Event>

    function State(): TimerState
      reads this
    {
      TimerState(remaining, display, pending, events)
    }

    /** `remaining_time` starts at 0 and the display is empty. */
    constructor ()
      ensures State() == TimerState(0, Blank, 0, [])
    {
      remaining, display, pending, events := 0, Blank, 0, [];
    }

    method UpdateTimer()
      modifies this
      ensures State() == Tick(old(State()))
    {
      if remaining > 0 {
        display := Remaining(remaining);
        events := events + [Show(Remaining(remaining))];
        remaining := remaining - 1;
        pending := pending + 1;
      } else {
        display := Finished;
        events := events + [Show(Finished), Beep];
      }
    }

    method StartTimer(entry: Option<int>)
      modifies this
      ensures State() == Start(old(State()), entry)
    {
      match entry {
        case None =>
          display := InvalidEntry;
          events := events + [Show(InvalidEntry)];
        case Some(n) =>
          remaining := n;
          UpdateTimer();
      }
    }

    /** The event loop runs one queued `update_timer`. */
    method FireTick()
      requires pending > 0
      modifies this
      ensures State() == Fire(old(State()))
    {
      pending := pending - 1;
      UpdateTimer();
    }

    /** The event loop runs queued calls until none is left; this always ends. */
    method RunPending()
      modifies this
      ensures State() == Drain(old(State()))
      ensures pending == 0
    {
      while pending > 0
        invariant Drain(State()) == Drain(old(State()))
        decreases Work(State())
      {
        FireTick();
      }
    }
  }
}
