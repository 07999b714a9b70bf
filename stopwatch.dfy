/**
  The stopwatch of the Stopwatch tab (`StopwatchFrame`).

  The frame keeps a `running` flag and an accumulator that `update` grows
  by 0.1 per call. The accumulator is modelled as `increments`, the number
  of +0.1 steps taken since the last reset; the float it stands for, and
  therefore `int(elapsed_time)` and the centisecond digits, are outside the
  model: each `update` receives them as a `Reading`. As in the countdown,
  `pending` counts the `update` calls queued with `after(100, ...)` and not
  yet run; stopping does not cancel them, a queued call that finds the
  stopwatch stopped does nothing.
 */
module Stopwatch {

  import opened Format

  const ResetText := "00:00:00"

  /** `int((elapsed_time - int(elapsed_time)) * 100)`: a fraction below one, times 100, truncated. */
  type Centiseconds = c: nat | c < 100

  /** The whole seconds and centiseconds the float accumulator reads after one step. */
  datatype Reading = Reading(seconds: nat, centiseconds: Centiseconds)

  /** What `time_label` shows. */
  datatype Display =
    | Cleared             // "00:00:00", at creation and after a reset
    | Elapsed(r: Reading) // HH:MM:SS.CC, after an update

  function Text(d: Display): string {
    match d
    case Cleared => ResetText
    case Elapsed(r) => StopwatchText(r.seconds, r.centiseconds)
  }

  datatype StopwatchState = StopwatchState(
    running: bool,
    increments: nat,   // +0.1 steps added to `elapsed_time` since the last reset
    display: Display,
    pending: nat)      // `update` calls queued with `after` and not yet run

  // ---------------------------------------------------------------------
  // Specification: the state machine as functions
  // ---------------------------------------------------------------------

  /**
    A running stopwatch always has a call queued, so it keeps counting.
   */
  predicate Ticking(s: StopwatchState) {
    s.running ==> s.pending >= 1
  }

  /**
    One run of `update`. It never starts or stops the stopwatch, never
    loses a step, and queues one call for every step it takes.
   */
  function Tick(s: StopwatchState, rd: Reading): (t: StopwatchState)
    ensures t.running == s.running
    ensures t.increments >= s.increments
    ensures t.increments - s.increments == t.pending - s.pending
    ensures Ticking(s) ==> Ticking(t)
  {
    if s.running then
      s.(increments := s.increments + 1, display := Elapsed(rd), pending := s.pending + 1)
    else s
  }

  /** `start_stop`: stopping only clears the flag; starting sets it and updates at once. */
  function Toggle(s: StopwatchState, rd: Reading): (t: StopwatchState)
    ensures t.running == !s.running
    ensures t.increments >= s.increments
    ensures Ticking(s) ==> Ticking(t)
  {
    if s.running then s.(running := false)
    else Tick(s.(running := true), rd)
  }

  /**
    `reset`: stopped, back to zero steps, showing the H:M:S text of zero
    seconds; queued calls stay queued.
   */
  function Clear(s: StopwatchState): (t: StopwatchState)
    ensures !t.running && t.increments == 0 && t.pending == s.pending
    ensures Text(t.display) == HmsText(0)
    ensures Ticking(t)
  {
    HmsTextZero();
    s.(running := false, increments := 0, display := Cleared)
  }

  /** The event loop runs one queued `update`. */
  function Fire(s: StopwatchState, rd: Reading): (t: StopwatchState)
    requires s.pending > 0
    ensures t.running == s.running
    ensures s.running ==> t.pending == s.pending && t.increments == s.increments + 1
    ensures !s.running ==> t == s.(pending := s.pending - 1)
    ensures Ticking(s) ==> Ticking(t)
  {
    Tick(s.(pending := s.pending - 1), rd)
  }

  /** Runs queued calls, one per reading, while any is queued. */
  function Fires(s: StopwatchState, rds: seq<Reading>): (t: StopwatchState)
    ensures t.running == s.running
    ensures t.increments >= s.increments
    ensures t.pending <= s.pending || s.running
    ensures Ticking(s) ==> Ticking(t)
    decreases |rds|
  {
    if rds == [] || s.pending == 0 then s else Fires(Fire(s, rds[0]), rds[1..])
  }

  // ---------------------------------------------------------------------
  // Properties of the specification
  // ---------------------------------------------------------------------

  /**
    `update` changes nothing when stopped; when running it adds exactly one
    step, shows the reading and queues exactly one more call.
   */
  lemma TickCases(s: StopwatchState, rd: Reading)
    ensures !s.running ==> Tick(s, rd) == s
    ensures s.running ==>
      && Tick(s, rd).running
      && Tick(s, rd).increments == s.increments + 1
      && Tick(s, rd).pending == s.pending + 1
      && Tick(s, rd).display == Elapsed(rd)
  {
  }

  /**
    `start_stop` flips the flag. Stopping keeps the count, the display and
    the queue; starting takes one step at once and queues one call.
   */
  lemma ToggleCases(s: StopwatchState, rd: Reading)
    ensures Toggle(s, rd).running == !s.running
    ensures s.running ==>
      Toggle(s, rd) == StopwatchState(false, s.increments, s.display, s.pending)
    ensures !s.running ==>
      Toggle(s, rd) == StopwatchState(true, s.increments + 1, Elapsed(rd), s.pending + 1)
  {
  }

  /**
    Two presses give back the running state but not the count: the start
    among them takes a step at once, and the queued call left by a stop is
    still there, so a stop and a restart leave one more chain than before.
   */
  lemma ToggleTwice(s: StopwatchState, rd1: Reading, rd2: Reading)
    ensures var t := Toggle(Toggle(s, rd1), rd2);
      && t.running == s.running
      && t.increments == s.increments + 1
      && t.pending == s.pending + 1
  {
  }

  /** Reset gives the cleared state whatever came before, so resetting twice is resetting once. */
  lemma ClearIdempotent(s: StopwatchState)
    ensures !Clear(s).running && Clear(s).increments == 0 && Clear(s).display == Cleared
    ensures Clear(s).pending == s.pending
    ensures Clear(Clear(s)) == Clear(s)
  {
  }

  /** Every operation keeps a running stopwatch supplied with a queued call. */
  lemma TickingPreserved(s: StopwatchState, rd: Reading)
    requires Ticking(s)
    ensures Ticking(Toggle(s, rd))
    ensures Ticking(Clear(s))
    ensures s.pending > 0 ==> Ticking(Fire(s, rd))
  {
  }

  /** Queued calls that find the stopwatch stopped only leave the queue. */
  lemma {:induction false} FiresWhileStopped(s: StopwatchState, rds: seq<Reading>)
    requires !s.running
    ensures Fires(s, rds) ==
      s.(pending := if |rds| < s.pending then s.pending - |rds| else 0)
    decreases |rds|
  {
    if rds != [] && s.pending > 0 {
      FiresWhileStopped(Fire(s, rds[0]), rds[1..]);
    }
  }

  /**
    While running, every queued call that runs adds one step and queues its
    successor: the count grows by the number of calls, the queue keeps its
    length, and the label shows the last reading.
   */
  lemma {:induction false} FiresWhileRunning(s: StopwatchState, rds: seq<Reading>)
    requires s.running && s.pending >= 1
    ensures Fires(s, rds) ==
      s.(increments := s.increments + |rds|,
         display := if rds == [] then s.display else Elapsed(rds[|rds| - 1]))
    decreases |rds|
  {
    if rds != [] {
      FiresWhileRunning(Fire(s, rds[0]), rds[1..]);
    }
  }

  /** The reset text is the H:M:S text of zero seconds, and no update ever shows it. */
  lemma ResetTextDistinct(rd: Reading)
    ensures Text(Cleared) == HmsText(0)
    ensures Text(Elapsed(rd)) != Text(Cleared)
  {
    HmsTextZero();
    assert |Text(Elapsed(rd))| >= 11;
  }

  // ---------------------------------------------------------------------
  // The Stopwatch tab as an object updated in place
  // ---------------------------------------------------------------------

  class StopwatchFrame {
    var running: bool
    var increments: nat
    var display: Display
    var pending: nat

    function State(): StopwatchState
      reads this
    {
      StopwatchState(running, increments, display, pending)
    }

    /** `elapsed_time = 0`, `running = False`, label "00:00:00". */
    constructor ()
      ensures State() == StopwatchState(false, 0, Cleared, 0)
    {
      running, increments, display, pending := false, 0, Cleared, 0;
    }

    method Update(rd: Reading)
      modifies this
      ensures State() == Tick(old(State()), rd)
    {
      if running {
        increments := increments + 1;
        display := Elapsed(rd);
        pending := pending + 1;
      }
    }

    method StartStop(rd: Reading)
      modifies this
      ensures State() == Toggle(old(State()), rd)
    {
      if running {
        running := false;
      } else {
        running := true;
        Update(rd);
      }
    }

    method Reset()
      modifies this
      ensures State() == Clear(old(State()))
    {
      running := false;
      increments := 0;
      display := Cleared;
    }

    /** The event loop runs one queued `update`. */
    method FireTick(rd: Reading)
      requires pending > 0
      modifies this
      ensures State() == Fire(old(State()), rd)
    {
      pending := pending - 1;
      Update(rd);
    }

    /** The event loop runs queued calls, one per reading, while any is queued. */
    method RunTicks(rds: seq<Reading>)
      modifies this
      ensures State() == Fires(old(State()), rds)
    {
      var i := 0;
      while i < |rds| && pending > 0
        invariant 0 <= i <= |rds|
        invariant Fires(State(), rds[i..]) == Fires(old(State()), rds)
      {
        assert rds[i..][1..] == rds[i + 1..];
        FireTick(rds[i]);
        i := i + 1;
      }
    }
  }
}
