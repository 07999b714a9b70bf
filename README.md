# Clock app: countdown and stopwatch state, in Dafny

This project models the integer core of a four-tab Tkinter clock utility
(`random.py`): the countdown engine of the Timer tab (`TimerFrame`) and the
running-flag state machine of the Stopwatch tab (`StopwatchFrame`), with the
text they put on their labels.

- `format.dfy` (module `Format`): Python's `divmod(x, 60)`, the `:02d`
  format (zero padding to a minimum width of two), and the `MM:SS` and
  `HH:MM:SS.CC` label texts. Every text has a parser beside it, and a
  round-trip lemma proves the text loses nothing.
- `countdown.dfy` (module `Countdown`): the Timer tab. First come the
  functions on `TimerState` for `start_timer` (`Start`) and `update_timer`
  (`Tick`). Each `after(1000, update_timer)` adds one to `pending`, the
  number of queued calls that have not run yet. `Fire` runs one queued call
  and `Drain` runs them until none is left. After these functions comes the
  class `TimerFrame`, whose methods update its fields in place and are
  proved to follow the functions. The label is a `Display` value. `Text`
  gives its exact string: `Remaining(r)` renders as `TimerText(r)`.
  `events` records every label change and every beep, oldest first.
- `stopwatch.dfy` (module `Stopwatch`): the Stopwatch tab. It has the same
  two layers: functions `Tick` (`update`), `Toggle` (`start_stop`), `Clear`
  (`reset`) and `Fire`, and then the class `StopwatchFrame`. The float
  accumulator is modelled as `increments`, the number of `+= 0.1` steps
  taken since the last reset.
- `wrappers.dfy`: `Option`. `int()` of the entry text is passed in as an
  `Option<int>`, with `None` standing for `ValueError`.

Four behaviours of the code are easy to miss. The model follows the code:
- A countdown entry of `0` or of a negative number (which `int()` accepts)
  is not rejected. `remaining` takes that value, and the first `update_timer`
  shows "Timer finished!" and beeps.
- The label after `reset` reads `00:00:00`, without a `.00` part.
- Pressing Start/Stop twice does not keep the elapsed count. The start
  among the two presses runs `update` once right away, so there is one more
  step (`ToggleTwice`).
- A restart does not cancel a call that is already queued. A second
  `start_timer` during a countdown starts a second chain of calls. The count
  then falls by two per second, and each chain ends with its own "Timer
  finished!" and beep (`StartThenDrain`, with `pending > 0` beforehand).
  Stopping and restarting the stopwatch within 100 ms likewise leaves two
  chains. Each chain adds a step per 100 ms (`ToggleTwice`,
  `FiresWhileRunning`).

## Model

| member | source | states |
|---|---|---|
| Format.Decimal | random.py:141 | the decimal numeral of n >= 0 is never empty, has one digit exactly when n < 10, and three or more from 100 on |
| Format.DecimalDigits | random.py:141 | the decimal numeral under the padding is made of digits and reads back as n |
| Format.Pad2 | random.py:141 | `:02d` of n >= 0 is at least two characters, and exactly two when n < 100: the width is a minimum, not a truncation |
| Format.Pad2Digits | random.py:141 | `:02d` of n >= 0 is all digits and reads back as n |
| Format.JoinRoundTrip | random.py:141 | colon-joined `:02d` fields parse back to exactly the same field list |
| Format.JoinLength | random.py:190 | a colon-joined text of k fields is at least 3k-1 long, and exactly that when every field is below 100 |
| Format.DivMod60 | random.py:140 | `divmod(a, 60)` for a >= 0 gives q, r with r < 60 and q*60 + r == a |
| Format.DivMod60Unique | random.py:140 | those q, r are the only pair with r < 60 and q*60 + r == a |
| Format.SplitHms | random.py:187-188 | the two divmods split whole seconds n into hours, minutes < 60 and seconds < 60, with hours*3600 + minutes*60 + seconds == n. Hours are unbounded |
| Format.SplitHmsUnique | random.py:187-188 | that split is the only triple with minutes and seconds in range |
| Format.TimerTextRoundTrip | random.py:140-141 | the `MM:SS` text of a count parses back to that count |
| Format.TimerTextInjective | random.py:140-141 | different counts are always shown as different texts |
| Format.TimerTextIsZero | random.py:140-141 | the countdown text is "00:00" exactly for a count of 0 |
| Format.TimerText | random.py:140-141 | the countdown text is at least 5 characters, and exactly 5 when the count is below 6000 s (under 100 minutes) |
| Format.HmsText | random.py:187-190 | the `HH:MM:SS` text is at least 8 characters, and exactly 8 below 360000 s (under 100 hours). Hours are not bounded |
| Format.HmsTextRoundTrip | random.py:187-190 | the `HH:MM:SS` text of whole seconds parses back to that number |
| Format.StopwatchText | random.py:187-190 | the `HH:MM:SS.CC` label is at least 11 characters, and exactly 11 under 100 hours |
| Format.StopwatchTextRoundTrip | random.py:189-190 | the `HH:MM:SS.CC` label gives back its whole seconds and its centiseconds (< 100) |
| Format.HmsTextZero | random.py:181 | the reset text "00:00:00" is the `HH:MM:SS` text of zero seconds |
| Countdown.Tick | random.py:138-147 | one `update_timer` leaves the timer armed (a positive count has a call queued), keeps the work (positive count + queued calls) unchanged, and only appends to the history |
| Countdown.Start | random.py:130-136 | `start_timer` only appends to the history. A parsed entry always leaves the timer armed, and a rejected one keeps it armed if it was and adds no work |
| Countdown.Fire | random.py:144 | the event loop running one queued `update_timer` lowers the work by exactly one, leaves the timer armed and only appends to the history. This is the termination measure |
| Countdown.Drain | random.py:144 | running queued calls until none is left ends with an empty queue and an extended history. From an armed state the count is no longer positive at the end |
| Countdown.StartInvalid | random.py:130-136 | an entry that `int()` rejects shows "Please enter a valid number". It changes neither `remaining` nor the queue |
| Countdown.TickCases | random.py:138-147 | a positive count is shown (the label holds that count, as MM:SS), falls by one and queues exactly one call. A count <= 0 stays as it is, shows "Timer finished!", beeps once and queues nothing |
| Countdown.DrainOutcome | random.py:138-147 | running all queued calls shows each positive count once, from the highest down. It leaves the count at 0 (or at its old value if that was <= 0) and adds one "Timer finished!" and beep per queued chain |
| Countdown.StartThenDrain | random.py:130-147 | a start with n, run to the end, shows n, n-1, ..., 1 and then "Timer finished!" plus a beep once for the new chain and once more per chain still queued |
| Countdown.CountdownSteps | random.py:130-147 | with nothing else queued and n >= 1: after the immediate call and k < n queued calls, the count is n-1-k, n..n-k have been shown and one call is queued. The n-th queued call finishes the countdown and leaves nothing queued |
| Countdown.ShownLength | random.py:138-144 | the displays of n down to 1 number exactly n |
| Countdown.ShownNeverZero | random.py:139-142 | no display of a positive count reads "00:00" |
| Countdown.FinishesNeverZero | random.py:146 | no "Timer finished!" display reads "00:00" |
| Countdown.FinishesLength | random.py:146-147 | k finished chains produce exactly 2k events, a label change and a beep each |
| Countdown.RunNeverShowsZero | random.py:130-147 | a countdown from n >= 1, run to the end, never shows "00:00". It produces n count displays and two events (text and beep) per chain |
| Countdown.TimerFrame.constructor | random.py:117-118 | a new frame has `remaining` 0, an empty label and nothing queued |
| Countdown.TimerFrame.UpdateTimer | random.py:138-147 | updates the fields in place exactly as `Tick` |
| Countdown.TimerFrame.StartTimer | random.py:130-136 | updates the fields in place exactly as `Start`: an error message, or `remaining := n` and one `update_timer` |
| Countdown.TimerFrame.FireTick | random.py:144 | the event loop runs one queued `update_timer` |
| Countdown.TimerFrame.RunPending | random.py:144 | the event loop runs queued calls until none is left. The loop ends, and the result is `Drain` of the old state |
| Stopwatch.Tick | random.py:184-192 | `update` never starts or stops the stopwatch and never loses a step. It queues exactly one call per step taken, and it keeps the invariant "running implies a call is queued" |
| Stopwatch.Toggle | random.py:169-176 | `start_stop` flips `running`, never loses a step, and keeps the invariant "running implies a call is queued" |
| Stopwatch.Clear | random.py:178-182 | `reset` stops the stopwatch at zero steps and keeps the queue. The label is the H:M:S text of zero seconds, and the invariant holds afterwards |
| Stopwatch.Fire | random.py:192 | one queued `update` that runs while running adds one step and queues its successor, so the queue length is kept. While stopped it only leaves the queue. It keeps the invariant |
| Stopwatch.Fires | random.py:192 | running queued calls one per reading keeps the running flag, never loses a step, only shrinks the queue of a stopped stopwatch, and keeps the invariant |
| Stopwatch.TickCases | random.py:184-192 | `update` when stopped changes nothing. When running it adds exactly one step, shows the reading and queues one call |
| Stopwatch.ToggleCases | random.py:169-176 | `start_stop` flips `running`. Stopping keeps the count, label and queue. Starting adds one step at once and queues one call |
| Stopwatch.ToggleTwice | random.py:169-176 | two presses restore `running` but add one step and leave one more queued chain |
| Stopwatch.ClearIdempotent | random.py:178-182 | `reset` gives stopped, zero steps and "00:00:00", whatever came before. It keeps the queue, and resetting twice equals resetting once |
| Stopwatch.TickingPreserved | random.py:169-192 | every operation keeps the invariant "running implies a call is queued" |
| Stopwatch.FiresWhileStopped | random.py:184-185 | queued calls that find the stopwatch stopped only leave the queue |
| Stopwatch.FiresWhileRunning | random.py:184-192 | while running, k queued calls add exactly k steps, keep the queue length and show the last reading |
| Stopwatch.ResetTextDistinct | random.py:181-190 | the reset text is the H:M:S text of 0 and never equals any text `update` shows |
| Stopwatch.StopwatchFrame.constructor | random.py:154-157 | a new stopwatch is stopped at zero, shows "00:00:00" and has nothing queued |
| Stopwatch.StopwatchFrame.Update | random.py:184-192 | updates the fields in place exactly as `Tick` |
| Stopwatch.StopwatchFrame.StartStop | random.py:169-176 | updates the fields in place exactly as `Toggle` |
| Stopwatch.StopwatchFrame.Reset | random.py:178-182 | updates the fields in place exactly as `Clear` |
| Stopwatch.StopwatchFrame.FireTick | random.py:192 | the event loop runs one queued `update` |
| Stopwatch.StopwatchFrame.RunTicks | random.py:192 | the event loop runs queued calls, one per reading, while any is queued. The result is `Fires` of the old state |

## Left out

- `ClockApp`, widget construction, theming and layout (random.py:11-35 and the `__init__` bodies): user interface only. The Start/Stop button caption (random.py:172, 175, 182) is left out for the same reason.
- `WatchFrame` (random.py:37-78): floating-point trigonometry for the hand end points, driven by `datetime.now()`.
- `AlarmFrame` (random.py:80-110): a polling daemon thread that sleeps and writes to a label from another thread. Its `strftime` format `"%::%M:%S"` produces platform-dependent text, so no matching behaviour can be stated.
- The stopwatch's float `elapsed_time` (random.py:186, 189): repeated `+= 0.1` drifts (ten steps give 0.9999999999999999). `int(elapsed_time)` and the centiseconds are therefore an input (`Reading`) to each `update`, not a function of `increments`.
- `winsound.Beep` (random.py:108, 147): a foreign call. It is recorded as a `Beep` event in the countdown.
- Python `int()` parsing of the entry text (whitespace, signs, underscores): the parse result is an input, `Option<int>`.
- Format.StopwatchText: defined only for centiseconds below 100. `int((elapsed_time - int(elapsed_time)) * 100)` (random.py:189) never gives more, so the `Reading` type carries that bound.
- Real time: `after(1000, ...)` and `after(100, ...)` are modelled as queued calls (`pending`), not as milliseconds. The interleaving of two chains in time is left out. Each queued call acts on the shared fields the same way, whichever chain it belongs to.
