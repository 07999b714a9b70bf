/**
  Integer-to-text conversions used by the countdown and the stopwatch:
  Python's `divmod` by 60, the `:02d` format (zero padding to a MINIMUM
  width of two), and the colon-separated `MM:SS` / `HH:MM:SS` displays.

  Each display comes with its partner: a parser that reads the text back,
  and a round-trip lemma saying that the display loses no information.
 */
module Format {

  import opened Wrappers

  // ---------------------------------------------------------------------
  // Decimal digits
  // ---------------------------------------------------------------------

  predicate IsDigit(c: char) {
    '0' <= c <= '9'
  }

  predicate AllDigits(s: string) {
    forall i :: 0 <= i < |s| ==> IsDigit(s[i])
  }

  function DigitValue(c: char): (d: nat)
    requires IsDigit(c)
    ensures d < 10
  {
    c as int - '0' as int
  }

  function DigitChar(d: nat): (c: char)
    requires d < 10
    ensures IsDigit(c) && DigitValue(c) == d
  {
    ('0' as int + d) as char
  }

  /** The number a string of decimal digits denotes, most significant digit first. */
  function Value(s: string): nat
    requires AllDigits(s)
  {
    if s == [] then 0 else Value(s[..|s| - 1]) * 10 + DigitValue(s[|s| - 1])
  }

  /**
    The shortest decimal numeral of `n` (what `str(n)` gives for n >= 0):
    never empty, one digit exactly below 10, three or more from 100 on.
   */
  function Decimal(n: nat): (r: string)
    ensures 1 <= |r|
    ensures |r| == 1 <==> n < 10
    ensures n >= 100 ==> |r| >= 3
  {
    if n < 10 then [DigitChar(n)] else Decimal(n / 10) + [DigitChar(n % 10)]
  }

  /** The numeral is made of digits and reads back as `n`. */
  lemma {:induction false} DecimalDigits(n: nat)
    ensures AllDigits(Decimal(n)) && Value(Decimal(n)) == n
  {
    if n >= 10 {
      DecimalDigits(n / 10);
      var s := Decimal(n);
      assert s[..|s| - 1] == Decimal(n / 10);
    }
  }

  /** A leading zero does not change the value of a numeral. */
  lemma {:induction false} LeadingZero(s: string)
    requires AllDigits(s)
    ensures AllDigits("0" + s) && Value("0" + s) == Value(s)
  {
    if s != [] {
      var t := "0" + s;
      assert t[..|t| - 1] == "0" + s[..|s| - 1];
      LeadingZero(s[..|s| - 1]);
    }
  }

  /**
    Python's `f"{n:02d}"` for n >= 0: the decimal numeral of `n`, padded
    with zeros on the left to at least two characters.
   */
  function Pad2(n: nat): (r: string)
    ensures 2 <= |r|
    ensures |r| == 2 <==> n < 100
  {
    if n < 10 then "0" + Decimal(n) else Decimal(n)
  }

  /** The padded field is made of digits and reads back as `n`. */
  lemma Pad2Digits(n: nat)
    ensures AllDigits(Pad2(n)) && Value(Pad2(n)) == n
  {
    DecimalDigits(n);
    if n < 10 {
      LeadingZero(Decimal(n));
    }
  }

  // ---------------------------------------------------------------------
  // Colon-separated fields and their parser
  // ---------------------------------------------------------------------

  /** The `:02d` fields joined with ':' (as in `f"{a:02d}:{b:02d}"`). */
  function Join(fields: seq<nat>): (t: string)
    requires |fields| >= 1
    decreases |fields|
  {
    if |fields| == 1 then Pad2(fields[0])
    else Pad2(fields[0]) + ":" + Join(fields[1..])
  }

  /** The length of the run of digits that starts `t`. */
  function DigitRun(t: string): (k: nat)
    ensures k <= |t| && AllDigits(t[..k])
    ensures k < |t| ==> !IsDigit(t[k])
  {
    if t == [] || !IsDigit(t[0]) then 0
    else
      var k := 1 + DigitRun(t[1..]);
      assert forall i :: 1 <= i < k ==> t[..k][i] == t[1..][..k - 1][i - 1];
      k
  }

  /**
    Reads back a text made of non-empty digit fields separated by ':';
    None for any other text.
   */
  function ParseFields(t: string): (r: Option<seq<nat>>)
    ensures r.Some? ==> |r.value| >= 1
    decreases |t|
  {
    var k := DigitRun(t);
    if k == 0 then None
    else if k == |t| then
      assert t[..k] == t;
      Some([Value(t)])
    else if t[k] != ':' then None
    else
      match ParseFields(t[k + 1..])
      case None => None
      case Some(rest) => Some([Value(t[..k])] + rest)
  }

  /** A digit run stops exactly where the digits stop. */
  lemma {:induction false} DigitRunOfDigits(d: string, rest: string)
    requires AllDigits(d)
    requires rest == [] || !IsDigit(rest[0])
    ensures DigitRun(d + rest) == |d|
  {
    if d == [] {
      assert d + rest == rest;
    } else {
      assert (d + rest)[0] == d[0];
      assert (d + rest)[1..] == d[1..] + rest;
      DigitRunOfDigits(d[1..], rest);
    }
  }

  /** A lone digit field parses to its value. */
  lemma ParseOneField(d: string)
    requires |d| >= 1 && AllDigits(d)
    ensures ParseFields(d) == Some([Value(d)])
  {
    assert d + [] == d;
    DigitRunOfDigits(d, []);
  }

  /** A digit field followed by ':' contributes its value ahead of the rest. */
  lemma ParseFieldThenColon(d: string, tail: string)
    requires |d| >= 1 && AllDigits(d)
    ensures ParseFields(d + ":" + tail) ==
      match ParseFields(tail)
      case None => None
      case Some(rest) => Some([Value(d)] + rest)
  {
    var t := d + ":" + tail;
    assert t == d + (":" + tail);
    DigitRunOfDigits(d, ":" + tail);
    assert t[|d|] == ':';
    assert t[|d| + 1..] == tail;
    assert t[..|d|] == d;
  }

  /** Joining and parsing are inverse: the joined text loses no field. */
  lemma {:induction false} JoinRoundTrip(fields: seq<nat>)
    requires |fields| >= 1
    ensures ParseFields(Join(fields)) == Some(fields)
    decreases |fields|
  {
    var d := Pad2(fields[0]);
    Pad2Digits(fields[0]);
    if |fields| == 1 {
      ParseOneField(d);
      assert [fields[0]] == fields;
    } else {
      ParseFieldThenColon(d, Join(fields[1..]));
      JoinRoundTrip(fields[1..]);
      assert [fields[0]] + fields[1..] == fields;
    }
  }

  lemma JoinLength(fields: seq<nat>)
    requires |fields| >= 1
    ensures |Join(fields)| >= 3 * |fields| - 1
    ensures |Join(fields)| == 3 * |fields| - 1 <==> forall i :: 0 <= i < |fields| ==> fields[i] < 100
    decreases |fields|
  {
    Pad2Digits(fields[0]);
    if |fields| > 1 {
      JoinLength(fields[1..]);
      assert forall i :: 1 <= i < |fields| ==> fields[i] == fields[1..][i - 1];
    }
  }

  // ---------------------------------------------------------------------
  // divmod by 60 and the splits built from it
  // ---------------------------------------------------------------------

  /** Python's `divmod(a, 60)` for a >= 0. */
  function DivMod60(a: nat): (qr: (nat, nat))
    ensures qr.1 < 60 && qr.0 * 60 + qr.1 == a
  {
    (a / 60, a % 60)
  }

  /** The quotient and remainder are the only such pair. */
  lemma DivMod60Unique(a: nat, q: nat, r: nat)
    requires r < 60 && q * 60 + r == a
    ensures DivMod60(a) == (q, r)
  {
  }

  /**
    The stopwatch's split of a whole-second count: `divmod(n, 60)` and then
    `divmod(minutes, 60)`, giving hours, minutes and seconds.
   */
  function SplitHms(n: nat): (hms: (nat, nat, nat))
    ensures hms.1 < 60 && hms.2 < 60
    ensures hms.0 * 3600 + hms.1 * 60 + hms.2 == n
  {
    var (minutes, seconds) := DivMod60(n);
    var (hours, minutes') := DivMod60(minutes);
    (hours, minutes', seconds)
  }

  /** Hours are unbounded, so the split is the only one with in-range minutes and seconds. */
  lemma SplitHmsUnique(n: nat, h: nat, m: nat, s: nat)
    requires m < 60 && s < 60 && h * 3600 + m * 60 + s == n
    ensures SplitHms(n) == (h, m, s)
  {
    DivMod60Unique(n, h * 60 + m, s);
    DivMod60Unique(h * 60 + m, h, m);
  }

  // ---------------------------------------------------------------------
  // The countdown display MM:SS
  // ---------------------------------------------------------------------

  /**
    `f"{minutes:02d}:{seconds:02d}"` where `minutes, seconds = divmod(r, 60)`.
    Five characters exactly when the minutes fit in two digits (r < 6000);
    the width is a minimum, so longer counts widen the text.
   */
  function TimerText(r: nat): (t: string)
    ensures |t| >= 5
    ensures |t| == 5 <==> r < 6000
  {
    var (minutes, seconds) := DivMod60(r);
    JoinLength([minutes, seconds]);
    Join([minutes, seconds])
  }

  /** Reads an `MM:SS` text back as a number of seconds. */
  function ParseTimerText(t: string): Option<nat> {
    match ParseFields(t)
    case Some(f) =>
      if |f| == 2 && f[1] < 60 then Some(f[0] * 60 + f[1]) else None
    case None => None
  }

  lemma TimerTextRoundTrip(r: nat)
    ensures ParseTimerText(TimerText(r)) == Some(r)
  {
    var (minutes, seconds) := DivMod60(r);
    JoinRoundTrip([minutes, seconds]);
  }

  /** Different counts are always displayed differently. */
  lemma TimerTextInjective(a: nat, b: nat)
    requires TimerText(a) == TimerText(b)
    ensures a == b
  {
    TimerTextRoundTrip(a);
    TimerTextRoundTrip(b);
  }

  lemma TimerTextZero()
    ensures TimerText(0) == "00:00"
  {
    assert Decimal(0) == "0";
    assert Pad2(0) == "00";
    assert DivMod60(0) == (0, 0);
    assert [0, 0][1..] == [0];
    assert Join([0]) == "00";
  }

  /** "00:00" is shown for 0 seconds and for nothing else. */
  lemma TimerTextIsZero(r: nat)
    ensures TimerText(r) == "00:00" <==> r == 0
  {
    TimerTextZero();
    if TimerText(r) == "00:00" {
      TimerTextInjective(r, 0);
    }
  }

  // ---------------------------------------------------------------------
  // The stopwatch display HH:MM:SS.CC
  // ---------------------------------------------------------------------

  /**
    `f"{hours:02d}:{minutes:02d}:{seconds:02d}"` for the split of `n`.
    Eight characters exactly when the hours fit in two digits (under 100
    hours); hours are not bounded, so the text widens past that.
   */
  function HmsText(n: nat): (t: string)
    ensures |t| >= 8
    ensures |t| == 8 <==> n < 360000
  {
    var (h, m, s) := SplitHms(n);
    JoinLength([h, m, s]);
    Join([h, m, s])
  }

  /** Reads an `HH:MM:SS` text back as a number of seconds. */
  function ParseHmsText(t: string): Option<nat> {
    match ParseFields(t)
    case Some(f) =>
      if |f| == 3 && f[1] < 60 && f[2] < 60 then Some(f[0] * 3600 + f[1] * 60 + f[2]) else None
    case None => None
  }

  lemma HmsTextRoundTrip(n: nat)
    ensures ParseHmsText(HmsText(n)) == Some(n)
  {
    var (h, m, s) := SplitHms(n);
    JoinRoundTrip([h, m, s]);
  }

  /**
    The full stopwatch display: whole seconds split to H:M:S, then `.` and
    the two centisecond digits; eleven characters below 100 hours.
   */
  function StopwatchText(n: nat, centiseconds: nat): (t: string)
    requires centiseconds < 100
    ensures |t| >= 11
    ensures |t| == 11 <==> n < 360000
  {
    HmsText(n) + "." + Pad2(centiseconds)
  }

  /** Reads an `HH:MM:SS.CC` text back as whole seconds and centiseconds. */
  function ParseStopwatchText(t: string): Option<(nat, nat)> {
    if |t| >= 3 && t[|t| - 3] == '.' && AllDigits(t[|t| - 2..]) then
      match ParseHmsText(t[..|t| - 3])
      case Some(n) => Some((n, Value(t[|t| - 2..])))
      case None => None
    else None
  }

  /** With centiseconds below 100 (two digits) the display loses nothing. */
  lemma StopwatchTextRoundTrip(n: nat, centiseconds: nat)
    requires centiseconds < 100
    ensures ParseStopwatchText(StopwatchText(n, centiseconds)) == Some((n, centiseconds))
  {
    var hms := HmsText(n);
    var cc := Pad2(centiseconds);
    Pad2Digits(centiseconds);
    var t := hms + "." + cc;
    assert t[|t| - 3] == '.';
    assert t[|t| - 2..] == cc;
    assert t[..|t| - 3] == hms;
    HmsTextRoundTrip(n);
  }

  /** The text a reset shows is the H:M:S text of zero seconds, without centiseconds. */
  lemma HmsTextZero()
    ensures HmsText(0) == "00:00:00"
  {
    assert Decimal(0) == "0";
    assert Pad2(0) == "00";
    assert SplitHms(0) == (0, 0, 0);
    assert [0, 0, 0][1..] == [0, 0];
    assert [0, 0][1..] == [0];
    assert Join([0]) == "00";
    assert Join([0, 0]) == "00:00";
  }
}
