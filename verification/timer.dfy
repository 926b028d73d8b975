/** The stopwatch (components/Timer.tsx): the `HH:MM:SS` rendering of an
    elapsed time in milliseconds and the start / tick / stop / reset state
    machine. The clock (`Date.now()`) is a parameter of every step that reads it,
    and each firing of the one-second interval is one `Tick`. */
module Timer {
  import opened Strings
  import opened Wrappers

  /** JavaScript's `%` on integers: the remainder has the sign of the dividend. */
  function JsRem(a: int, b: int): (r: int)
    requires b > 0
    ensures a >= 0 ==> r == a % b
    ensures a < 0 ==> -b < r <= 0
    ensures a < 0 ==> r == a + b * ((-a) / b)
  {
    if a >= 0 then a % b else -((-a) % b)
  }

  /** The three fields `formatTime` prints. */
  datatype Clock = Clock(hours: int, minutes: int, seconds: int)

  /** The fields of `formatTime`: `Math.floor` divisions and JavaScript remainders
      (Dafny's `/` by a positive divisor already rounds down). For a non-negative
      time they are whole hours, minutes and seconds. */
  function TimeFields(ms: int): (c: Clock)
    ensures ms >= 0 ==> 0 <= c.minutes < 60 && 0 <= c.seconds < 60 && c.hours >= 0
    ensures ms >= 0 ==> c.hours * 3600 + c.minutes * 60 + c.seconds == ms / 1000
  {
    var totalSeconds := ms / 1000;
    SplitSeconds(totalSeconds);
    Clock(totalSeconds / 3600, JsRem(totalSeconds, 3600) / 60, JsRem(totalSeconds, 60))
  }

  /** Whole seconds split into hours, minutes below 60 and seconds below 60. */
  lemma SplitSeconds(t: int)
    ensures t >= 0 ==> 0 <= (t % 3600) / 60 < 60
    ensures t >= 0 ==> (t / 3600) * 3600 + ((t % 3600) / 60) * 60 + t % 60 == t
  {
    if t >= 0 {
      var h, r := t / 3600, t % 3600;
      var q, s := r / 60, r % 60;
      assert t == h * 3600 + r && r == q * 60 + s;
      assert t == (h * 60 + q) * 60 + s;
      assert t % 60 == s;
    }
  }

  /** `n.toString().padStart(2, '0')`. */
  function Field(n: int): (r: string)
    ensures |r| >= 2
  {
    PadStart(IntToString(n), 2, '0')
  }

  /** `formatTime`: the three fields, each padded to two characters, joined by ':'. */
  function FormatTime(ms: int): (r: string)
    ensures |r| >= 8
  {
    var c := TimeFields(ms);
    Field(c.hours) + ":" + Field(c.minutes) + ":" + Field(c.seconds)
  }

  /** Positions `i` and `i + 1` of `r` hold decimal digits. */
  predicate TwoDigitsAt(r: string, i: nat)
    requires i + 1 < |r|
  {
    IsDigit(r[i]) && IsDigit(r[i + 1])
  }

  /** The two-digit number at positions `i` and `i + 1`. */
  function ValueAt(r: string, i: nat): nat
    requires i + 1 < |r| && TwoDigitsAt(r, i)
  {
    DigitValue(r[i]) * 10 + DigitValue(r[i + 1])
  }

  /** A field below 100 prints as exactly two digits that read back as its value. */
  lemma TwoDigitField(n: nat)
    requires n < 100
    ensures |Field(n)| == 2 && TwoDigitsAt(Field(n), 0) && ValueAt(Field(n), 0) == n
  {
    if n < 10 {
      assert IntToString(n) == [DigitChar(n)];
      assert Field(n) == ['0', DigitChar(n)];
    } else {
      assert NatToString(n / 10) == [DigitChar(n / 10)];
      assert IntToString(n) == [DigitChar(n / 10), DigitChar(n % 10)];
      assert Field(n) == [DigitChar(n / 10), DigitChar(n % 10)];
    }
  }

  /** Joining three two-digit fields with ':' gives `HH:MM:SS` with the fields'
      digits in place. */
  lemma JoinedFields(h: string, m: string, sec: string)
    requires |h| == 2 && |m| == 2 && |sec| == 2
    requires TwoDigitsAt(h, 0) && TwoDigitsAt(m, 0) && TwoDigitsAt(sec, 0)
    ensures var r := h + ":" + m + ":" + sec;
            && |r| == 8 && r[2] == ':' && r[5] == ':'
            && TwoDigitsAt(r, 0) && TwoDigitsAt(r, 3) && TwoDigitsAt(r, 6)
            && ValueAt(r, 0) == ValueAt(h, 0) && ValueAt(r, 3) == ValueAt(m, 0) && ValueAt(r, 6) == ValueAt(sec, 0)
  {
    var r := h + ":" + m + ":" + sec;
    assert r[0] == h[0] && r[1] == h[1] && r[3] == m[0] && r[4] == m[1] && r[6] == sec[0] && r[7] == sec[1];
  }

  /** Below 100 hours the text is exactly `HH:MM:SS`: minutes and seconds read
      back below 60, and the three fields read back give the whole seconds of the
      elapsed time (which fixes each of them). */
  lemma FormatTimeReadsBack(ms: int)
    requires 0 <= ms < 100 * 3600 * 1000
    ensures var r := FormatTime(ms);
            && |r| == 8 && r[2] == ':' && r[5] == ':'
            && TwoDigitsAt(r, 0) && TwoDigitsAt(r, 3) && TwoDigitsAt(r, 6)
            && ValueAt(r, 3) < 60 && ValueAt(r, 6) < 60
            && ValueAt(r, 0) * 3600 + ValueAt(r, 3) * 60 + ValueAt(r, 6) == ms / 1000
  {
    var c := TimeFields(ms);
    assert c.hours < 100;
    TwoDigitField(c.hours);
    TwoDigitField(c.minutes);
    TwoDigitField(c.seconds);
    JoinedFields(Field(c.hours), Field(c.minutes), Field(c.seconds));
  }

  /** 65 seconds show as "00:01:05". */
  lemma SixtyFiveSeconds()
    ensures FormatTime(65000) == "00:01:05"
  {
    assert TimeFields(65000) == Clock(0, 1, 5);
    assert Field(0) == "00" && Field(1) == "01" && Field(5) == "05";
  }

  /** A negative elapsed time (the wall clock set back) prints the JavaScript way:
      the hours round down while minutes and seconds keep the dividend's sign. */
  lemma MinusOneSecond()
    ensures TimeFields(-1000) == Clock(-1, -1, -1)
    ensures FormatTime(-1000) == "-1:-1:-1"
  {
    assert JsRem(-1, 3600) == -1 && JsRem(-1, 60) == -1;
    assert TimeFields(-1000) == Clock(-1, -1, -1);
    assert IntToString(-1) == "-1";
  }

  class Stopwatch {
    var isRunning: bool
    var startTime: Option<int>
    var currentTime: int
    var finalTime: Option<int>

    /** A running stopwatch has a start time. */
    ghost predicate Valid()
      reads this
    {
      isRunning ==> startTime.Some?
    }

    /** The initial `useState` values. */
    constructor ()
      ensures Valid()
      ensures !isRunning && startTime == None && currentTime == 0 && finalTime == None
    {
      isRunning := false;
      startTime := None;
      currentTime := 0;
      finalTime := None;
    }

    /** `handleStart`: the start moves back by the time already shown, so the
        count resumes rather than restarting; the final time is cleared. */
    method HandleStart(now: int)
      modifies this
      ensures Valid()
      ensures startTime == Some(now - old(currentTime))
      ensures isRunning && finalTime == None && currentTime == old(currentTime)
    {
      startTime := Some(now - currentTime);
      isRunning := true;
      finalTime := None;
    }

    /** One firing of the interval: only while running, the shown time becomes
        the time since the start. */
    method Tick(now: int)
      requires Valid()
      modifies this`currentTime
      ensures Valid()
      ensures if isRunning then currentTime == now - startTime.value
              else currentTime == old(currentTime)
    {
      if isRunning && startTime.Some? {
        currentTime := now - startTime.value;
      }
    }

    /** `handleStop`: stops and keeps the shown time as the final time. */
    method HandleStop()
      modifies this
      ensures Valid()
      ensures !isRunning && finalTime == Some(old(currentTime))
      ensures currentTime == old(currentTime) && startTime == old(startTime)
    {
      isRunning := false;
      finalTime := Some(currentTime);
    }

    /** `handleReset`, from any state: stopped, at zero, no final time. */
    method HandleReset()
      modifies this
      ensures Valid()
      ensures !isRunning && currentTime == 0 && finalTime == None
      ensures startTime == old(startTime)
    {
      isRunning := false;
      currentTime := 0;
      finalTime := None;
    }
  }

  /** Start at t0, tick at t1, stop, start again at t2 and tick at t3: the
      stopwatch shows the two running spans added up. */
  method StopAndResume(t0: int, t1: int, t2: int, t3: int) returns (shown: int, final: Option<int>)
    ensures shown == (t1 - t0) + (t3 - t2)
    ensures final == None
  {
    var sw := new Stopwatch();
    sw.HandleStart(t0);
    sw.Tick(t1);
    sw.HandleStop();
    assert sw.finalTime == Some(t1 - t0);
    sw.Tick(t2);
    sw.HandleStart(t2);
    sw.Tick(t3);
    shown := sw.currentTime;
    final := sw.finalTime;
  }
}
