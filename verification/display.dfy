/**
 What the main window shows of the timer (src/c/rest-time.c): the countdown
 as `m:ss` text (`format_time`) and the one-word status line of
 `update_progressbar`.
 */
module Display {
  import opened CInt
  import opened Options
  import opened Timer

  /** `TIME_STR_LENGTH`: the text buffer, terminating NUL included. */
  const TimeStrLength: int := 6

  predicate IsDigit(ch: char) {
    '0' <= ch <= '9'
  }

  predicate AllDigits(s: string) {
    forall i :: 0 <= i < |s| ==> IsDigit(s[i])
  }

  function DigitChar(d: int): (ch: char)
    requires 0 <= d < 10
    ensures IsDigit(ch)
  {
    ('0' as int + d) as char
  }

  function DigitOf(ch: char): (d: nat)
    requires IsDigit(ch)
    ensures d < 10
  {
    (ch as int - '0' as int) as nat
  }

  /** `%d` of a non-negative number: its decimal digits, no leading zeros. */
  function Decimal(n: nat): (s: string)
    ensures |s| >= 1 && AllDigits(s)
    decreases n
  {
    if n < 10 then [DigitChar(n)] else Decimal(n / 10) + [DigitChar(n % 10)]
  }

  /** `%02d` of a number below 100: two digits, zero-padded. */
  function Pad2(n: nat): (s: string)
    requires n < 100
    ensures |s| == 2 && AllDigits(s)
  {
    [DigitChar(n / 10), DigitChar(n % 10)]
  }

  /** The number a string of decimal digits denotes. */
  function DigitsValue(s: string): nat
    requires AllDigits(s)
    decreases |s|
  {
    if |s| == 0 then 0 else DigitsValue(s[..|s| - 1]) * 10 + DigitOf(s[|s| - 1])
  }

  /** Reading digits back gives the number they were written from. */
  lemma {:induction false} DecimalValue(n: nat)
    ensures DigitsValue(Decimal(n)) == n
    decreases n
  {
    if n >= 10 {
      DecimalValue(n / 10);
      var s := Decimal(n);
      assert s[..|s| - 1] == Decimal(n / 10);
    }
  }

  lemma Pad2Value(n: nat)
    requires n < 100
    ensures DigitsValue(Pad2(n)) == n
  {
    var s := Pad2(n);
    assert s[..1][..0] == [];
    assert DigitsValue(s[..1]) == n / 10;
  }

  /**
   Reads `m:ss` text back into seconds: minutes digits, a colon, and exactly
   two seconds digits. The inverse of formatting, used to state what the
   formatted text says.
   */
  function ParseTime(s: string): Option<nat> {
    if |s| >= 4 && s[|s| - 3] == ':' && AllDigits(s[..|s| - 3]) && AllDigits(s[|s| - 2..]) then
      Some(DigitsValue(s[..|s| - 3]) * 60 + DigitsValue(s[|s| - 2..]))
    else
      None
  }

  /** `snprintf` into a buffer of `size` bytes keeps at most `size - 1` characters. */
  function Truncate(s: string, size: nat): (t: string)
    requires size >= 1
    ensures |t| <= size - 1
    ensures |s| < size ==> t == s
    ensures t == s[..|t|]
  {
    if |s| < size then s else s[..size - 1]
  }

  /** The text `format_time` would produce given a buffer large enough. */
  function MinutesSeconds(t: int): string {
    var a := Abs(t);
    Decimal(a / 60) + ":" + Pad2(a % 60)
  }

  /**
   `format_time` as written: `%01d:%02d` of the minutes and seconds of |t|,
   cut to the 5 characters the 6-byte buffer holds.
   */
  function FormatTime(t: int): (s: string)
    requires Int32Min < t <= Int32Max
    ensures |s| <= TimeStrLength - 1
  {
    Truncate(MinutesSeconds(t), TimeStrLength)
  }

  /**
   `format_time` with a buffer wide enough for any minute count: what the
   countdown display evidently means to show.
   */
  function FormatTimeWide(t: int): (s: string)
    requires Int32Min < t <= Int32Max
    ensures ParseTime(s) == Some(Abs(t))
    ensures |s| >= 4 && s[|s| - 3] == ':'
  {
    var s := MinutesSeconds(t);
    MinutesSecondsParse(t);
    s
  }

  lemma MinutesSecondsParse(t: int)
    ensures ParseTime(MinutesSeconds(t)) == Some(Abs(t))
  {
    var a := Abs(t);
    var m := Decimal(a / 60);
    var sec := Pad2(a % 60);
    var s := MinutesSeconds(t);
    assert s == m + ":" + sec;
    assert |s| == |m| + 3;
    assert s[..|s| - 3] == m;
    assert s[|s| - 3] == ':';
    assert s[|s| - 2..] == sec;
    DecimalValue(a / 60);
    Pad2Value(a % 60);
  }

  /** The sign of the countdown never shows: overrun reads like time left. */
  lemma FormatTimeSymmetric(t: int)
    requires Int32Min < t <= Int32Max
    ensures FormatTime(t) == FormatTime(-t)
  {
  }

  /**
   Below 100 minutes nothing is cut: the text is the minutes, a colon and the
   two-digit seconds of |t|, and it reads back as |t|.
   */
  lemma FormatTimeBelow100Minutes(t: int)
    requires Abs(t) < 6000
    ensures FormatTime(t) == Decimal(Abs(t) / 60) + ":" + Pad2(Abs(t) % 60)
    ensures ParseTime(FormatTime(t)) == Some(Abs(t))
  {
    var a := Abs(t);
    if a / 60 >= 10 {
      assert Decimal(a / 60) == Decimal(a / 600) + [DigitChar(a / 60 % 10)];
    }
    MinutesSecondsParse(t);
  }

  /**
   From 100 minutes on the buffer cuts the seconds field: 6000 seconds show as
   `100:0`, which no longer reads as a time.
   */
  lemma FormatTimeCutAt100Minutes()
    ensures FormatTime(6000) == "100:0"
    ensures ParseTime(FormatTime(6000)) == None
  {
    assert Decimal(100) == "100";
    assert Pad2(0) == "00";
    assert MinutesSeconds(6000) == "100:00";
  }

  /** The status line of `update_progressbar`. */
  datatype Status = Ready | Paused | Overrun | Blank

  /**
   A paused timer at its phase's full interval is "Ready" and any other
   paused timer "Paused"; a running timer below zero is "Overrun" and one at
   or above zero shows nothing.
   */
  function StatusOf(cfg: Config, c: Countdown): (s: Status)
    ensures s == Ready <==> c.paused && c.remaining == Interval(cfg, c.phase)
    ensures s == Paused <==> c.paused && c.remaining != Interval(cfg, c.phase)
    ensures s == Overrun <==> !c.paused && c.remaining < 0
    ensures s == Blank <==> !c.paused && c.remaining >= 0
  {
    if c.paused then
      var interval := if c.phase == Rest then cfg.rest else cfg.work;
      if c.remaining == interval then Ready else Paused
    else if c.remaining < 0 then
      Overrun
    else
      Blank
  }

  function StatusText(s: Status): string {
    match s
    case Ready => "Ready"
    case Paused => "Paused"
    case Overrun => "Overrun"
    case Blank => ""
  }

  /** A phase just entered (with a non-negative interval) shows a blank status. */
  lemma StatusAfterStart(cfg: Config, p: Phase)
    requires Interval(cfg, p) >= 0
    ensures StatusOf(cfg, StartMode(cfg, p).countdown) == Blank
  {
  }

  /**
   With overrun on, the tick that takes a running timer below zero turns the
   status to "Overrun".
   */
  lemma StatusAfterOverrunTick(cfg: Config, c: Countdown)
    requires cfg.overrun && !c.paused && c.remaining <= 0
    ensures StatusOf(cfg, Tick(cfg, c).countdown) == Overrun
  {
  }
}
