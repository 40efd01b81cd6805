/** JSONProgress.String: the bar, the counts and the estimate of the time left. */
module ProgressBar {
  import opened BarLength
  import opened BarPercentage
  import opened Common
  import opened Terminal
  import opened TimeEstimate

  datatype Progress = Progress(current: int, total: int, start: int, hideCounts: bool, units: string)

  /** What the program asks of its surroundings: terminal width, time, machine, and the formatters of two libraries. */
  datatype Env = Env(
    winsize: Option<int>, now: int, machine: Machine, humanSize: int -> string, duration: int -> string)
  {
    function Width(): int {
      if winsize.Some? then winsize.value else 200
    }
  }

  function Digits(n: int): string {
    if n >= 0 then Decimal(n) else "-" + Decimal(-n)
  }

  function PadLeft(s: string, n: nat): (r: string)
    ensures |r| == Max(|s|, n) && s == r[|r| - |s|..]
    ensures forall i :: 0 <= i < |r| - |s| ==> r[i] == ' '
  {
    Blank(Max(0, n - |s|)) + s
  }

  function Repeat(c: char, n: nat): (r: string)
    ensures |r| == n && forall i :: 0 <= i < n ==> r[i] == c
  {
    seq(n, _ => c)
  }

  function BarBox(percentage: nat): (r: string)
    requires percentage <= 50
    ensures |r| == 54
  {
    "[" + Repeat('=', percentage) + ">" + Repeat(' ', 50 - percentage) + "] "
  }

  function NumbersBox(p: Progress, e: Env): string {
    if p.hideCounts then ""
    else if p.units == "" then
      PadLeft(e.humanSize(p.current), 8) + if p.current > p.total then "" else "/" + e.humanSize(p.total)
    else if p.current > p.total then Digits(p.current) + " " + p.units
    else Digits(p.current) + "/" + Digits(p.total) + " " + p.units
  }

  function TimeLeftBox(p: Progress, e: Env): string
    requires p.total > 0
  {
    if p.current > 0 && p.start > 0 && Percentage(e.machine, p.current, p.total) < 50 && e.Width() > 50 then
      " " + e.duration(TimeLeft(p.current, p.total, Saturate(e.now - Instant(p.start) * SECOND)))
    else ""
  }

  /** Without a known width the terminal is taken to be wide enough for everything. */
  lemma WidthFields(e: Env)
    ensures e.winsize.None? ==> e.Width() == 200
    ensures e.winsize.Some? ==> e.Width() == e.winsize.value
  {
  }

  lemma DigitsFields(n: int)
    ensures n >= 0 ==> Digits(n) == Decimal(n)
    ensures n < 0 ==> Digits(n) == "-" + Decimal(-n)
  {
  }

  predicate EndsWith(text: Option<string>, tail: string) {
    text.Some? && |tail| <= |text.value| && text.value[|text.value| - |tail|..] == tail
  }

  /** The start and the elapsed time are within the range of the program's clock arithmetic. */
  predicate ClockInRange(p: Progress, e: Env) {
    && -0x8000_0000_0000_0000 <= p.start + 62_135_596_800 < 0x8000_0000_0000_0000
    && -0x8000_0000_0000_0000 <= e.now - p.start * 1_000_000_000 < 0x8000_0000_0000_0000
  }

  lemma EstimateShown(p: Progress, e: Env)
    requires 0 < p.current && 0 < p.total < TWO_63 && ClockInRange(p, e)
    ensures p.start > 0 && e.Width() > 50 && Percentage(e.machine, p.current, p.total) < 50 ==>
              var elapsed := e.now - p.start * 1_000_000_000;
              exists left ::
                && TimeLeftBox(p, e) == " " + e.duration(left)
                && (GoodEstimate(p.current, p.total, elapsed, left) <==>
                      && p.current < p.total && 0 <= elapsed
                      && (p.total - p.current) * (elapsed / p.current) < 0x8000_0000_0000_0000)
  {
    hide Percentage;
    InstantFields(p.start);
    var elapsed := e.now - p.start * SECOND;
    SaturateFields(elapsed);
    TimeLeftBounds(p.current, p.total, elapsed);
    hide TimeLeft;
    hide Instant;
    hide Saturate;
    var left := TimeLeft(p.current, p.total, elapsed);
    assert GoodEstimate(p.current, p.total, elapsed, left) || !GoodEstimate(p.current, p.total, elapsed, left);
  }

  lemma TailOf(head: string, tail: string)
    ensures EndsWith(Some(head + tail), tail)
  {
  }

  /** What String needs to know about the percentage. */
  lemma RawPercentage(m: Machine, current: int, total: int)
    requires total > 0
    ensures var x := Scaled(current, total);
            var raw := TruncDiv(if InRange(x) then Truncate(x) else m.outside(x), 2);
            Percentage(m, current, total) == (if raw > 50 then 50 else raw)
    ensures Percentage(m, current, total) < 0 <==> NegativeCount(m, current, total)
    ensures current < 0 && !OutOfRange(current, total) ==> Percentage(m, current, total) <= 0
  {
    hide Scaled;
    hide OutOfRange;
    hide FarBelowZero;
    PercentageNegative(m, current, total);
    if !OutOfRange(current, total) {
      FitsAsBar(m, current, total);
      BarNegative(current, total);
    }
  }

  lemma NumbersText(p: Progress, e: Env)
    ensures p.hideCounts ==> NumbersBox(p, e) == ""
    ensures !p.hideCounts && p.units == "" ==>
              NumbersBox(p, e) == if p.current > p.total then PadLeft(e.humanSize(p.current), 8)
                                  else PadLeft(e.humanSize(p.current), 8) + "/" + e.humanSize(p.total)
    ensures !p.hideCounts && p.units != "" ==>
              NumbersBox(p, e) == if p.current > p.total then Digits(p.current) + " " + p.units
                                  else Digits(p.current) + "/" + Digits(p.total) + " " + p.units
  {
    hide PadLeft;
    hide Digits;
    assert PadLeft(e.humanSize(p.current), 8) + "" == PadLeft(e.humanSize(p.current), 8);
    assert PadLeft(e.humanSize(p.current), 8) + ("/" + e.humanSize(p.total))
        == PadLeft(e.humanSize(p.current), 8) + "/" + e.humanSize(p.total);
  }

  lemma TimeLeftText(p: Progress, e: Env)
    requires p.total > 0
    ensures TimeLeftBox(p, e) ==
            if p.current > 0 && p.start > 0 && Percentage(e.machine, p.current, p.total) < 50 && e.Width() > 50 then
              var perEntry := TruncDiv(Saturate(e.now - Instant(p.start) * SECOND), p.current);
              " " + e.duration(TruncDiv(Wrap((p.total - p.current) * perEntry), SECOND) * SECOND)
            else ""
  {
  }

  lemma BarText(percentage: int)
    ensures 0 <= percentage <= 50 ==>
              BarBox(percentage) == "[" + Repeat('=', percentage) + ">" + Repeat(' ', 50 - percentage) + "] "
  {
  }

  /**
   The text of a progress detail; None where the program panics on a negative
   repeat count. It panics exactly on a terminal wide enough for the bar, for a
   count far enough below zero or a conversion that comes out negative.
   */
  method String(p: Progress, e: Env) returns (text: Option<string>)
    ensures text.None? <==> p.total > 0 && e.Width() > 110 && NegativeCount(e.machine, p.current, p.total)
    ensures p.total <= 0 && p.current <= 0 ==> text == Some("")
    ensures p.total <= 0 < p.current && p.units == "" ==> text == Some(PadLeft(e.humanSize(p.current), 8))
    ensures p.total <= 0 < p.current && p.units != "" ==> text == Some(Digits(p.current) + " " + p.units)
    ensures p.total > 0 && e.Width() <= 110 ==> text == Some(NumbersBox(p, e) + TimeLeftBox(p, e))
    ensures p.total > 0 && e.Width() > 110 && text.Some? ==>
              var percentage := Percentage(e.machine, p.current, p.total);
              && 0 <= percentage <= 50
              && (p.current < 0 && !OutOfRange(p.current, p.total) ==> percentage == 0)
              && text == Some(BarBox(percentage) + NumbersBox(p, e) + TimeLeftBox(p, e))
    ensures text.Some? && 0 < p.current && 0 < p.total < TWO_63 && ClockInRange(p, e)
            && p.start > 0 && e.Width() > 50 && Percentage(e.machine, p.current, p.total) < 50 ==>
              var elapsed := e.now - p.start * 1_000_000_000;
              exists left ::
                && EndsWith(text, " " + e.duration(left))
                && (GoodEstimate(p.current, p.total, elapsed, left) <==>
                      && p.current < p.total && 0 <= elapsed
                      && (p.total - p.current) * (elapsed / p.current) < 0x8000_0000_0000_0000)
  {
    hide Scaled;
    hide InRange;
    hide Truncate;
    hide TruncDiv;
    hide Percentage;
    hide OutOfRange;
    hide NegativeCount;
    hide Wrap;
    hide Saturate;
    hide Instant;
    hide NumbersBox;
    hide TimeLeftBox;
    hide BarBox;
    hide GoodEstimate;
    hide ClockInRange;
    hide EndsWith;
    hide PadLeft;
    hide Digits;
    hide Repeat;
    var pbBox, numbersBox, timeLeftBox := "", "", "";
    if p.current <= 0 && p.total <= 0 {
      return Some("");
    }
    if p.total <= 0 {
      if p.units == "" {
        return Some(PadLeft(e.humanSize(p.current), 8));
      } else {
        return Some(Digits(p.current) + " " + p.units);
      }
    }
    var x := Scaled(p.current, p.total);
    var percentage := TruncDiv(if InRange(x) then Truncate(x) else e.machine.outside(x), 2);
    RawPercentage(e.machine, p.current, p.total);
    if percentage > 50 {
      percentage := 50;
    }
    assert percentage == Percentage(e.machine, p.current, p.total);
    if e.Width() > 110 {
      var numSpaces := 0;
      if 50 - percentage > 0 {
        numSpaces := 50 - percentage;
      }
      if percentage < 0 {
        return None;
      }
      pbBox := "[" + Repeat('=', percentage) + ">" + Repeat(' ', numSpaces) + "] ";
    }
    if p.hideCounts {
    } else if p.units == "" {
      var current, total := e.humanSize(p.current), e.humanSize(p.total);
      numbersBox := PadLeft(current, 8) + "/" + total;
      if p.current > p.total {
        numbersBox := PadLeft(current, 8);
      }
    } else {
      numbersBox := Digits(p.current) + "/" + Digits(p.total) + " " + p.units;
      if p.current > p.total {
        numbersBox := Digits(p.current) + " " + p.units;
      }
    }
    NumbersText(p, e);
    assert numbersBox == NumbersBox(p, e);
    if p.current > 0 && p.start > 0 && percentage < 50 {
      var fromStart := Saturate(e.now - Instant(p.start) * SECOND);
      var perEntry := TruncDiv(fromStart, p.current);
      var left := (p.total - p.current) * perEntry;
      left := TruncDiv(Wrap(left), SECOND) * SECOND;
      if e.Width() > 50 {
        timeLeftBox := " " + e.duration(left);
      }
    }
    TimeLeftText(p, e);
    assert timeLeftBox == TimeLeftBox(p, e);
    assert "" + numbersBox == numbersBox;
    BarText(Percentage(e.machine, p.current, p.total));
    TailOf(pbBox + numbersBox, timeLeftBox);
    if 0 < p.current && p.total < TWO_63 && ClockInRange(p, e) {
      EstimateShown(p, e);
    }
    return Some(pbBox + numbersBox + timeLeftBox);
  }
}
