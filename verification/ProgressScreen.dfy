/**
 What the renderer's output looks like on a terminal. Three levels: the
 terminal fed with the emitted characters, the paper the terminal writes on
 (where an update reaches at most height - 1 rows above the cursor), and the
 log a user expects: committed lines, then one line per layer of the current
 epoch in order of first appearance, then the line of the cursor.
 */
module ProgressScreen {
  import opened Common
  import opened Terminal
  import opened JsonStream

  /** What a message does to the row of the cursor. */
  datatype Draw = Nothing | Replace(text: string) | Overlay(text: string) | OverlayLine(text: string)

  function DrawOf(m: Message): Draw {
    if m.error.Some? then Nothing
    else if m.progress.Some? then
      if m.stream == "" then Replace(m.Label() + m.status + " " + m.progress.value)
      else if m.progress.value != "" then Nothing
      else Overlay(m.Label() + m.status + " ")
    else if m.progressMessage != "" then Overlay(m.Label() + m.status + " " + m.progressMessage)
    else if m.stream != "" then Overlay(m.Label() + m.stream)
    else OverlayLine(m.Label() + m.status)
  }

  predicate FitsDraw(d: Draw, width: nat) {
    d.Nothing? || (Printable(d.text) && |d.text| <= width)
  }

  /** Nothing the message prints contains control characters or is wider than the screen. */
  predicate Fits(m: Message, width: nat) {
    !m.isAux ==> FitsDraw(DrawOf(m), width)
  }

  function Paint(row: Row, d: Draw): (r: Row)
    requires FitsDraw(d, |row|)
    ensures |r| == |row|
  {
    match d
    case Nothing => row
    case Replace(t) => t + Blank(|row| - |t|)
    case Overlay(t) => Overwrite(row, 0, t)
    case OverlayLine(t) => Overwrite(row, 0, t)
  }

  // ---------------------------------------------------------------- terminal

  predicate Home(t: Tty) {
    t.WellFormed() && t.mode.Ground? && t.screen.col == 0
  }

  lemma FeedEraseLeft(t: Tty)
    requires Home(t)
    ensures FeedAll(t, [ESC] + "[1K") == t.(screen := t.screen.EraseLeft())
  {
    hide FeedAll;
    assert Decimal(1) == "1";
    assert [ESC] + "[" + Decimal(1) + ['K'] == [ESC] + "[1K";
    FeedControl(t, 1, 'K');
  }

  lemma FeedEraseRight(t: Tty)
    requires Home(t)
    ensures FeedAll(t, [ESC] + "[K") == t.(screen := t.screen.EraseRight())
  {
    hide FeedAll;
    assert [ESC] + "[" + ['K'] == [ESC] + "[K";
    FeedBareControl(t, 'K');
  }

  lemma EraseWholeRow(s: Screen)
    requires s.WellFormed() && s.col == 0
    ensures s.EraseLeft().EraseRight() == s.SetRow(Blank(s.width))
  {
    var left := s.EraseLeft();
    assert left.window[left.row][..0] + Blank(s.width - 0) == Blank(s.width);
    assert left.window[s.row := Blank(s.width)] == s.window[s.row := Blank(s.width)];
  }

  /** The two EL sequences together erase the whole row. */
  lemma FeedClear(t: Tty)
    requires Home(t)
    ensures FeedAll(t, ClearBytes() + "\r") == t.(screen := t.screen.SetRow(Blank(t.screen.width)))
  {
    hide FeedAll;
    var u := t.(screen := t.screen.EraseLeft());
    var v := t.(screen := t.screen.SetRow(Blank(t.screen.width)));
    FeedEraseLeft(t);
    FeedEraseRight(u);
    EraseWholeRow(t.screen);
    FeedConcat(t, [ESC] + "[1K", [ESC] + "[K");
    FeedConcat(t, ClearBytes(), "\r");
    FeedChar(v, '\r');
  }

  /** The screen after writing text from the start of the cursor's row, cursor back in column 0. */
  function Written(s: Screen, text: string): (r: Screen)
    requires s.WellFormed() && |text| <= s.width
    ensures s.col == 0 ==> r.WellFormed()
  {
    s.SetRow(Overwrite(s.window[s.row], 0, text))
  }

  lemma FeedPlain(t: Tty, text: string)
    requires Home(t) && Printable(text) && |text| <= t.screen.width
    ensures FeedAll(t, text) == t.(screen := Written(t.screen, text).(col := |text|))
  {
    hide FeedAll;
    FeedText(t, text);
  }

  /** Text followed by a carriage return. */
  lemma FeedLine(t: Tty, text: string)
    requires Home(t) && Printable(text) && |text| <= t.screen.width
    ensures FeedAll(t, text + "\r") == t.(screen := Written(t.screen, text))
  {
    hide FeedAll;
    FeedPlain(t, text);
    hide Written;
    FeedConcat(t, text, "\r");
    FeedChar(FeedAll(t, text), '\r');
  }

  /** A line feed keeps the column; the carriage return after it goes back to column 0. */
  lemma FeedEndOfLine(t: Tty, col: nat)
    requires Home(t) && col <= t.screen.width
    ensures FeedAll(t.(screen := t.screen.(col := col)), "\n\r") == t.(screen := t.screen.LineFeed())
  {
  }

  lemma FeedNewLine(t: Tty, text: string)
    requires Home(t) && Printable(text) && |text| <= t.screen.width
    ensures FeedAll(t, text + "\n\r") == t.(screen := Written(t.screen, text).LineFeed())
  {
    hide FeedAll;
    FeedPlain(t, text);
    assert Home(t.(screen := Written(t.screen, text)));
    hide Written;
    FeedConcat(t, text, "\n\r");
    FeedEndOfLine(t.(screen := Written(t.screen, text)), |text|);
  }

  function DrawOn(s: Screen, d: Draw): (r: Screen)
    requires s.WellFormed() && FitsDraw(d, s.width)
    ensures r.WellFormed()
  {
    var p := s.SetRow(Paint(s.window[s.row], d));
    if d.OverlayLine? then p.LineFeed() else p
  }

  /** The characters of Display, in terms of what they draw. */
  lemma DisplayBytesDraw(m: Message)
    ensures var d := DrawOf(m);
            DisplayBytes(m, true) ==
            match d
            case Nothing => ""
            case Replace(text) => (ClearBytes() + "\r") + (text + "\r")
            case Overlay(text) => text + "\r"
            case OverlayLine(text) => text + "\n\r"
  {
    hide ClearBytes;
    hide Message.Label;
  }

  lemma FeedReplace(t: Tty, text: string)
    requires Home(t) && Printable(text) && |text| <= t.screen.width
    ensures FeedAll(t, (ClearBytes() + "\r") + (text + "\r")) ==
            t.(screen := t.screen.SetRow(Paint(t.screen.window[t.screen.row], Replace(text))))
  {
    hide FeedAll;
    hide ClearBytes;
    hide Overwrite;
    hide Blank;
    var blank := Blank(t.screen.width);
    var u := t.(screen := t.screen.SetRow(blank));
    FeedClear(t);
    FeedConcat(t, ClearBytes() + "\r", text + "\r");
    FeedLine(u, text);
    OverwriteBlank(t.screen.width, text);
    SetRowTwice(t.screen, blank, Overwrite(blank, 0, text));
  }

  lemma OverwriteBlank(width: nat, text: string)
    requires |text| <= width
    ensures Overwrite(Blank(width), 0, text) == text + Blank(width - |text|)
  {
  }

  /** Display's characters paint the cursor's row and leave the cursor in column 0. */
  lemma FeedDisplay(t: Tty, m: Message)
    requires Home(t) && !m.isAux && Fits(m, t.screen.width)
    ensures FeedAll(t, DisplayBytes(m, true)) == t.(screen := DrawOn(t.screen, DrawOf(m)))
  {
    DisplayBytesDraw(m);
    hide DisplayBytes;
    hide DrawOf;
    hide ClearBytes;
    hide FeedAll;
    match DrawOf(m)
    case Nothing =>
      FeedNothing(t);
      assert t.screen.window[t.screen.row := t.screen.window[t.screen.row]] == t.screen.window;
    case Replace(text) => FeedReplace(t, text);
    case Overlay(text) => FeedLine(t, text);
    case OverlayLine(text) => FeedNewLine(t, text);
  }

  lemma FeedMove(t: Tty, n: nat)
    requires Home(t)
    ensures FeedAll(t, MoveBytes(n, 'A')) == t.(screen := t.screen.Up(n))
    ensures FeedAll(t, MoveBytes(n, 'B')) == t.(screen := t.screen.Down(n))
  {
    if n > 0 {
      FeedControl(t, n, 'A');
      FeedControl(t, n, 'B');
    }
  }

  /** The cursor's row and column after a movement, clamped at both edges of the window; no row of it changes. */
  lemma MoveFields(t: Tty, n: nat)
    requires Home(t)
    ensures var u := FeedAll(t, MoveBytes(n, 'A')).screen;
            u.row == Max(t.screen.row - n, 0) && u.col == 0 && u.window == t.screen.window
    ensures var v := FeedAll(t, MoveBytes(n, 'B')).screen;
            v.row == Min(t.screen.row + n, |t.screen.window| - 1) && v.col == 0 && v.window == t.screen.window
  {
    hide FeedAll;
    hide MoveBytes;
    FeedMove(t, n);
  }

  lemma LineFeedPaper(s: Screen)
    requires s.WellFormed() && s.BlankBelow()
    ensures var r := s.LineFeed();
            && r.BlankBelow()
            && r.Paper() == s.Paper() + [Blank(s.width)]
            && r.row == Min(s.row + 1, |s.window| - 1)
  {
  }

  // ------------------------------------------------------------------- paper

  /** rows: everything written, the last row being the cursor's. order: the IDs with a line of their own. */
  datatype Paper = Paper(rows: seq<Row>, order: seq<string>) {
    ghost predicate Valid(width: nat) {
      && |rows| > |order|
      && Distinct(order)
      && forall i :: 0 <= i < |rows| ==> |rows[i]| == width
    }
  }

  /** How far above the cursor a tracked message's own line is. */
  function Reach(order: seq<string>, m: Message): (d: nat)
    requires m.Tracks()
    ensures 1 <= d <= |Enrol(order, m)|
  {
    var o := Enrol(order, m);
    assert m.id in o by {
      if m.id !in order { assert o[|order|] == m.id; }
    }
    |o| - IndexOf(o, m.id)
  }

  function PaperStep(p: Paper, m: Message, height: nat, width: nat): (q: Paper)
    requires p.Valid(width) && Fits(m, width) && height > 0
    ensures q.Valid(width) && |q.rows| >= |p.rows|
  {
    if m.isAux then p
    else if m.Tracks() then
      var rows := if m.id in p.order then p.rows else p.rows + [Blank(width)];
      var target := |rows| - 1 - Min(Reach(p.order, m), height - 1);
      Paper(rows[target := Paint(rows[target], DrawOf(m))], Enrol(p.order, m))
    else
      var d := DrawOf(m);
      var painted := p.rows[|p.rows| - 1 := Paint(p.rows[|p.rows| - 1], d)];
      Paper(if d.OverlayLine? then painted + [Blank(width)] else painted, [])
  }

  /** The terminal between two messages. */
  ghost predicate Rests(t: Tty, p: Paper) {
    && Home(t)
    && t.screen.BlankBelow()
    && p.Valid(t.screen.width)
    && t.screen.Paper() == p.rows
    && t.screen.row >= Min(|p.order|, |t.screen.window| - 1)
  }

  /** r is s with the row k above the cursor painted. */
  ghost predicate Drew(s: Screen, r: Screen, k: nat, d: Draw)
    requires s.WellFormed() && r.WellFormed() && FitsDraw(d, s.width)
  {
    && |r.window| == |s.window| && r.width == s.width && |r.above| == |s.above|
    && r.col == 0 && r.row == s.row && r.BlankBelow()
    && k < |s.Paper()|
    && var at := |s.Paper()| - 1 - k;
       && |s.Paper()[at]| == s.width
       && r.Paper() == s.Paper()[at := Paint(s.Paper()[at], d)]
  }

  /** Same size, and rows scroll off only when the cursor is held at the bottom. */
  ghost predicate Scrolls(s: Screen, r: Screen) {
    && |r.window| == |s.window| && r.width == s.width
    && |s.above| <= |r.above|
    && (|s.above| < |r.above| ==> r.row == |r.window| - 1)
  }

  /** Up, paint, down: the cursor comes back, and the painted row is Min(d, height - 1) above it. */
  lemma UpPaintDown(s: Screen, n: nat, d: nat, draw: Draw)
    requires s.WellFormed() && s.col == 0 && s.BlankBelow() && FitsDraw(draw, s.width) && !draw.OverlayLine?
    requires d <= n && s.row >= Min(n, |s.window| - 1)
    ensures var r := DrawOn(s.Up(d), draw).Down(d);
            r.WellFormed() && Drew(s, r, Min(d, |s.window| - 1), draw)
  {
    var u := s.Up(d);
    var row := Paint(s.window[u.row], draw);
    var r := DrawOn(u, draw).Down(d);
    assert s.row - u.row == Min(d, |s.window| - 1);
    assert r == s.(window := s.window[u.row := row]);
    assert s.Paper()[|s.above| + u.row] == s.window[u.row];
    assert r.Paper() == s.Paper()[|s.above| + u.row := row];
  }

  lemma FeedFour(t: Tty, a: string, b: string, c: string, d: string)
    requires t.WellFormed()
    ensures FeedAll(t, a + b + c + d) == FeedAll(FeedAll(FeedAll(FeedAll(t, a), b), c), d)
  {
    hide FeedAll;
    FeedConcat(t, a, b);
    FeedConcat(t, a + b, c);
    FeedConcat(t, a + b + c, d);
  }

  ghost predicate Ready(t: Tty, p: Paper, m: Message, u: Tty)
    requires t.WellFormed()
  {
    && Home(u) && u.screen.BlankBelow() && Scrolls(t.screen, u.screen)
    && u.screen.Paper() == (if m.id in p.order then p.rows else p.rows + [Blank(t.screen.width)])
    && u.screen.row >= Min(|Enrol(p.order, m)|, |t.screen.window| - 1)
  }

  lemma FeedRoom(t: Tty, p: Paper, m: Message)
    requires Rests(t, p) && m.Tracks()
    ensures Ready(t, p, m, FeedAll(t, if m.id in p.order then "" else "\n"))
  {
  }

  lemma FeedThere(t: Tty, n: nat, d: nat, m: Message)
    requires Home(t) && t.screen.BlankBelow() && !m.isAux && m.Tracks() && Fits(m, t.screen.width)
    requires d <= n && t.screen.row >= Min(n, |t.screen.window| - 1)
    ensures var u := FeedAll(FeedAll(FeedAll(t, MoveBytes(d, 'A')), DisplayBytes(m, true)), MoveBytes(d, 'B'));
            Home(u) && Drew(t.screen, u.screen, Min(d, |t.screen.window| - 1), DrawOf(m))
  {
    hide FeedAll;
    hide MoveBytes;
    hide DisplayBytes;
    assert !DrawOf(m).OverlayLine?;
    hide DrawOf;
    FeedMove(t, d);
    FeedDisplay(t.(screen := t.screen.Up(d)), m);
    UpPaintDown(t.screen, n, d, DrawOf(m));
    hide Drew;
    FeedMove(t.(screen := DrawOn(t.screen.Up(d), DrawOf(m))), d);
  }

  /** The terminal rests on the paper that follows a message. */
  ghost predicate RestsAfter(t: Tty, p: Paper, m: Message, u: Tty)
    requires Rests(t, p) && Fits(m, t.screen.width)
  {
    Scrolls(t.screen, u.screen) && Rests(u, PaperStep(p, m, |t.screen.window|, t.screen.width))
  }

  lemma TrackedRests(t: Tty, p: Paper, m: Message, t1: Tty, u: Tty)
    requires Rests(t, p) && Fits(m, t.screen.width) && !m.isAux && m.Tracks()
    requires Ready(t, p, m, t1) && Home(u)
    requires Drew(t1.screen, u.screen, Min(Reach(p.order, m), |t.screen.window| - 1), DrawOf(m))
    ensures RestsAfter(t, p, m, u)
  {
    hide DrawOf;
    hide Paint;
    hide Enrol;
    hide Screen.Paper;
    hide Screen.BlankBelow;
  }

  lemma TrackedBytes(ids: map<string, nat>, order: seq<string>, m: Message)
    requires Lines(ids, order) && Bounded(ids) && m.Tracks()
    ensures MessageBytes(ids, m, true) ==
            (if m.id in order then "" else "\n") + MoveBytes(Reach(order, m), 'A')
            + DisplayBytes(m, true) + MoveBytes(Reach(order, m), 'B')
  {
    LinesKept(ids, order, m);
    assert m.id in ids <==> m.id in order;
    hide Lines;
    hide Diff;
    hide Enrol;
    hide NextIds;
    hide MoveBytes;
    hide DisplayBytes;
  }

  /** One tracked message: make room if the ID is new, go up, paint, come down. */
  lemma FeedTracked(t: Tty, p: Paper, ids: map<string, nat>, m: Message)
    requires Rests(t, p) && Lines(ids, p.order) && Bounded(ids)
    requires !m.isAux && m.Tracks() && Fits(m, t.screen.width)
    ensures RestsAfter(t, p, m, FeedAll(t, MessageBytes(ids, m, true)))
  {
    hide FeedAll;
    hide MessageBytes;
    hide MoveBytes;
    hide DisplayBytes;
    hide Drew;
    hide DrawOf;
    hide RestsAfter;
    hide Lines;
    hide Paper.Valid;
    var d := Reach(p.order, m);
    var first := if m.id in p.order then "" else "\n";
    TrackedBytes(ids, p.order, m);
    FeedFour(t, first, MoveBytes(d, 'A'), DisplayBytes(m, true), MoveBytes(d, 'B'));
    FeedRoom(t, p, m);
    var t1 := FeedAll(t, first);
    FeedThere(t1, |Enrol(p.order, m)|, d, m);
    TrackedRests(t, p, m, t1, FeedAll(t, MessageBytes(ids, m, true)));
  }

  lemma FeedUntracked(t: Tty, p: Paper, ids: map<string, nat>, m: Message)
    requires Rests(t, p) && Bounded(ids)
    requires !m.isAux && !m.Tracks() && Fits(m, t.screen.width)
    ensures RestsAfter(t, p, m, FeedAll(t, MessageBytes(ids, m, true)))
  {
    hide *;
    UntrackedBytes(ids, m);
    FeedDisplay(t, m) by { RestsHome(t, p); }
    UntrackedRests(t, p, m);
  }

  lemma RestsHome(t: Tty, p: Paper)
    requires Rests(t, p)
    ensures Home(t)
  {
  }

  lemma UntrackedBytes(ids: map<string, nat>, m: Message)
    requires Bounded(ids) && !m.Tracks()
    ensures MessageBytes(ids, m, true) == DisplayBytes(m, true)
  {
  }

  lemma SetRowPaper(s: Screen, row: Row)
    requires s.WellFormed() && |row| == s.width
    ensures s.SetRow(row).Paper() == s.Paper()[|s.Paper()| - 1 := row]
    ensures s.Paper()[|s.Paper()| - 1] == s.window[s.row]
  {
  }

  lemma UntrackedRests(t: Tty, p: Paper, m: Message)
    requires Rests(t, p) && Fits(m, t.screen.width) && !m.isAux && !m.Tracks()
    ensures RestsAfter(t, p, m, t.(screen := DrawOn(t.screen, DrawOf(m))))
  {
    hide DrawOf;
    var s, d := t.screen, DrawOf(m);
    var row := Paint(s.window[s.row], d);
    hide Paint;
    SetRowPaper(s, row);
    if d.OverlayLine? {
      LineFeedPaper(s.SetRow(row));
      hide Screen.LineFeed;
      hide Screen.Paper;
    } else {
      hide Screen.Paper;
    }
  }

  ghost predicate AllFit(input: seq<Message>, width: nat) {
    forall i :: 0 <= i < |input| ==> Fits(input[i], width)
  }

  function PaperRun(p: Paper, input: seq<Message>, height: nat, width: nat): (q: Paper)
    requires p.Valid(width) && AllFit(input, width) && height > 0
    ensures q.Valid(width) && |q.rows| >= |p.rows|
    decreases |input|
  {
    if input == [] then p
    else
      var q := PaperStep(p, input[0], height, width);
      if !input[0].isAux && input[0].error.Some? then q else PaperRun(q, input[1..], height, width)
  }

  /**
   For every stream, whatever its number of IDs: the terminal ends in column 0
   on the last row of the paper, everything below it blank, and the paper is
   the one PaperRun predicts.
   */
  lemma {:induction false} StreamWritesPaper(t: Tty, p: Paper, ids: map<string, nat>, input: seq<Message>)
    requires Rests(t, p) && Lines(ids, p.order) && Bounded(ids) && AllFit(input, t.screen.width)
    ensures var u := FeedAll(t, StreamBytes(ids, input, true));
            Scrolls(t.screen, u.screen) && Rests(u, PaperRun(p, input, |t.screen.window|, t.screen.width))
    decreases |input|
  {
    hide FeedAll;
    hide MessageBytes;
    hide PaperStep;
    hide Diff;
    if input != [] {
      var m, rest := input[0], input[1..];
      var height, width := |t.screen.window|, t.screen.width;
      if m.isAux {
        assert PaperStep(p, m, height, width) == p by { AuxStep(p, m, height, width); }
        StreamWritesPaper(t, p, ids, rest);
      } else {
        LinesKept(ids, p.order, m);
        if m.Tracks() { FeedTracked(t, p, ids, m); } else { FeedUntracked(t, p, ids, m); }
        var u, q := FeedAll(t, MessageBytes(ids, m, true)), PaperStep(p, m, height, width);
        assert q.order == Enrol(p.order, m) && |q.rows| >= |p.rows| by { OrderStep(p, m, height, width); }
        var tail := if m.error.Some? then "" else StreamBytes(NextIds(ids, m), rest, true);
        FeedConcat(t, MessageBytes(ids, m, true), tail);
        if m.error.None? {
          StreamWritesPaper(u, q, NextIds(ids, m), rest);
        } else {
          FeedNothing(u);
        }
      }
    } else {
      FeedNothing(t);
    }
  }

  lemma FeedNothing(t: Tty)
    requires t.WellFormed()
    ensures FeedAll(t, "") == t
  {
  }

  lemma AuxStep(p: Paper, m: Message, height: nat, width: nat)
    requires p.Valid(width) && Fits(m, width) && height > 0 && m.isAux
    ensures PaperStep(p, m, height, width) == p
  {
  }

  lemma OrderStep(p: Paper, m: Message, height: nat, width: nat)
    requires p.Valid(width) && Fits(m, width) && height > 0 && !m.isAux
    ensures PaperStep(p, m, height, width).order == Enrol(p.order, m)
    ensures |PaperStep(p, m, height, width).rows| >= |p.rows|
  {
  }
}
