/**
 A character terminal, as far as the progress renderer drives it: a window of
 rows over an unbounded history, a cursor, and the control functions CR, LF,
 CUU (section 8.3.22 of ECMA-48), CUD (section 8.3.19) and EL (section 8.3.41).
 The cursor is clamped at both edges, and a line feed on the bottom row scrolls.
 */
module Terminal {
  import opened Common

  type Row = seq<char>

  const ESC: char := '\U{1B}'

  function Blank(width: nat): (r: Row)
    ensures |r| == width
  {
    seq(width, _ => ' ')
  }

  /** The row after writing text from a column on. */
  function Overwrite(row: Row, col: nat, text: string): (r: Row)
    requires col + |text| <= |row|
    ensures |r| == |row|
  {
    row[..col] + text + row[col + |text|..]
  }

  /** above: rows that have scrolled off the top, oldest first. */
  datatype Screen = Screen(above: seq<Row>, window: seq<Row>, row: nat, col: nat, width: nat) {

    predicate WellFormed() {
      && row < |window|
      && 0 < width
      && col <= width
      && (forall i :: 0 <= i < |window| ==> |window[i]| == width)
      && (forall i :: 0 <= i < |above| ==> |above[i]| == width)
    }

    /** Every row written so far, down to the row of the cursor. */
    function Paper(): (p: seq<Row>)
      requires row < |window|
      ensures |p| == |above| + row + 1
    {
      above + window[..row + 1]
    }

    predicate BlankBelow() {
      forall i :: row < i < |window| ==> window[i] == Blank(width)
    }

    function LineFeed(): (s: Screen)
      requires WellFormed()
      ensures s.WellFormed() && s.col == col && s.width == width && |s.window| == |window|
    {
      if row + 1 < |window| then this.(row := row + 1)
      else this.(above := above + [window[0]], window := window[1..] + [Blank(width)])
    }

    function Up(n: nat): Screen {
      this.(row := if n <= row then row - n else 0)
    }

    function Down(n: nat): Screen
      requires |window| > 0
    {
      this.(row := if row + n < |window| then row + n else |window| - 1)
    }

    function SetRow(r: Row): Screen
      requires row < |window|
    {
      this.(window := window[row := r])
    }

    /** Writes one cell; a cursor past the right margin first wraps to the next row. */
    function Put(c: char): (s: Screen)
      requires WellFormed()
      ensures s.WellFormed()
    {
      var t := if col == width then this.(col := 0).LineFeed() else this;
      t.SetRow(t.window[t.row][t.col := c]).(col := t.col + 1)
    }

    /** EL with parameter 1: from the start of the row through the cursor. */
    function EraseLeft(): (s: Screen)
      requires WellFormed()
      ensures s.WellFormed()
    {
      var c := if col == width then width - 1 else col;
      SetRow(Blank(c + 1) + window[row][c + 1..])
    }

    /** EL with parameter 0: from the cursor to the end of the row. */
    function EraseRight(): (s: Screen)
      requires WellFormed()
      ensures s.WellFormed()
    {
      var c := if col == width then width - 1 else col;
      SetRow(window[row][..c] + Blank(width - c))
    }
  }

  /** Where the terminal is inside a control sequence. */
  datatype Mode = Ground | Escape | Csi(param: nat)

  datatype Tty = Tty(screen: Screen, mode: Mode) {
    predicate WellFormed() { screen.WellFormed() }
  }

  predicate IsDigit(c: char) { '0' <= c <= '9' }

  function Control(s: Screen, n: nat, final: char): (t: Screen)
    requires s.WellFormed()
    ensures t.WellFormed()
  {
    match final
    case 'A' => s.Up(if n == 0 then 1 else n)
    case 'B' => s.Down(if n == 0 then 1 else n)
    case 'K' => if n == 0 then s.EraseRight() else if n == 1 then s.EraseLeft() else s
    case _ => s
  }

  function Feed(t: Tty, c: char): (u: Tty)
    requires t.WellFormed()
    ensures u.WellFormed()
  {
    match t.mode
    case Ground =>
      if c == ESC then t.(mode := Escape)
      else if c == '\n' then t.(screen := t.screen.LineFeed())
      else if c == '\r' then t.(screen := t.screen.(col := 0))
      else t.(screen := t.screen.Put(c))
    case Escape =>
      t.(mode := if c == '[' then Csi(0) else Ground)
    case Csi(n) =>
      if IsDigit(c) then t.(mode := Csi(10 * n + (c as int - '0' as int)))
      else Tty(Control(t.screen, n, c), Ground)
  }

  /** The terminal after receiving a string of characters. */
  function FeedAll(t: Tty, s: string): (u: Tty)
    requires t.WellFormed()
    ensures u.WellFormed()
    decreases |s|
  {
    if s == [] then t else FeedAll(Feed(t, s[0]), s[1..])
  }

  lemma {:induction false} FeedConcat(t: Tty, a: string, b: string)
    requires t.WellFormed()
    ensures FeedAll(t, a + b) == FeedAll(FeedAll(t, a), b)
    decreases |a|
  {
    if a == [] {
      assert a + b == b;
    } else {
      assert (a + b)[1..] == a[1..] + b;
      FeedConcat(Feed(t, a[0]), a[1..], b);
    }
  }

  /** Characters that occupy one cell and control nothing. */
  predicate Printable(s: string) {
    forall i :: 0 <= i < |s| ==> ' ' <= s[i] && s[i] != '\U{7F}'
  }

  lemma OverwriteStep(row: Row, col: nat, s: string)
    requires s != "" && col + |s| <= |row|
    ensures Overwrite(row[col := s[0]], col + 1, s[1..]) == Overwrite(row, col, s)
  {
  }

  lemma FeedCell(t: Tty, c: char)
    requires t.WellFormed() && t.mode.Ground? && Printable([c]) && t.screen.col < t.screen.width
    ensures var sc := t.screen;
            Feed(t, c) == t.(screen := sc.SetRow(sc.window[sc.row][sc.col := c]).(col := sc.col + 1))
  {
    assert ' ' <= [c][0];
  }

  lemma SetRowTwice(s: Screen, a: Row, b: Row)
    requires s.row < |s.window|
    ensures s.SetRow(a).SetRow(b) == s.SetRow(b)
  {
  }

  /** Text that fits before the right margin overwrites the cells under it and nothing else. */
  lemma {:induction false} FeedText(t: Tty, s: string)
    requires t.WellFormed() && t.mode.Ground? && Printable(s)
    requires t.screen.col + |s| <= t.screen.width
    ensures var sc := t.screen;
            FeedAll(t, s) ==
            t.(screen := sc.SetRow(Overwrite(sc.window[sc.row], sc.col, s)).(col := sc.col + |s|))
    decreases |s|
  {
    var sc := t.screen;
    var row := sc.window[sc.row];
    if s == [] {
      assert Overwrite(row, sc.col, s) == row;
      assert sc.window[sc.row := row] == sc.window;
    } else {
      var row' := row[sc.col := s[0]];
      FeedCell(t, s[0]);
      hide Feed;
      FeedText(Feed(t, s[0]), s[1..]);
      OverwriteStep(row, sc.col, s);
      SetRowTwice(sc, row', Overwrite(row, sc.col, s));
    }
  }

  /** Decimal notation, as printed by the format verb %d. */
  function Decimal(n: nat): (s: string)
    ensures |s| > 0 && forall c <- s :: IsDigit(c)
  {
    if n < 10 then ['0' + (n as char)] else Decimal(n / 10) + ['0' + ((n % 10) as char)]
  }

  lemma {:induction false} FeedDecimal(t: Tty, n: nat)
    requires t.WellFormed() && t.mode == Csi(0)
    ensures FeedAll(t, Decimal(n)) == t.(mode := Csi(n))
    decreases n
  {
    var last := ['0' + ((n % 10) as char)];
    if n < 10 {
      assert FeedAll(t, last) == Feed(t, last[0]);
    } else {
      FeedDecimal(t, n / 10);
      FeedConcat(t, Decimal(n / 10), last);
      var u := t.(mode := Csi(n / 10));
      assert FeedAll(u, last) == FeedAll(Feed(u, last[0]), []);
    }
  }

  /** A control sequence with a printed parameter acts as the control function it encodes. */
  lemma FeedControl(t: Tty, n: nat, final: char)
    requires t.WellFormed() && t.mode.Ground? && !IsDigit(final)
    ensures FeedAll(t, [ESC] + "[" + Decimal(n) + [final]) == t.(screen := Control(t.screen, n, final))
  {
    var c := t.(mode := Csi(0));
    assert FeedAll(t, [ESC] + "[") == c by {
      var e := Feed(t, ESC);
      assert ([ESC] + "[")[1..] == "[";
      assert FeedAll(e, "[") == FeedAll(Feed(e, '['), "");
    }
    FeedConcat(t, [ESC] + "[", Decimal(n));
    FeedDecimal(c, n);
    FeedConcat(t, [ESC] + "[" + Decimal(n), [final]);
    var d := t.(mode := Csi(n));
    assert FeedAll(d, [final]) == FeedAll(Feed(d, final), "");
  }

  lemma FeedBareControl(t: Tty, final: char)
    requires t.WellFormed() && t.mode.Ground? && !IsDigit(final)
    ensures FeedAll(t, [ESC] + "[" + [final]) == t.(screen := Control(t.screen, 0, final))
  {
    var e := Feed(t, ESC);
    assert ([ESC] + "[" + [final])[1..] == "[" + [final];
    var c := Feed(e, '[');
    assert ("[" + [final])[1..] == [final];
    assert FeedAll(c, [final]) == FeedAll(Feed(c, final), "");
  }

  lemma FeedChar(t: Tty, c: char)
    requires t.WellFormed()
    ensures FeedAll(t, [c]) == Feed(t, c)
  {
  }
}
