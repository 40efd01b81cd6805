/** Whole runs: the screen shows the log, and the bound on the number of layers is tight. */
module ScreenShowsLog {
  import opened Common
  import opened Terminal
  import opened JsonStream
  import opened ProgressScreen
  import opened ProgressLog

  predicate Ends(m: Message) {
    !m.isAux && m.error.Some?
  }

  function NextOrder(order: seq<string>, m: Message): seq<string> {
    if m.isAux then order else Enrol(order, m)
  }

  /** The largest number of lines in use at once while a stream is displayed. */
  function Widest(order: seq<string>, input: seq<Message>): nat
    decreases |input|
  {
    if input == [] then |order|
    else
      var next := NextOrder(order, input[0]);
      Max(|order|, if Ends(input[0]) then |next| else Widest(next, input[1..]))
  }

  lemma {:induction false} RunAgrees(p: Paper, l: Log, input: seq<Message>, height: nat, width: nat)
    requires Agrees(p, l, width) && AllFit(input, width) && Widest(p.order, input) < height
    ensures Agrees(PaperRun(p, input, height, width), LogRun(l, input, width), width)
    decreases |input|
  {
    hide PaperStep;
    hide LogStep;
    hide Rows;
    if input != [] {
      var m := input[0];
      assert InReach(p.order, m, height) || m.isAux;
      StepAgrees(p, l, m, height, width);
      if !Ends(m) {
        assert PaperStep(p, m, height, width).order == NextOrder(p.order, m) by {
          if m.isAux { AuxStep(p, m, height, width); } else { OrderStep(p, m, height, width); }
        }
        RunAgrees(PaperStep(p, m, height, width), LogStep(l, m, width), input[1..], height, width);
      }
    }
  }

  /** The window a terminal of the given height shows when it was last scrolled past `above` rows. */
  function Visible(rows: seq<Row>, above: nat, height: nat, width: nat): seq<Row>
    requires above <= |rows|
  {
    var top := Max(above, |rows| - height);
    rows[top..] + seq(Max(0, height - (|rows| - top)), _ => Blank(width))
  }

  /** The log of a screen that nothing has been displayed on yet. */
  function FreshLog(s: Screen): (l: Log)
    requires s.WellFormed()
    ensures LogValid(l, s.width)
  {
    Log(s.Paper()[..|s.Paper()| - 1], s.window[s.row], [])
  }

  lemma FreshAgrees(t: Tty)
    requires Home(t) && t.screen.BlankBelow()
    ensures Rests(t, Paper(t.screen.Paper(), []))
    ensures Agrees(Paper(t.screen.Paper(), []), FreshLog(t.screen), t.screen.width)
  {
  }

  /** u shows the log l, on a terminal that was t when nothing had been displayed. */
  ghost predicate Shows(t: Screen, u: Tty, l: Log, width: nat)
    requires LogValid(l, width)
  {
    var rows := Rows(l, width);
    && Home(u) && u.screen.BlankBelow()
    && u.screen.Paper() == rows
    && |t.above| <= |rows|
    && u.screen.window == Visible(rows, |t.above|, |t.window|, width)
  }

  lemma RestsShows(t: Screen, u: Tty, q: Paper, l: Log)
    requires t.WellFormed() && Rests(u, q) && Scrolls(t, u.screen) && Agrees(q, l, t.width)
    ensures Shows(t, u, l, t.width)
  {
  }

  /** The terminal shows the log of a stream after displaying it. */
  ghost predicate Displays(t: Tty, input: seq<Message>)
    requires Home(t) && AllFit(input, t.screen.width)
  {
    Shows(t.screen, FeedAll(t, StreamBytes(map[], input, true)),
          LogRun(FreshLog(t.screen), input, t.screen.width), t.screen.width)
  }

  lemma NoLines()
    ensures Lines(map[], []) && Bounded(map[])
  {
  }

  /**
   Refinement. On a terminal of any height and width, with the cursor at the
   start of a row and nothing below it, after every stream whose texts fit and
   that never has as many as `height` layers in use: the rows written are the
   rows of the log, the cursor is in column 0 of the last of them, and the
   window shows the last rows of the log.
   */
  lemma ScreenIsLog(t: Tty, input: seq<Message>)
    requires Home(t) && t.screen.BlankBelow() && AllFit(input, t.screen.width)
    requires Widest([], input) < |t.screen.window|
    ensures Displays(t, input)
  {
    hide PaperRun;
    hide LogRun;
    hide Widest;
    hide StreamBytes;
    hide FeedAll;
    hide Rows;
    var p, l := Paper(t.screen.Paper(), []), FreshLog(t.screen);
    FreshAgrees(t);
    NoLines();
    StreamWritesPaper(t, p, map[], input);
    RunAgrees(p, l, input, |t.screen.window|, t.screen.width);
    hide Shows;
    RestsShows(t.screen, FeedAll(t, StreamBytes(map[], input, true)),
               PaperRun(p, input, |t.screen.window|, t.screen.width), LogRun(l, input, t.screen.width));
  }

  lemma {:induction false} StreamBytesPrefix(ids: map<string, nat>, input: seq<Message>, k: nat, terminal: bool)
    requires Bounded(ids) && k <= |input|
    ensures StreamBytes(ids, input[..k], terminal) <= StreamBytes(ids, input, terminal)
    decreases |input|
  {
    hide MessageBytes;
    hide NextIds;
    if k > 0 {
      assert input[..k][0] == input[0] && input[..k][1..] == input[1..][..k - 1];
      StreamBytesPrefix(NextIds(ids, input[0]), input[1..], k - 1, terminal);
      StreamBytesPrefix(ids, input[1..], k - 1, terminal);
    }
  }

  lemma {:induction false} WidestPrefix(order: seq<string>, input: seq<Message>, k: nat)
    requires k <= |input|
    ensures Widest(order, input[..k]) <= Widest(order, input)
    decreases |input|
  {
    if k > 0 {
      assert input[..k][0] == input[0] && input[..k][1..] == input[1..][..k - 1];
      WidestPrefix(NextOrder(order, input[0]), input[1..], k - 1);
    }
  }

  /** The screen shows the log after every message of the stream, not only at its end. */
  lemma ScreenIsLogThroughout(t: Tty, input: seq<Message>, k: nat)
    requires Home(t) && t.screen.BlankBelow() && AllFit(input, t.screen.width)
    requires Widest([], input) < |t.screen.window| && k <= |input|
    ensures StreamBytes(map[], input[..k], true) <= StreamBytes(map[], input, true)
    ensures Displays(t, input[..k])
  {
    hide *;
    WidestPrefix([], input, k);
    StreamBytesPrefix(map[], input, k, true) by { NoLines(); }
    PrefixFits(input, k, t.screen.width);
    ScreenIsLog(t, input[..k]);
  }

  lemma PrefixFits(input: seq<Message>, k: nat, width: nat)
    requires AllFit(input, width) && k <= |input|
    ensures AllFit(input[..k], width)
  {
  }

  // ------------------------------------------------------ the bound is tight

  /** Every terminal of the given height displays every stream of at most k layers at a time. */
  ghost predicate Faithful(height: nat, k: nat) {
    forall t: Tty, input: seq<Message> |
      Home(t) && t.screen.BlankBelow() && |t.screen.window| == height
      && AllFit(input, t.screen.width) && Widest([], input) <= k
      :: Displays(t, input)
  }

  /** On a paper of one row, the stream leaves the rows of its log. */
  ghost predicate SameRows(height: nat, width: nat, base: Row, input: seq<Message>)
    requires height > 0 && |base| == width && AllFit(input, width)
  {
    PaperRun(Paper([base], []), input, height, width).rows == Rows(LogRun(Log([], base, []), input, width), width)
  }

  function Name(i: nat): (s: string)
    ensures |s| == i + 1
  {
    seq(i + 1, _ => 'x')
  }

  /** A message that replaces the line of the layer Name(i) with its name and the given status. */
  function Layer(i: nat, status: string): Message {
    Message("", status, Some(""), "", Name(i), "", None, None, None, false)
  }

  lemma LayerDraws(i: nat, status: string, width: nat)
    requires Printable(status) && i + |status| + 4 <= width
    ensures var m := Layer(i, status);
            m.Tracks() && Fits(m, width) && DrawOf(m) == Replace(Name(i) + ": " + status + " ")
  {
  }

  function Layers(n: nat): (r: seq<Message>)
    ensures |r| == n
  {
    if n == 0 then [] else Layers(n - 1) + [Layer(n - 1, "")]
  }

  function Names(n: nat): (r: seq<string>)
    ensures |r| == n && forall i :: 0 <= i < n ==> r[i] == Name(i)
  {
    seq(n, i requires 0 <= i < n => Name(i))
  }

  /** One more message at the end of a stream without errors. */
  lemma {:induction false} RunSnoc(p: Paper, l: Log, input: seq<Message>, m: Message, height: nat, width: nat)
    requires p.Valid(width) && LogValid(l, width)
    requires AllFit(input + [m], width) && AllFit(input, width) && Fits(m, width)
    requires height > 0 && forall i :: 0 <= i < |input| ==> !Ends(input[i])
    ensures PaperRun(p, input + [m], height, width) == PaperStep(PaperRun(p, input, height, width), m, height, width)
    ensures LogRun(l, input + [m], width) == LogStep(LogRun(l, input, width), m, width)
    decreases |input|
  {
    hide PaperStep;
    hide LogStep;
    var all := input + [m];
    if input == [] {
      assert all[0] == m && all[1..] == [];
    } else {
      assert all[0] == input[0] && all[1..] == input[1..] + [m];
      RunSnoc(PaperStep(p, input[0], height, width), LogStep(l, input[0], width), input[1..], m, height, width);
    }
  }

  lemma {:induction false} WidestSnoc(order: seq<string>, n: nat, input: seq<Message>, m: Message)
    requires forall i :: 0 <= i < |input| ==> !input[i].isAux && !Ends(input[i])
    requires Widest(order, input) <= n && !m.isAux && |Enrol(FoldOrder(order, input), m)| <= n
    ensures Widest(order, input + [m]) <= n
    decreases |input|
  {
    var all := input + [m];
    if input == [] {
      assert all[0] == m && all[1..] == [];
    } else {
      assert all[0] == input[0] && all[1..] == input[1..] + [m];
      WidestSnoc(Enrol(order, input[0]), n, input[1..], m);
    }
  }

  function FoldOrder(order: seq<string>, input: seq<Message>): seq<string>
    decreases |input|
  {
    if input == [] then order else FoldOrder(Enrol(order, input[0]), input[1..])
  }

  ghost predicate Plain(input: seq<Message>, width: nat) {
    AllFit(input, width) && forall i :: 0 <= i < |input| ==> !input[i].isAux && !Ends(input[i])
  }

  lemma BaseAgrees(base: Row)
    ensures Agrees(Paper([base], []), Log([], base, []), |base|)
  {
  }

  /** A new layer's line is the one just above the cursor. */
  lemma NewLayerReach(n: nat, status: string)
    ensures var m := Layer(n, status);
            m.Tracks() && Enrol(Names(n), m) == Names(n + 1) && Reach(Names(n), m) == 1
  {
  }

  ghost predicate Shape(n: nat, width: nat) {
    Plain(Layers(n), width) && FoldOrder([], Layers(n)) == Names(n) && Widest([], Layers(n)) <= n
  }

  /** Paper and log are equal after the first n layers' first messages. */
  ghost predicate After(n: nat, height: nat, base: Row)
    requires height > 0
  {
    && Shape(n, |base|)
    && var q := PaperRun(Paper([base], []), Layers(n), height, |base|);
       Agrees(q, LogRun(Log([], base, []), Layers(n), |base|), |base|) && q.order == Names(n)
  }

  lemma {:induction false} FoldOrderSnoc(order: seq<string>, input: seq<Message>, m: Message)
    ensures FoldOrder(order, input + [m]) == Enrol(FoldOrder(order, input), m)
    decreases |input|
  {
    var all := input + [m];
    if input == [] {
      assert all[0] == m && all[1..] == [];
    } else {
      assert all[0] == input[0] && all[1..] == input[1..] + [m];
      FoldOrderSnoc(Enrol(order, input[0]), input[1..], m);
    }
  }

  lemma PlainSnoc(n: nat, bound: nat, m: Message, width: nat)
    requires Shape(n, width) && n <= bound && Fits(m, width) && !m.isAux && !Ends(m)
    requires |Enrol(Names(n), m)| <= bound
    ensures Plain(Layers(n) + [m], width) && Widest([], Layers(n) + [m]) <= bound
  {
    hide Layers;
    hide Names;
    hide Enrol;
    hide Widest;
    hide FoldOrder;
    hide Fits;
    hide Ends;
    WidestSnoc([], bound, Layers(n), m);
  }

  lemma ShapeStep(n: nat, width: nat)
    requires Shape(n, width) && n + 5 <= width
    ensures Shape(n + 1, width) && Fits(Layer(n, ""), width)
  {
    LayerDraws(n, "", width);
    NewLayerReach(n, "");
    FoldOrderSnoc([], Layers(n), Layer(n, ""));
    PlainSnoc(n, n + 1, Layer(n, ""), width);
    hide Layer;
    hide Plain;
    hide Widest;
    hide Fits;
  }

  lemma AfterStep(n: nat, height: nat, base: Row)
    requires height > 1 && n + 5 <= |base| && After(n, height, base)
    requires Shape(n + 1, |base|) && Fits(Layer(n, ""), |base|)
    ensures After(n + 1, height, base)
  {
    var p, l, width := Paper([base], []), Log([], base, []), |base|;
    var input, m := Layers(n), Layer(n, "");
    BaseAgrees(base);
    NewLayerReach(n, "");
    assert !m.isAux && !Ends(m);
    hide Layer;
    hide PaperStep;
    hide LogStep;
    hide Rows;
    hide PaperRun;
    hide LogRun;
    hide Names;
    RunSnoc(p, l, input, m, height, width);
    StepAgrees(PaperRun(p, input, height, width), LogRun(l, input, width), m, height, width);
    OrderStep(PaperRun(p, input, height, width), m, height, width);
  }

  /** With at least two rows, a first message for each of n layers leaves paper and log equal. */
  lemma {:induction false} LayersAgree(n: nat, height: nat, base: Row)
    requires height > 0 && (n == 0 || height > 1) && n + 4 <= |base|
    ensures After(n, height, base)
  {
    hide *;
    if n == 0 {
      AfterNone(height, base);
    } else {
      LayersAgree(n - 1, height, base);
      ShapeOf(n - 1, height, base);
      ShapeStep(n - 1, |base|);
      AfterStep(n - 1, height, base);
    }
  }

  lemma AfterNone(height: nat, base: Row)
    requires height > 0
    ensures After(0, height, base)
  {
  }

  lemma ShapeOf(n: nat, height: nat, base: Row)
    requires height > 0 && After(n, height, base)
    ensures Shape(n, |base|)
  {
  }

  /** Two different statuses cannot both leave a row as it is. */
  lemma NotBothIdle(rows: seq<Row>, i: nat, width: nat)
    requires i < |rows| && |rows[i]| == width && width >= 5
    ensures !Idle(rows, i, DrawOf(Layer(0, "a"))) || !Idle(rows, i, DrawOf(Layer(0, "b")))
  {
    LayerDraws(0, "a", width);
    LayerDraws(0, "b", width);
    assert Paint(rows[i], DrawOf(Layer(0, "a")))[3] == 'a';
    assert Paint(rows[i], DrawOf(Layer(0, "b")))[3] == 'b';
  }

  /** The stream that overflows a terminal of the given height: one message per layer, then one more for the first. */
  function Overflow(height: nat, status: string): seq<Message>
    requires height > 0
  {
    Layers(Filled(height)) + [Layer(0, status)]
  }

  /** How many layers Overflow fills before its last message. */
  function Filled(height: nat): nat {
    if height == 1 then 0 else height
  }

  lemma OverflowLast(height: nat, status: string)
    requires height > 0
    ensures var m := Layer(0, status);
            m.Tracks() && Reach(Names(Filled(height)), m) == height && |Enrol(Names(Filled(height)), m)| <= height
  {
  }

  lemma OverflowShape(height: nat, status: string, base: Row)
    requires height > 0 && |base| >= height + 5 && |status| <= 1 && Printable(status)
    ensures Plain(Overflow(height, status), |base|) && Widest([], Overflow(height, status)) <= height
    ensures After(Filled(height), height, base) && Fits(Layer(0, status), |base|)
  {
    LayersAgree(Filled(height), height, base);
    OverflowLast(height, status);
    LayerDraws(0, status, |base|);
    hide Plain;
    hide Names;
    hide Layers;
    hide Widest;
    PlainSnoc(Filled(height), height, Layer(0, status), |base|);
  }

  /** The log just before the last message of Overflow. */
  function FullLog(height: nat, base: Row): (l: Log)
    requires height > 0 && |base| >= height + 5
    ensures LogValid(l, |base|)
  {
    LayersAgree(Filled(height), height, base);
    BaseAgrees(base);
    LogRun(Log([], base, []), Layers(Filled(height)), |base|)
  }

  /** The last message of Overflow is shown right only if it changes nothing. */
  lemma OverflowIdle(height: nat, status: string, base: Row)
    requires height > 0 && |base| >= height + 5 && |status| <= 1 && Printable(status)
    requires AllFit(Overflow(height, status), |base|)
    requires SameRows(height, |base|, base, Overflow(height, status))
    ensures var l, m := FullLog(height, base), Layer(0, status);
            m.Tracks() && Idle(Room(l, m, |base|), Own(l, m, |base|), DrawOf(m))
  {
    OverflowShape(height, status, base);
    OverflowLast(height, status);
    BaseAgrees(base);
    var n := Filled(height);
    var p, l, width := Paper([base], []), Log([], base, []), |base|;
    var input, m := Layers(n), Layer(0, status);
    hide Layer;
    hide PaperStep;
    hide LogStep;
    hide Rows;
    hide PaperRun;
    hide LogRun;
    RunSnoc(p, l, input, m, height, width);
    StepAgreesExactly(PaperRun(p, input, height, width), LogRun(l, input, width), m, height, width);
  }

  lemma OverflowMisses(height: nat, base: Row)
    requires height > 0 && |base| >= height + 5
    ensures exists status :: Plain(Overflow(height, status), |base|)
                          && Widest([], Overflow(height, status)) <= height
                          && !SameRows(height, |base|, base, Overflow(height, status))
  {
    var l, width := FullLog(height, base), |base|;
    hide Overflow;
    hide Layer;
    hide SameRows;
    hide Idle;
    hide FullLog;
    OverflowShape(height, "a", base);
    OverflowShape(height, "b", base);
    SameRoom(l, width);
    NotBothIdle(Room(l, Layer(0, "a"), width), Own(l, Layer(0, "a"), width), width);
    if SameRows(height, width, base, Overflow(height, "a")) {
      OverflowIdle(height, "a", base);
      if SameRows(height, width, base, Overflow(height, "b")) {
        OverflowIdle(height, "b", base);
      }
    }
  }

  lemma SameRoom(l: Log, width: nat)
    requires LogValid(l, width)
    ensures Layer(0, "a").Tracks() && Layer(0, "b").Tracks()
    ensures Room(l, Layer(0, "a"), width) == Room(l, Layer(0, "b"), width)
    ensures Own(l, Layer(0, "a"), width) == Own(l, Layer(0, "b"), width)
  {
  }

  /** A terminal with the cursor on its top row. */
  function Start(height: nat, base: Row): (t: Tty)
    requires height > 0 && |base| > 0
    ensures Home(t) && t.screen.BlankBelow() && |t.screen.window| == height && t.screen.width == |base|
    ensures t.screen.Paper() == [base]
  {
    var window := [base] + seq(height - 1, _ => Blank(|base|));
    assert window[..1] == [base];
    Tty(Screen([], window, 0, 0, |base|), Ground)
  }

  lemma DisplaysRows(height: nat, base: Row, input: seq<Message>)
    requires height > 0 && |base| > 0 && AllFit(input, |base|)
    requires Displays(Start(height, base), input)
    ensures SameRows(height, |base|, base, input)
  {
    var t := Start(height, base);
    FreshAgrees(t);
    NoLines();
    assert FreshLog(t.screen) == Log([], base, []);
    hide PaperRun;
    hide LogRun;
    hide StreamBytes;
    hide FeedAll;
    hide Rows;
    StreamWritesPaper(t, Paper([base], []), map[], input);
  }

  /** The bound is tight: k layers are safe on every terminal of height h exactly when k < h. */
  lemma BoundIsTight(height: nat, k: nat)
    requires height > 0
    ensures Faithful(height, k) <==> k < height
  {
    hide Displays;
    hide SameRows;
    hide Widest;
    if k < height {
      forall t: Tty, input: seq<Message> |
        Home(t) && t.screen.BlankBelow() && |t.screen.window| == height
        && AllFit(input, t.screen.width) && Widest([], input) <= k
        ensures Displays(t, input)
      {
        ScreenIsLog(t, input);
      }
    } else {
      var base := Blank(height + 5);
      OverflowMisses(height, base);
      var status :| Plain(Overflow(height, status), |base|)
                    && Widest([], Overflow(height, status)) <= height
                    && !SameRows(height, |base|, base, Overflow(height, status));
      if Displays(Start(height, base), Overflow(height, status)) {
        DisplaysRows(height, base, Overflow(height, status));
      }
    }
  }
}
