/** From the fields of a message to the row of the screen that shows it. */
module ShownText {
  import opened Common
  import opened Terminal
  import opened JsonStream
  import opened ProgressScreen
  import opened ProgressLog
  import opened ScreenShowsLog

  /** Nothing has ended the stream before message n. */
  predicate StillOpen(input: seq<Message>, n: nat) {
    n <= |input| && forall i :: 0 <= i < n ==> input[i].isAux || input[i].error.None?
  }

  lemma {:induction false} LogRunSnoc(l: Log, input: seq<Message>, n: nat, width: nat)
    requires LogValid(l, width) && AllFit(input, width) && n < |input| && StillOpen(input, n)
    ensures LogRun(l, input[..n + 1], width) == LogStep(LogRun(l, input[..n], width), input[n], width)
    decreases n
  {
    hide LogStep;
    var all := input[..n + 1];
    assert all[0] == input[0] && all[1..] == input[1..][..n];
    if n > 0 {
      assert input[..n][0] == input[0] && input[..n][1..] == input[1..][..n - 1];
      LogRunSnoc(LogStep(l, input[0], width), input[1..], n - 1, width);
    }
  }

  lemma PaintText(row: Row, d: Draw)
    requires FitsDraw(d, |row|) && !d.Nothing?
    ensures Paint(row, d)[..|d.text|] == d.text
    ensures Paint(row, d)[|d.text|..] == if d.Replace? then Blank(|row| - |d.text|) else row[|d.text|..]
  {
  }

  /** Where in the log a message is shown: its own line, the cursor's, or the one the cursor has just left. */
  function ShownAt(l: Log, m: Message, width: nat): (i: nat)
    requires LogValid(l, width)
  {
    if m.id != "" && (m.progress.Some? || m.progressMessage != "") then
      |l.committed| + if m.id in EpochIds(l.epoch) then IndexOf(EpochIds(l.epoch), m.id) else |EpochIds(l.epoch)|
    else |Rows(l, width)| - 1
  }

  lemma {:induction false} IndexOfLast(s: seq<string>, x: string)
    requires x !in s
    ensures IndexOf(s + [x], x) == |s|
  {
    if s != [] {
      assert (s + [x])[0] == s[0] && (s + [x])[1..] == s[1..] + [x];
      IndexOfLast(s[1..], x);
    }
  }

  lemma StepShows(l: Log, m: Message, width: nat)
    requires LogValid(l, width) && Fits(m, width) && !m.isAux && !DrawOf(m).Nothing?
    ensures var rows, i := Rows(LogStep(l, m, width), width), ShownAt(l, m, width);
            && i < |rows| && |DrawOf(m).text| <= width
            && rows[i][..|DrawOf(m).text|] == DrawOf(m).text
            && (DrawOf(m).Replace? ==> rows[i][|DrawOf(m).text|..] == Blank(width - |DrawOf(m).text|))
  {
    TracksFields(m);
    if m.Tracks() {
      TrackedShows(l, m, width);
    } else {
      UntrackedShows(l, m, width);
    }
  }

  lemma TrackedShows(l: Log, m: Message, width: nat)
    requires LogValid(l, width) && Fits(m, width) && !m.isAux && !DrawOf(m).Nothing? && m.Tracks()
    ensures var rows, i := Rows(LogStep(l, m, width), width), ShownAt(l, m, width);
            && i < |rows| && |DrawOf(m).text| <= width
            && rows[i][..|DrawOf(m).text|] == DrawOf(m).text
            && (DrawOf(m).Replace? ==> rows[i][|DrawOf(m).text|..] == Blank(width - |DrawOf(m).text|))
  {
    hide DrawOf;
    LogStepTracked(l, m, width);
    OwnPlace(l, m, width);
    var room, own := Room(l, m, width), Own(l, m, width);
    if m.id !in EpochIds(l.epoch) {
      IndexOfLast(EpochIds(l.epoch), m.id);
    }
    hide Rows;
    hide Paint;
    PaintText(room[own], DrawOf(m));
  }

  lemma UntrackedShows(l: Log, m: Message, width: nat)
    requires LogValid(l, width) && Fits(m, width) && !m.isAux && !DrawOf(m).Nothing? && !m.Tracks()
    ensures var rows, i := Rows(LogStep(l, m, width), width), |Rows(l, width)| - 1;
            && i < |rows| && |DrawOf(m).text| <= width
            && rows[i][..|DrawOf(m).text|] == DrawOf(m).text
            && (DrawOf(m).Replace? ==> rows[i][|DrawOf(m).text|..] == Blank(width - |DrawOf(m).text|))
  {
    hide DrawOf;
    var row := Rows(l, width)[|Rows(l, width)| - 1];
    PaintText(row, DrawOf(m));
    hide Paint;
  }

  /** Written row i of a screen begins with a text, followed by nothing but blanks if it is alone there. */
  ghost predicate Carries(u: Screen, i: nat, text: string, alone: bool) {
    && u.row < |u.window| && i < |u.Paper()| && |text| <= |u.Paper()[i]|
    && u.Paper()[i][..|text|] == text
    && (alone ==> forall j :: |text| <= j < |u.Paper()[i]| ==> u.Paper()[i][j] == ' ')
  }

  lemma RowCarries(u: Screen, i: nat, text: string, alone: bool, rows: seq<Row>)
    requires u.row < |u.window| && u.Paper() == rows && i < |rows| && |text| <= |rows[i]| && rows[i][..|text|] == text
    requires alone ==> rows[i][|text|..] == Blank(|rows[i]| - |text|)
    ensures Carries(u, i, text, alone)
  {
    if alone {
      forall j | |text| <= j < |rows[i]| ensures rows[i][j] == ' ' {
        assert rows[i][j] == rows[i][|text|..][j - |text|];
      }
    }
  }

  lemma DrawByLabel(m: Message)
    requires m.error.None? && !(m.progress.Some? && m.stream != "" && m.progress.value != "")
    ensures var body := if m.progress.Some? then m.status + " " + m.progress.value
                        else if m.progressMessage != "" then m.status + " " + m.progressMessage
                        else if m.stream != "" then m.stream else m.status;
            && !DrawOf(m).Nothing? && DrawOf(m).text == m.Label() + body
            && (DrawOf(m).Replace? <==> m.progress.Some? && m.stream == "")
  {
    hide Message.Label;
    Triple(m.Label(), m.status, " ", if m.progress.Some? then m.progress.value else m.progressMessage);
    assert m.status + " " + "" == m.status + " ";
  }

  lemma Triple(a: string, b: string, c: string, d: string)
    ensures a + b + c + d == a + (b + c + d) && a + b + c == a + (b + c)
  {
  }

  /** What a message draws, by its fields. */
  lemma DrawFields(m: Message)
    requires m.error.None? && !(m.progress.Some? && m.stream != "" && m.progress.value != "")
    ensures var stamp := if m.timeNano.Some? then m.timeNano.value + " "
                         else if m.time.Some? then m.time.value + " " else "";
            var tag := if m.id != "" then m.id + ": " else "";
            var origin := if m.from != "" then "(from " + m.from + ") " else "";
            var body := if m.progress.Some? then m.status + " " + m.progress.value
                        else if m.progressMessage != "" then m.status + " " + m.progressMessage
                        else if m.stream != "" then m.stream else m.status;
            && !DrawOf(m).Nothing? && DrawOf(m).text == stamp + tag + origin + body
            && (DrawOf(m).Replace? <==> m.progress.Some? && m.stream == "")
  {
    hide DrawOf;
    hide Message.Label;
    LabelFields(m);
    DrawByLabel(m);
    Triple(if m.timeNano.Some? then m.timeNano.value + " " else if m.time.Some? then m.time.value + " " else "",
           if m.id != "" then m.id + ": " else "", if m.from != "" then "(from " + m.from + ") " else "", "");
  }

  /**
   The terminal after message k of a stream shows that message: its timestamp,
   its ID whether or not it has a line of its own, its origin and its body, from
   the start of a row; blank to the margin if it reports progress on a line of
   its own.
   */
  lemma MessageShown(t: Tty, input: seq<Message>, k: nat)
    requires Home(t) && t.screen.BlankBelow() && AllFit(input, t.screen.width)
    requires Widest([], input) < |t.screen.window| && k < |input| && StillOpen(input, k)
    requires !input[k].isAux && input[k].error.None?
    requires !(input[k].progress.Some? && input[k].stream != "" && input[k].progress.value != "")
    ensures var m := input[k];
            var u := FeedAll(t, StreamBytes(map[], input[..k + 1], true)).screen;
            var l := LogRun(FreshLog(t.screen), input[..k], t.screen.width);
            var stamp := if m.timeNano.Some? then m.timeNano.value + " "
                         else if m.time.Some? then m.time.value + " " else "";
            var tag := if m.id != "" then m.id + ": " else "";
            var origin := if m.from != "" then "(from " + m.from + ") " else "";
            var body := if m.progress.Some? then m.status + " " + m.progress.value
                        else if m.progressMessage != "" then m.status + " " + m.progressMessage
                        else if m.stream != "" then m.stream else m.status;
            var text := stamp + tag + origin + body;
            var i := ShownAt(l, m, t.screen.width);
            Carries(u, i, text, m.progress.Some? && m.stream == "")
  {
    var m, width := input[k], t.screen.width;
    var l := LogRun(FreshLog(t.screen), input[..k], width);
    DrawFields(m);
    ScreenIsLogThroughout(t, input, k + 1);
    LogRunSnoc(FreshLog(t.screen), input, k, width);
    hide DrawOf;
    hide LogStep;
    hide LogRun;
    hide Rows;
    hide StreamBytes;
    hide FeedAll;
    hide ShownAt;
    StepShows(l, m, width);
    hide Carries;
    var u := FeedAll(t, StreamBytes(map[], input[..k + 1], true)).screen;
    RowCarries(u, ShownAt(l, m, width), DrawOf(m).text, m.progress.Some? && m.stream == "",
               Rows(LogStep(l, m, width), width));
  }
}
