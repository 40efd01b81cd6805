/**
 The progress renderer: how a stream of JSON messages becomes characters on an
 output. The renderer keeps a map from layer ID to line number and moves the
 cursor relatively; it never knows on which row of the screen it is.
 */
module JsonStream {
  import opened Common
  import opened Terminal

  datatype JsonError = JsonError(code: int, message: string)

  /**
   One message. progress is the text that JSONProgress.String returns for the
   message, timeNano and time are its formatted timestamps; None where the
   message has none. isAux marks out-of-band data.
   */
  datatype Message = Message(
    stream: string, status: string, progress: Option<string>, progressMessage: string,
    id: string, from: string, time: Option<string>, timeNano: Option<string>,
    error: Option<JsonError>, isAux: bool)
  {
    /** Does the message report progress of an identified layer? */
    predicate Tracks() {
      id != "" && (progress.Some? || progressMessage != "")
    }

    function Stamp(): string {
      if timeNano.Some? then timeNano.value + " " else if time.Some? then time.value + " " else ""
    }

    function Tag(): string {
      if id != "" then id + ": " else ""
    }

    function Origin(): string {
      if from != "" then "(from " + from + ") " else ""
    }

    /** What precedes the status: timestamp, ID and origin. */
    function Label(): string {
      Stamp() + Tag() + Origin()
    }
  }

  /** An io.Writer: what was written to it so far. */
  class Writer {
    var written: string

    constructor ()
      ensures written == ""
    {
      written := "";
    }

    method Print(s: string)
      modifies this
      ensures written == old(written) + s
    {
      written := written + s;
    }
  }

  function ClearBytes(): string {
    [ESC] + "[1K" + ([ESC] + "[K")
  }

  function MoveBytes(n: nat, final: char): string {
    if n == 0 then "" else [ESC] + "[" + Decimal(n) + [final]
  }

  function BodyBytes(m: Message, terminal: bool): string {
    m.Label() +
    if m.progress.Some? && terminal then m.status + " " + m.progress.value + "\r"
    else if m.progressMessage != "" then m.status + " " + m.progressMessage + "\r"
    else if m.stream != "" then m.stream + "\r"
    else m.status + "\n\r"
  }

  function DisplayBytes(m: Message, terminal: bool): string {
    if m.error.Some? then ""
    else if terminal && m.stream == "" && m.progress.Some? then ClearBytes() + "\r" + BodyBytes(m, terminal)
    else if m.progress.Some? && m.progress.value != "" then ""
    else BodyBytes(m, terminal)
  }

  // ------------------------------------------------- by the fields of a message

  /** The nanosecond timestamp wins; an ID is printed whether or not the message tracks; the origin comes last. */
  lemma LabelFields(m: Message)
    ensures var rest := (if m.id != "" then m.id + ": " else "")
                        + if m.from != "" then "(from " + m.from + ") " else "";
            && (m.timeNano.Some? ==> m.Label() == m.timeNano.value + " " + rest)
            && (m.timeNano.None? && m.time.Some? ==> m.Label() == m.time.value + " " + rest)
            && (m.timeNano.None? && m.time.None? ==> m.Label() == rest)
  {
    assert m.Stamp() + m.Tag() + m.Origin() == m.Stamp() + (m.Tag() + m.Origin());
  }

  lemma TracksFields(m: Message)
    ensures m.Tracks() <==> m.id != "" && (m.progress.Some? || m.progressMessage != "")
  {
  }

  /** What a message without an error prints on a terminal. */
  lemma TerminalFields(m: Message)
    requires m.error.None?
    ensures m.progress.Some? && m.stream == "" ==>
              DisplayBytes(m, true) ==
              [ESC] + "[1K" + ([ESC] + "[K") + "\r" + (m.Label() + (m.status + " " + m.progress.value + "\r"))
    ensures m.progress.Some? && m.stream != "" && m.progress.value != "" ==> DisplayBytes(m, true) == ""
    ensures m.progress == Some("") && m.stream != "" ==>
              DisplayBytes(m, true) == m.Label() + (m.status + " " + "" + "\r")
    ensures m.progress.None? ==> DisplayBytes(m, true) == m.Label() + Ending(m)
  {
    hide Message.Label;
  }

  /** What it prints elsewhere: progress with a text hides the message, without one it is ignored. */
  lemma PlainFields(m: Message)
    requires m.error.None?
    ensures m.progress.Some? && m.progress.value != "" ==> DisplayBytes(m, false) == ""
    ensures m.progress.None? || m.progress.value == "" ==> DisplayBytes(m, false) == m.Label() + Ending(m)
  {
    hide Message.Label;
  }

  /** What follows the label of a message without progress. */
  function Ending(m: Message): string {
    if m.progressMessage == "" && m.stream == "" then m.status + "\n\r"
    else (if m.progressMessage == "" then m.stream else m.status + " " + m.progressMessage) + "\r"
  }

  /** No line number reaches the number of IDs. */
  predicate Bounded(ids: map<string, nat>) {
    forall x <- ids :: ids[x] < |ids|
  }

  /** The line map after a message. */
  function NextIds(ids: map<string, nat>, m: Message): (next: map<string, nat>)
    requires Bounded(ids)
    ensures Bounded(next) && (m.Tracks() ==> m.id in next)
  {
    if !m.Tracks() then map[]
    else if m.id in ids then ids
    else ids[m.id := |ids|]
  }

  /** How many lines above the cursor the line of a progress message is. */
  function Diff(ids: map<string, nat>, m: Message): nat
    requires Bounded(ids)
  {
    if m.Tracks() then |NextIds(ids, m)| - NextIds(ids, m)[m.id] else 0
  }

  /** What is written to reach the message's line, making a new one if its ID is new. */
  function ApproachBytes(ids: map<string, nat>, m: Message, terminal: bool): string
    requires Bounded(ids)
  {
    if !terminal || !m.Tracks() then ""
    else (if m.id in ids then "" else "\n") + MoveBytes(Diff(ids, m), 'A')
  }

  function MessageBytes(ids: map<string, nat>, m: Message, terminal: bool): string
    requires Bounded(ids)
  {
    ApproachBytes(ids, m, terminal) + DisplayBytes(m, terminal)
    + if terminal then MoveBytes(Diff(ids, m), 'B') else ""
  }

  /** Every ID names a line, and distinct IDs name distinct lines 0..|ids|-1, in the given order. */
  ghost predicate Lines(ids: map<string, nat>, order: seq<string>) {
    && |ids| == |order|
    && Distinct(order)
    && (forall x :: x in ids <==> x in order)
    && (forall k :: 0 <= k < |order| ==> order[k] in ids && ids[order[k]] == k)
  }

  function Enrol(order: seq<string>, m: Message): seq<string> {
    if !m.Tracks() then []
    else if m.id in order then order
    else order + [m.id]
  }

  /** The map stays a bijection onto its line numbers, and the cursor has 1..|ids| lines to go. */
  lemma LinesKept(ids: map<string, nat>, order: seq<string>, m: Message)
    requires Lines(ids, order)
    ensures Bounded(ids) && Lines(NextIds(ids, m), Enrol(order, m))
    ensures m.Tracks() ==>
              && 1 <= Diff(ids, m) <= |NextIds(ids, m)|
              && m.id in Enrol(order, m)
              && Diff(ids, m) == |Enrol(order, m)| - IndexOf(Enrol(order, m), m.id)
    ensures !m.Tracks() ==> Diff(ids, m) == 0
  {
  }

  function StreamBytes(ids: map<string, nat>, input: seq<Message>, terminal: bool): string
    requires Bounded(ids)
    decreases |input|
  {
    if input == [] then ""
    else if input[0].isAux then StreamBytes(ids, input[1..], terminal)
    else MessageBytes(ids, input[0], terminal)
         + if input[0].error.Some? then "" else StreamBytes(NextIds(ids, input[0]), input[1..], terminal)
  }

  /** What a stream says without progress: the bodies of its messages up to the first error. */
  function PlainText(input: seq<Message>): string {
    if input == [] || (!input[0].isAux && input[0].error.Some?) then ""
    else
      var m := input[0];
      (if m.isAux || (m.progress.Some? && m.progress.value != "") then "" else BodyBytes(m, false))
      + PlainText(input[1..])
  }

  /** Off a terminal nothing depends on line numbers: no cursor is moved and progress is left out. */
  lemma {:induction false} NoTerminalNoProgress(ids: map<string, nat>, input: seq<Message>)
    requires Bounded(ids)
    ensures StreamBytes(ids, input, false) == PlainText(input)
    decreases |input|
  {
    hide BodyBytes;
    if input != [] {
      NoTerminalNoProgress(if input[0].isAux then ids else NextIds(ids, input[0]), input[1..]);
    }
  }

  function ErrorText(e: JsonError): string {
    if e.code == 401 then "authentication is required" else e.message
  }

  /** The first reported error ends the stream; otherwise the decoder's verdict does. */
  function StreamError(input: seq<Message>, end: Option<string>): Option<string> {
    if input == [] then end
    else if !input[0].isAux && input[0].error.Some? then Some(ErrorText(input[0].error.value))
    else StreamError(input[1..], end)
  }

  lemma ErrorFields(e: JsonError)
    ensures e.code == 401 ==> ErrorText(e) == "authentication is required"
    ensures e.code != 401 ==> ErrorText(e) == e.message
  {
  }

  /** The stream's error is that of its first message that is not auxiliary and reports one. */
  lemma {:induction false} StreamErrorFirst(input: seq<Message>, end: Option<string>, i: nat)
    requires i <= |input| && forall j :: 0 <= j < i ==> input[j].isAux || input[j].error.None?
    ensures i == |input| ==> StreamError(input, end) == end
    ensures i < |input| && !input[i].isAux && input[i].error.Some? ==>
              var e := input[i].error.value;
              StreamError(input, end) == Some(if e.code == 401 then "authentication is required" else e.message)
    decreases |input|
  {
    if i > 0 {
      StreamErrorFirst(input[1..], end, i - 1);
    }
  }

  /** One more message is passed to the callback exactly if it is auxiliary and no error came before it. */
  lemma {:induction false} AuxSnoc(input: seq<Message>, m: Message)
    ensures AuxOf([]) == []
    ensures AuxOf(input + [m]) ==
            AuxOf(input)
            + if m.isAux && (forall i :: 0 <= i < |input| ==> input[i].isAux || input[i].error.None?) then [m] else []
    decreases |input|
  {
    var all := input + [m];
    if input == [] {
      assert all[0] == m && all[1..] == [];
    } else {
      assert all[0] == input[0] && all[1..] == input[1..] + [m];
      AuxSnoc(input[1..], m);
      assert forall i :: 0 < i < |input| ==> input[1..][i - 1] == input[i];
    }
  }

  method ClearLine(out: Writer)
    modifies out
    ensures out.written == old(out.written) + ClearBytes()
  {
    out.Print([ESC] + "[1K");
    out.Print([ESC] + "[K");
  }

  method CursorUp(out: Writer, l: nat)
    modifies out
    ensures out.written == old(out.written) + MoveBytes(l, 'A')
  {
    if l == 0 {
      return;
    }
    out.Print([ESC] + "[" + Decimal(l) + "A");
  }

  method CursorDown(out: Writer, l: nat)
    modifies out
    ensures out.written == old(out.written) + MoveBytes(l, 'B')
  {
    if l == 0 {
      return;
    }
    out.Print([ESC] + "[" + Decimal(l) + "B");
  }

  method PrintStamp(m: Message, out: Writer)
    modifies out
    ensures out.written == old(out.written) + m.Stamp()
  {
    if m.timeNano.Some? {
      out.Print(m.timeNano.value + " ");
    } else if m.time.Some? {
      out.Print(m.time.value + " ");
    }
  }

  method PrintLabel(m: Message, out: Writer)
    modifies out
    ensures out.written == old(out.written) + m.Label()
  {
    hide Message.Stamp;
    PrintStamp(m, out);
    if m.id != "" {
      out.Print(m.id + ": ");
    }
    assert out.written == old(out.written) + m.Stamp() + m.Tag();
    hide Message.Tag;
    if m.from != "" {
      out.Print("(from " + m.from + ") ");
    }
    assert out.written == old(out.written) + m.Stamp() + m.Tag() + m.Origin();
  }

  method PrintBody(m: Message, out: Writer, terminal: bool)
    modifies out
    ensures out.written == old(out.written) + BodyBytes(m, terminal)
  {
    hide Message.Label;
    var endl := "\r";
    PrintLabel(m, out);
    if m.progress.Some? && terminal {
      out.Print(m.status + " " + m.progress.value + endl);
    } else if m.progressMessage != "" {
      out.Print(m.status + " " + m.progressMessage + endl);
    } else if m.stream != "" {
      out.Print(m.stream + endl);
    } else {
      assert m.status + "\n" + endl == m.status + "\n\r";
      out.Print(m.status + "\n" + endl);
    }
  }

  /** Prints one message; a message that carries an error prints nothing and returns it. */
  method Display(m: Message, out: Writer, terminal: bool) returns (err: Option<string>)
    modifies out
    ensures out.written == old(out.written) + DisplayBytes(m, terminal)
    ensures err == if m.error.Some? then Some(ErrorText(m.error.value)) else None
  {
    hide BodyBytes;
    hide ClearBytes;
    if m.error.Some? {
      return Some(ErrorText(m.error.value));
    }
    var endl := "\r";
    if terminal && m.stream == "" && m.progress.Some? {
      ClearLine(out);
      out.Print(endl);
    } else if m.progress.Some? && m.progress.value != "" {
      return None;
    }
    PrintBody(m, out, terminal);
    return None;
  }

  /** Finds or assigns the line of a message and moves the cursor there. */
  method Approach(m: Message, ids: map<string, nat>, out: Writer, isTerminal: bool)
    returns (next: map<string, nat>, diff: nat)
    requires Bounded(ids)
    modifies out
    ensures next == NextIds(ids, m) && diff == Diff(ids, m)
    ensures out.written == old(out.written) + ApproachBytes(ids, m, isTerminal)
  {
    hide MoveBytes;
    diff := 0;
    if m.Tracks() {
      next := ids;
      var line := |ids|;
      if m.id in ids {
        line := ids[m.id];
      } else {
        next := ids[m.id := line];
        if isTerminal {
          out.Print("\n");
        }
      }
      diff := |next| - line;
      if isTerminal {
        CursorUp(out, diff);
      }
    } else {
      next := map[];
    }
  }

  /** One turn of the decode loop: go to the line, print, come back. */
  method DisplayNext(m: Message, ids: map<string, nat>, out: Writer, isTerminal: bool)
    returns (next: map<string, nat>, err: Option<string>)
    requires Bounded(ids)
    modifies out
    ensures next == NextIds(ids, m)
    ensures out.written == old(out.written) + MessageBytes(ids, m, isTerminal)
    ensures err == if m.error.Some? then Some(ErrorText(m.error.value)) else None
  {
    hide ApproachBytes;
    hide DisplayBytes;
    var diff;
    next, diff := Approach(m, ids, out, isTerminal);
    err := Display(m, out, isTerminal);
    if m.id != "" && isTerminal {
      CursorDown(out, diff);
    }
  }

  /** The out-of-band messages before the stream ends. */
  function AuxOf(input: seq<Message>): seq<Message> {
    if input == [] then []
    else if input[0].isAux then [input[0]] + AuxOf(input[1..])
    else if input[0].error.Some? then []
    else AuxOf(input[1..])
  }

  lemma Unfold(ids: map<string, nat>, input: seq<Message>, terminal: bool, end: Option<string>)
    requires Bounded(ids) && input != []
    ensures var m, rest := input[0], input[1..];
            if m.isAux then
              && StreamBytes(ids, input, terminal) == StreamBytes(ids, rest, terminal)
              && StreamError(input, end) == StreamError(rest, end)
              && AuxOf(input) == [m] + AuxOf(rest)
            else if m.error.Some? then
              && StreamBytes(ids, input, terminal) == MessageBytes(ids, m, terminal)
              && StreamError(input, end) == Some(ErrorText(m.error.value))
              && AuxOf(input) == []
            else
              && StreamBytes(ids, input, terminal) ==
                 MessageBytes(ids, m, terminal) + StreamBytes(NextIds(ids, m), rest, terminal)
              && StreamError(input, end) == StreamError(rest, end)
              && AuxOf(input) == AuxOf(rest)
  {
    hide MessageBytes;
  }

  lemma Finished(ids: map<string, nat>, terminal: bool, end: Option<string>)
    requires Bounded(ids)
    ensures StreamBytes(ids, [], terminal) == "" && StreamError([], end) == end && AuxOf([]) == []
  {
  }

  /**
   The decode loop. The decoder yields the messages of input and then ends,
   with an error unless end is None. Returns the auxiliary messages handed to
   the callback.
   */
  method DisplayJSONMessagesStream(input: seq<Message>, end: Option<string>, out: Writer, isTerminal: bool,
                                   auxCallback: bool)
    returns (err: Option<string>, aux: seq<Message>)
    modifies out
    ensures out.written == old(out.written) + StreamBytes(map[], input, isTerminal)
    ensures err == StreamError(input, end)
    ensures aux == if auxCallback then AuxOf(input) else []
  {
    hide MessageBytes;
    hide NextIds;
    hide PlainText;
    hide ErrorText;
    hide StreamBytes;
    hide StreamError;
    hide AuxOf;
    var ids: map<string, nat> := map[];
    aux := [];
    var i := 0;
    while i < |input|
      invariant 0 <= i <= |input| && Bounded(ids)
      invariant out.written + StreamBytes(ids, input[i..], isTerminal)
             == old(out.written) + StreamBytes(map[], input, isTerminal)
      invariant StreamError(input[i..], end) == StreamError(input, end)
      invariant auxCallback ==> AuxOf(input) == aux + AuxOf(input[i..])
      invariant !auxCallback ==> aux == []
    {
      var m := input[i];
      assert input[i..][0] == m && input[i..][1..] == input[i + 1..];
      Unfold(ids, input[i..], isTerminal, end);
      i := i + 1;
      if m.isAux {
        if auxCallback {
          aux := aux + [m];
        }
        continue;
      }
      ids, err := DisplayNext(m, ids, out, isTerminal);
      if err.Some? {
        return;
      }
    }
    Finished(ids, isTerminal, end);
    assert input[i..] == [];
    err := end;
  }
}
