/**
 What the user is meant to see, independent of cursor movement and line maps:
 committed lines, then one line per layer of the current epoch in order of
 first appearance, then the cursor's line. The paper a terminal of a given
 height ends up with is this log exactly as long as no update has to reach a
 row that has scrolled off.
 */
module ProgressLog {
  import opened Common
  import opened Terminal
  import opened JsonStream
  import opened ProgressScreen

  /**
   committed: lines no later message touches. base: the cursor's line when the
   current epoch began. epoch: the progress messages since the last message
   that is not progress.
   */
  datatype Log = Log(committed: seq<Row>, base: Row, epoch: seq<Message>)

  /** The IDs of an epoch in order of first appearance. */
  function EpochIds(epoch: seq<Message>): (ids: seq<string>)
    ensures Distinct(ids)
  {
    if epoch == [] then []
    else
      var ids := EpochIds(epoch[..|epoch| - 1]);
      var id := epoch[|epoch| - 1].id;
      if id in ids then ids else ids + [id]
  }

  ghost predicate AllTrack(epoch: seq<Message>, width: nat) {
    forall i :: 0 <= i < |epoch| ==> epoch[i].Tracks() && Fits(epoch[i], width) && !epoch[i].isAux
  }

  /** A row after all messages of the epoch with the given ID have drawn on it, in order. */
  function Latest(start: Row, epoch: seq<Message>, id: string): (r: Row)
    requires AllTrack(epoch, |start|)
    ensures |r| == |start|
  {
    if epoch == [] then start
    else
      var r := Latest(start, epoch[..|epoch| - 1], id);
      if epoch[|epoch| - 1].id == id then Paint(r, DrawOf(epoch[|epoch| - 1])) else r
  }

  ghost predicate LogValid(l: Log, width: nat) {
    && |l.base| == width
    && AllTrack(l.epoch, width)
    && forall i :: 0 <= i < |l.committed| ==> |l.committed[i]| == width
  }

  /** The line of the k-th ID: the first ID takes over the line the epoch began on. */
  function LineOf(l: Log, k: nat, width: nat): (r: Row)
    requires LogValid(l, width) && k < |EpochIds(l.epoch)|
    ensures |r| == width
  {
    Latest(if k == 0 then l.base else Blank(width), l.epoch, EpochIds(l.epoch)[k])
  }

  function Rows(l: Log, width: nat): (rows: seq<Row>)
    requires LogValid(l, width)
    ensures |rows| == |l.committed| + |EpochIds(l.epoch)| + 1
    ensures forall i :: 0 <= i < |rows| ==> |rows[i]| == width
  {
    l.committed
    + seq(|EpochIds(l.epoch)|, k requires 0 <= k < |EpochIds(l.epoch)| => LineOf(l, k, width))
    + [if l.epoch == [] then l.base else Blank(width)]
  }

  function LogStep(l: Log, m: Message, width: nat): (r: Log)
    requires LogValid(l, width) && Fits(m, width)
    ensures LogValid(r, width)
  {
    if m.isAux then l
    else if m.Tracks() then l.(epoch := l.epoch + [m])
    else
      var rows := Rows(l, width);
      var above, drawn := rows[..|rows| - 1], Paint(rows[|rows| - 1], DrawOf(m));
      if DrawOf(m).OverlayLine? then Log(above + [drawn], Blank(width), [])
      else Log(above, drawn, [])
  }

  function LogRun(l: Log, input: seq<Message>, width: nat): (r: Log)
    requires LogValid(l, width) && AllFit(input, width)
    ensures LogValid(r, width)
    decreases |input|
  {
    if input == [] then l
    else
      var r := LogStep(l, input[0], width);
      if !input[0].isAux && input[0].error.Some? then r else LogRun(r, input[1..], width)
  }

  // ------------------------------------------- what the log's lines look like

  ghost predicate Mentions(epoch: seq<Message>, id: string) {
    exists i :: 0 <= i < |epoch| && epoch[i].id == id
  }

  /** EpochIds lists exactly the IDs of the epoch. */
  lemma {:induction false} EpochIdsComplete(epoch: seq<Message>, id: string)
    ensures id in EpochIds(epoch) <==> Mentions(epoch, id)
  {
    if epoch != [] {
      var front, last := epoch[..|epoch| - 1], epoch[|epoch| - 1];
      EpochIdsComplete(front, id);
      if id in EpochIds(front) {
        var i :| 0 <= i < |front| && front[i].id == id;
        assert epoch[i].id == id;
      }
    }
  }

  /** Of two listed IDs, the earlier one has a message before the later one's first. */
  lemma {:induction false} EpochIdsOrdered(epoch: seq<Message>, j: nat, k: nat) returns (a: nat)
    requires j < k < |EpochIds(epoch)|
    ensures a < |epoch| && epoch[a].id == EpochIds(epoch)[j]
    ensures !Mentions(epoch[..a + 1], EpochIds(epoch)[k])
  {
    var front := epoch[..|epoch| - 1];
    var ids := EpochIds(front);
    if k < |ids| {
      a := EpochIdsOrdered(front, j, k);
      assert epoch[..a + 1] == front[..a + 1];
    } else {
      EpochIdsComplete(front, ids[j]);
      EpochIdsComplete(front, epoch[|epoch| - 1].id);
      a :| 0 <= a < |front| && front[a].id == ids[j];
      var early := epoch[..a + 1];
      forall b | 0 <= b < |early| ensures early[b].id != EpochIds(epoch)[k] {
        assert early[b] == front[b];
      }
    }
  }

  /** A layer's line shows the text of its last message that replaces the line, and nothing else. */
  lemma {:induction false} LatestReplaces(start: Row, epoch: seq<Message>, k: nat)
    requires AllTrack(epoch, |start|) && k < |epoch| && DrawOf(epoch[k]).Replace?
    requires forall j :: k < j < |epoch| ==> epoch[j].id != epoch[k].id || DrawOf(epoch[j]).Nothing?
    ensures Latest(start, epoch, epoch[k].id) ==
            DrawOf(epoch[k]).text + Blank(|start| - |DrawOf(epoch[k]).text|)
    decreases |epoch|
  {
    if k < |epoch| - 1 {
      LatestReplaces(start, epoch[..|epoch| - 1], k);
    }
  }

  lemma {:induction false} LatestUntouched(start: Row, epoch: seq<Message>, id: string)
    requires AllTrack(epoch, |start|) && id !in EpochIds(epoch)
    ensures Latest(start, epoch, id) == start
  {
    if epoch != [] {
      var front := epoch[..|epoch| - 1];
      var ids := EpochIds(front);
      var last := epoch[|epoch| - 1].id;
      assert id != last by {
        if last !in ids { assert (ids + [last])[|ids|] == last; }
      }
      assert id !in ids;
      LatestUntouched(start, front, id);
    }
  }

  // ------------------------------------------------------- paper against log

  ghost predicate Agrees(p: Paper, l: Log, width: nat) {
    LogValid(l, width) && p.Valid(width) && p.order == EpochIds(l.epoch) && p.rows == Rows(l, width)
  }

  lemma RowsAt(l: Log, i: nat, width: nat)
    requires LogValid(l, width) && i < |Rows(l, width)|
    ensures Rows(l, width)[i] ==
            if i < |l.committed| then l.committed[i]
            else if i < |l.committed| + |EpochIds(l.epoch)| then LineOf(l, i - |l.committed|, width)
            else if l.epoch == [] then l.base else Blank(width)
  {
  }

  lemma LatestSnoc(start: Row, epoch: seq<Message>, m: Message, id: string)
    requires AllTrack(epoch + [m], |start|) && AllTrack(epoch, |start|) && FitsDraw(DrawOf(m), |start|)
    ensures Latest(start, epoch + [m], id) ==
            if m.id == id then Paint(Latest(start, epoch, id), DrawOf(m)) else Latest(start, epoch, id)
  {
  }

  lemma EpochIdsSnoc(epoch: seq<Message>, m: Message)
    requires m.Tracks()
    ensures EpochIds(epoch + [m]) == Enrol(EpochIds(epoch), m)
  {
  }

  /** The rows a tracked message meets: with a fresh blank row if its ID is new. */
  function Room(l: Log, m: Message, width: nat): (rows: seq<Row>)
    requires LogValid(l, width)
    ensures forall i :: 0 <= i < |rows| ==> |rows[i]| == width
  {
    Rows(l, width) + if m.id in EpochIds(l.epoch) then [] else [Blank(width)]
  }

  lemma OwnLine(l: Log, m: Message, k: nat, width: nat)
    requires LogValid(l, width) && Fits(m, width) && !m.isAux && m.Tracks()
    requires LogValid(l.(epoch := l.epoch + [m]), width)
    requires EpochIds(l.epoch + [m]) == Enrol(EpochIds(l.epoch), m)
    requires k < |Enrol(EpochIds(l.epoch), m)|
    ensures var row := Room(l, m, width)[|l.committed| + k];
            LineOf(l.(epoch := l.epoch + [m]), k, width) ==
            if Enrol(EpochIds(l.epoch), m)[k] == m.id then Paint(row, DrawOf(m)) else row
  {
    hide DrawOf;
    var ids := EpochIds(l.epoch);
    var ids' := Enrol(ids, m);
    var start := if k == 0 then l.base else Blank(width);
    LatestSnoc(start, l.epoch, m, ids'[k]);
    RowsAt(l, |l.committed| + k, width);
    if k >= |ids| {
      LatestUntouched(start, l.epoch, m.id);
      if l.epoch != [] {
        EpochIdsComplete(l.epoch, l.epoch[0].id);
      }
    }
  }

  /** Where in Room a tracked message's own line is. */
  function Own(l: Log, m: Message, width: nat): (i: nat)
    requires LogValid(l, width) && m.Tracks()
    ensures i < |Room(l, m, width)|
  {
    |Room(l, m, width)| - 1 - Reach(EpochIds(l.epoch), m)
  }

  lemma OwnPlace(l: Log, m: Message, width: nat)
    requires LogValid(l, width) && m.Tracks()
    ensures var ids := Enrol(EpochIds(l.epoch), m);
            && |Room(l, m, width)| == |l.committed| + |ids| + 1
            && forall k :: 0 <= k < |ids| ==> (ids[k] == m.id <==> |l.committed| + k == Own(l, m, width))
  {
  }

  lemma LogStepRow(l: Log, m: Message, i: nat, width: nat)
    requires LogValid(l, width) && Fits(m, width) && !m.isAux && m.Tracks()
    requires i < |Room(l, m, width)|
    ensures var room, rows := Room(l, m, width), Rows(LogStep(l, m, width), width);
            && |rows| == |room|
            && rows[i] == if i == Own(l, m, width) then Paint(room[i], DrawOf(m)) else room[i]
  {
    hide DrawOf;
    hide Paint;
    hide Latest;
    EpochIdsSnoc(l.epoch, m);
    OwnPlace(l, m, width);
    hide Own;
    hide Reach;
    var l' := LogStep(l, m, width);
    hide LineOf;
    RowsAt(l', i, width);
    if i < |l.committed| {
      RowsAt(l, i, width);
    } else if i < |l.committed| + |EpochIds(l'.epoch)| {
      OwnLine(l, m, i - |l.committed|, width);
    } else if m.id in EpochIds(l.epoch) {
      RowsAt(l, i, width);
    }
  }

  /** A tracked message changes one line of the log: its own, appended first if the ID is new. */
  lemma LogStepTracked(l: Log, m: Message, width: nat)
    requires LogValid(l, width) && Fits(m, width) && !m.isAux && m.Tracks()
    ensures EpochIds(LogStep(l, m, width).epoch) == Enrol(EpochIds(l.epoch), m)
    ensures var room, own := Room(l, m, width), Own(l, m, width);
            Rows(LogStep(l, m, width), width) == room[own := Paint(room[own], DrawOf(m))]
  {
    EpochIdsSnoc(l.epoch, m);
    hide *;
    var room, own := Room(l, m, width), Own(l, m, width);
    LogStepRow(l, m, own, width);
    forall i | 0 <= i < |room|
      ensures Rows(LogStep(l, m, width), width)[i] == if i == own then Paint(room[own], DrawOf(m)) else room[i]
    {
      LogStepRow(l, m, i, width);
    }
  }

  predicate InReach(order: seq<string>, m: Message, height: nat) {
    m.Tracks() ==> Reach(order, m) < height
  }

  lemma StepRoom(p: Paper, l: Log, m: Message, height: nat, width: nat)
    requires Agrees(p, l, width) && Fits(m, width) && height > 0 && !m.isAux && m.Tracks()
    ensures PaperStep(p, m, height, width).order == Enrol(p.order, m)
    ensures var room, land := Room(l, m, width), Land(p, l, m, height, width);
            PaperStep(p, m, height, width).rows == room[land := Paint(room[land], DrawOf(m))]
  {
    hide Rows;
    hide DrawOf;
    hide Paint;
  }

  lemma TrackedAgrees(p: Paper, l: Log, m: Message, height: nat, width: nat)
    requires Agrees(p, l, width) && Fits(m, width) && height > 0
    requires !m.isAux && m.Tracks() && InReach(p.order, m, height)
    ensures Agrees(PaperStep(p, m, height, width), LogStep(l, m, width), width)
  {
    LogStepTracked(l, m, width);
    StepRoom(p, l, m, height, width);
    LogStepOrder(p, l, m, width);
    assert LogValid(LogStep(l, m, width), width) && Reach(p.order, m) < height;
    hide *;
    AgreesIs(PaperStep(p, m, height, width), LogStep(l, m, width), width);
  }

  lemma LogStepOrder(p: Paper, l: Log, m: Message, width: nat)
    requires Agrees(p, l, width) && Fits(m, width) && !m.isAux && m.Tracks()
    ensures EpochIds(LogStep(l, m, width).epoch) == Enrol(p.order, m)
  {
  }

  lemma AgreesIs(p: Paper, l: Log, width: nat)
    requires LogValid(l, width) && p.Valid(width) && p.order == EpochIds(l.epoch) && p.rows == Rows(l, width)
    ensures Agrees(p, l, width)
  {
  }

  lemma UntrackedAgrees(p: Paper, l: Log, m: Message, height: nat, width: nat)
    requires Agrees(p, l, width) && Fits(m, width) && height > 0 && !m.isAux && !m.Tracks()
    ensures Agrees(PaperStep(p, m, height, width), LogStep(l, m, width), width)
  {
  }

  /** One message keeps paper and log equal if its line is less than a screen above the cursor. */
  lemma StepAgrees(p: Paper, l: Log, m: Message, height: nat, width: nat)
    requires Agrees(p, l, width) && Fits(m, width) && height > 0
    requires !m.isAux ==> InReach(p.order, m, height)
    ensures Agrees(PaperStep(p, m, height, width), LogStep(l, m, width), width)
  {
    if m.isAux {
    } else if m.Tracks() {
      TrackedAgrees(p, l, m, height, width);
    } else {
      UntrackedAgrees(p, l, m, height, width);
    }
  }

  /** Drawing d on row i changes nothing. */
  predicate Idle(rows: seq<Row>, i: int, d: Draw) {
    0 <= i < |rows| && FitsDraw(d, |rows[i]|) && Paint(rows[i], d) == rows[i]
  }

  /** Drawing on row land leaves the same rows as drawing on row own. */
  predicate SameDrawn(room: seq<Row>, own: nat, land: nat, d: Draw)
    requires own < |room| && land < |room| && FitsDraw(d, |room[own]|) && FitsDraw(d, |room[land]|)
  {
    room[land := Paint(room[land], d)] == room[own := Paint(room[own], d)]
  }

  lemma LandsExactly(room: seq<Row>, own: nat, land: nat, d: Draw)
    requires own < |room| && land < |room| && FitsDraw(d, |room[own]|) && FitsDraw(d, |room[land]|)
    ensures SameDrawn(room, own, land, d) <==> land == own || (Idle(room, own, d) && Idle(room, land, d))
  {
    UpdatesEqual(room, land, Paint(room[land], d), own, Paint(room[own], d));
    hide Paint;
  }

  /** The message leaves the rows the log asks for. */
  ghost predicate ShownRight(p: Paper, l: Log, m: Message, height: nat, width: nat)
    requires Agrees(p, l, width) && Fits(m, width) && height > 0
  {
    PaperStep(p, m, height, width).rows == Rows(LogStep(l, m, width), width)
  }

  lemma ShownRightLands(p: Paper, l: Log, m: Message, height: nat, width: nat)
    requires Agrees(p, l, width) && Fits(m, width) && height > 0 && !m.isAux && m.Tracks()
    ensures var room, own, land := Room(l, m, width), Own(l, m, width), Land(p, l, m, height, width);
            ShownRight(p, l, m, height, width)
            <==> SameDrawn(room, own, land, DrawOf(m))
  {
    LogStepTracked(l, m, width);
    StepRoom(p, l, m, height, width);
    hide PaperStep;
    hide Rows;
    hide LogStep;
    hide Room;
    hide DrawOf;
    hide Paint;
    hide Land;
    hide Own;
  }

  /**
   Exactly when a progress message is shown where it belongs: its line is less
   than a screen above the cursor, or it changes neither its own line nor the
   top row of the window, where the clamped cursor would draw instead.
   */
  lemma StepAgreesExactly(p: Paper, l: Log, m: Message, height: nat, width: nat)
    requires Agrees(p, l, width) && Fits(m, width) && height > 0 && !m.isAux && m.Tracks()
    ensures var room := Room(l, m, width);
            ShownRight(p, l, m, height, width)
            <==> (|| Reach(p.order, m) < height
                  || (Idle(room, Own(l, m, width), DrawOf(m)) && Idle(room, |room| - height, DrawOf(m))))
  {
    hide *;
    ShownRightLands(p, l, m, height, width);
    AgreesFits(p, l, m, width);
    LandsExactly(Room(l, m, width), Own(l, m, width), Land(p, l, m, height, width), DrawOf(m));
  }

  lemma AgreesFits(p: Paper, l: Log, m: Message, width: nat)
    requires Agrees(p, l, width) && Fits(m, width) && !m.isAux
    ensures LogValid(l, width) && FitsDraw(DrawOf(m), width)
  {
  }

  /** Where in Room the draw of a tracked message lands: the cursor cannot leave the window. */
  function Land(p: Paper, l: Log, m: Message, height: nat, width: nat): (i: nat)
    requires Agrees(p, l, width) && m.Tracks() && height > 0
    ensures i < |Room(l, m, width)|
    ensures Reach(p.order, m) < height ==> i == Own(l, m, width)
    ensures Reach(p.order, m) >= height ==> i == |Room(l, m, width)| - height && i != Own(l, m, width)
  {
    |Room(l, m, width)| - 1 - Min(Reach(p.order, m), height - 1)
  }
}
