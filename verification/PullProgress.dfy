/**
 showProgress: the tick-driven status table of an image pull. The answers of
 the content store are arbitrary, and may change from tick to tick.
 */
module PullProgress {
  import opened Common

  datatype Status = Resolving | Resolved | Waiting | Downloading | Finished | Exists

  datatype StatusInfo = StatusInfo(ref: string, status: Status, offset: int, total: int)

  type Table = map<string, StatusInfo>

  /** One entry of the store's list of active transfers. */
  datatype Active = Active(ref: string, offset: int, total: int)

  /** The store's answer about one digest: createdAfter tells whether it was created after the pull began. */
  datatype Info = NotFound | Failure | Found(createdAfter: bool, size: int)

  /**
   What one tick sees: whether the image is resolved, the active list or an
   error, the job keys so far, and the answer Info would give for each job.
   */
  datatype Answers = Answers(resolved: bool, active: Option<seq<Active>>, jobs: seq<string>, info: nat -> Info)

  datatype Frame = NoFrame | Shown(rows: seq<StatusInfo>)

  predicate Settled(s: Status) {
    s.Finished? || s.Exists?
  }

  function Lookup(t: Table, k: string): Option<StatusInfo> {
    if k in t then Some(t[k]) else None
  }

  function ActiveRefs(active: seq<Active>): set<string> {
    set i | 0 <= i < |active| :: active[i].ref
  }

  /** The refs reported active at a tick; none are asked for once the pull is done. */
  function Seen(a: Answers, done: bool): set<string> {
    if done || a.active.None? then {} else ActiveRefs(a.active.value)
  }

  /** Only absent and downloading entries may be looked up. */
  predicate MayLookUp(before: Option<StatusInfo>) {
    before.None? || before.value.status.Downloading?
  }

  /**
   How one tick may change the entry of a job: to downloading if it is in the
   active list; by a lookup if it is absent or downloading; to finished once
   the pull is done.
   */
  predicate MayMove(seen: set<string>, done: bool, k: string, before: Option<StatusInfo>, after: Option<StatusInfo>) {
    || after == before
    || (k in seen && after.Some? && after.value.status.Downloading?)
    || (&& !done && k !in seen && MayLookUp(before)
        && after.Some? && (after.value.status.Waiting? || Settled(after.value.status)))
    || (done && after.Some? && after.value.status.Finished? && !(before.Some? && Settled(before.value.status)))
  }

  /** Every entry other than the image's own moves as MayMove allows. */
  ghost predicate Moved(name: string, a: Answers, done: bool, before: Table, after: Table) {
    forall k | k != name :: MayMove(Seen(a, done), done, k, Lookup(before, k), Lookup(after, k))
  }

  /** What a lookup says: done if created during the pull, exists if before, waiting if not there yet. */
  function LookedUp(key: string, info: Info): StatusInfo
    requires !info.Failure?
  {
    match info
    case NotFound => StatusInfo(key, Waiting, 0, 0)
    case Found(createdAfter, size) =>
      if createdAfter then StatusInfo(key, Finished, size, size) else StatusInfo(key, Exists, 0, 0)
  }

  /** How the final pass closes an entry: progress is kept, only the status changes. */
  function Closed(key: string, e: Option<StatusInfo>): StatusInfo {
    if e.None? then StatusInfo(key, Finished, 0, 0)
    else if Settled(e.value.status) then e.value
    else e.value.(status := Finished)
  }

  /** The entry of a job that is not active after a tick has dealt with it. */
  predicate Dealt(key: string, before: Option<StatusInfo>, info: Info, done: bool, after: Option<StatusInfo>) {
    if done then after == Some(Closed(key, before))
    else if MayLookUp(before) then !info.Failure? && after == Some(LookedUp(key, info))
    else after == before
  }

  /** The last report about a ref in the active list. */
  ghost predicate IsLast(active: seq<Active>, i: nat) {
    i < |active| && forall j :: i < j < |active| ==> active[j].ref != active[i].ref
  }

  /** The table after entering the active transfers in order. */
  function Marked(t: Table, active: seq<Active>): Table {
    if active == [] then t
    else Marked(t, active[..|active| - 1])[active[|active| - 1].ref := Row(active[|active| - 1])]
  }

  lemma RefsSnoc(active: seq<Active>, k: string)
    requires active != []
    ensures k in ActiveRefs(active) <==> k in ActiveRefs(active[..|active| - 1]) || k == active[|active| - 1].ref
  {
    var front := active[..|active| - 1];
    if k in ActiveRefs(active) {
      var i :| 0 <= i < |active| && active[i].ref == k;
      assert i < |front| ==> front[i].ref == k;
    }
    if k in ActiveRefs(front) {
      var i :| 0 <= i < |front| && front[i].ref == k;
      assert active[i].ref == k;
    }
  }

  lemma {:induction false} MarkedIs(t: Table, active: seq<Active>, k: string)
    ensures k !in ActiveRefs(active) ==> Lookup(Marked(t, active), k) == Lookup(t, k)
    ensures k in ActiveRefs(active) ==> k in Marked(t, active) && Marked(t, active)[k].status.Downloading?
  {
    if active != [] {
      var front, last := active[..|active| - 1], active[|active| - 1];
      MarkedIs(t, front, k);
      RefsSnoc(active, k);
    }
  }

  /** Of several reports about one ref the last one counts. */
  lemma {:induction false} MarkedLast(t: Table, active: seq<Active>, i: nat)
    requires IsLast(active, i)
    ensures Lookup(Marked(t, active), active[i].ref) == Some(Row(active[i]))
    decreases |active|
  {
    if i < |active| - 1 {
      MarkedLast(t, active[..|active| - 1], i);
    }
  }

  /** Of several jobs with one key, the first decides. */
  predicate IsFirst(jobs: seq<string>, j: nat) {
    j < |jobs| && forall n :: 0 <= n < j ==> jobs[n] != jobs[j]
  }

  /** The entries of the first n jobs say what the store answered. */
  ghost predicate Answered(a: Answers, seen: set<string>, done: bool, before: Table, after: Table, n: nat) {
    forall j: nat :: j < n && IsFirst(a.jobs, j) && a.jobs[j] !in seen ==>
      Dealt(a.jobs[j], Lookup(before, a.jobs[j]), a.info(j), done, Lookup(after, a.jobs[j]))
  }

  /** A job that is not active, would be looked up, and gets an error for an answer. */
  predicate Fails(a: Answers, seen: set<string>, before: Table, j: nat) {
    IsFirst(a.jobs, j) && a.jobs[j] !in seen && MayLookUp(Lookup(before, a.jobs[j])) && a.info(j).Failure?
  }

  /** A tick given up at job j: the earlier jobs are dealt with, nothing else is changed. */
  ghost predicate StopsAt(a: Answers, seen: set<string>, before: Table, after: Table, j: nat) {
    && Fails(a, seen, before, j)
    && Answered(a, seen, false, before, after, j)
    && forall k :: k !in seen && k !in a.jobs[..j] ==> Lookup(after, k) == Lookup(before, k)
  }

  lemma NoneFails(a: Answers, seen: set<string>, before: Table, after: Table)
    requires Answered(a, seen, false, before, after, |a.jobs|)
    ensures forall j: nat :: !Fails(a, seen, before, j)
  {
    forall j: nat ensures !Fails(a, seen, before, j) {
      if IsFirst(a.jobs, j) && a.jobs[j] !in seen {
        assert Dealt(a.jobs[j], Lookup(before, a.jobs[j]), a.info(j), false, Lookup(after, a.jobs[j]));
      }
    }
  }

  lemma Stopped(a: Answers, seen: set<string>, before: Table, after: Table, i: nat)
    requires i < |a.jobs| && Answered(a, seen, false, before, after, i) && a.jobs[i] !in seen
    requires a.info(i).Failure? && MayLookUp(Lookup(after, a.jobs[i]))
    requires forall j :: 0 <= j < i ==> a.jobs[j] in seen || Fixed(Lookup(after, a.jobs[j]), false)
    requires forall k :: k !in a.jobs[..i] ==> Lookup(after, k) == Lookup(before, k)
    ensures StopsAt(a, seen, before, after, i)
  {
    hide Dealt;
    forall j | 0 <= j < i ensures a.jobs[j] != a.jobs[i] {
      assert a.jobs[j] in seen || Fixed(Lookup(after, a.jobs[j]), false);
    }
    assert a.jobs[i] !in a.jobs[..i];
  }

  lemma StopsFrom(a: Answers, seen: set<string>, before: Table, mid: Table, after: Table, j: nat)
    requires StopsAt(a, seen, mid, after, j)
    requires forall k :: k !in seen ==> Lookup(mid, k) == Lookup(before, k)
    ensures StopsAt(a, seen, before, after, j)
  {
    hide Dealt;
  }

  /** The entries of the active refs are what the store last reported about them. */
  ghost predicate Reported(a: Answers, done: bool, t: Table) {
    !done && a.active.Some? ==>
      forall i: nat :: IsLast(a.active.value, i) ==>
        Lookup(t, a.active.value[i].ref) == Some(Row(a.active.value[i]))
  }

  lemma DoneReports(a: Answers, t: Table)
    ensures Reported(a, true, t)
  {
  }

  lemma MarkedReported(a: Answers, t: Table)
    requires a.active.Some?
    ensures var marked, refs := Marked(t, a.active.value), ActiveRefs(a.active.value);
            && Reported(a, false, marked)
            && (forall k :: k !in refs ==> Lookup(marked, k) == Lookup(t, k))
            && (forall k :: k in refs ==> k in marked && marked[k].status.Downloading?)
  {
    var active := a.active.value;
    forall i: nat | IsLast(active, i) ensures Lookup(Marked(t, active), active[i].ref) == Some(Row(active[i])) {
      MarkedLast(t, active, i);
    }
    forall k
      ensures k !in ActiveRefs(active) ==> Lookup(Marked(t, active), k) == Lookup(t, k)
      ensures k in ActiveRefs(active) ==> k in Marked(t, active) && Marked(t, active)[k].status.Downloading?
    {
      MarkedIs(t, active, k);
    }
  }

  lemma ReportsKept(a: Answers, done: bool, before: Table, after: Table)
    requires Reported(a, done, before)
    requires forall k :: k in Seen(a, done) ==> Lookup(after, k) == Lookup(before, k)
    ensures Reported(a, done, after)
  {
    hide Row;
    hide Lookup;
    if !done && a.active.Some? {
      forall i: nat | IsLast(a.active.value, i)
        ensures Lookup(after, a.active.value[i].ref) == Some(Row(a.active.value[i]))
      {
        assert a.active.value[i].ref in Seen(a, done);
      }
    }
  }

  lemma AnsweredFrom(a: Answers, seen: set<string>, done: bool, before: Table, mid: Table, after: Table)
    requires Answered(a, seen, done, mid, after, |a.jobs|)
    requires forall k :: k !in seen ==> Lookup(mid, k) == Lookup(before, k)
    ensures Answered(a, seen, done, before, after, |a.jobs|)
  {
    hide Dealt;
  }

  /** The image's own row at the start of a tick. */
  function ImageRow(name: string, a: Answers): StatusInfo {
    StatusInfo(name, if a.resolved then Resolved else Resolving, 0, 0)
  }

  lemma NoneAnswered(a: Answers, seen: set<string>, done: bool, t: Table)
    ensures Answered(a, seen, done, t, t, 0)
  {
  }

  /** One more job is dealt with, the others left alone. */
  lemma AnsweredSnoc(a: Answers, seen: set<string>, done: bool, before: Table, mid: Table, after: Table, n: nat)
    requires n < |a.jobs| && Answered(a, seen, done, before, mid, n)
    requires forall k :: k !in a.jobs[..n] ==> Lookup(mid, k) == Lookup(before, k)
    requires forall k :: k != a.jobs[n] ==> Lookup(after, k) == Lookup(mid, k)
    requires a.jobs[n] !in seen ==> Dealt(a.jobs[n], Lookup(mid, a.jobs[n]), a.info(n), done, Lookup(after, a.jobs[n]))
    requires a.jobs[n] in seen || (exists j :: 0 <= j < n && a.jobs[j] == a.jobs[n]) ==> after == mid
    ensures Answered(a, seen, done, before, after, n + 1)
  {
    hide Dealt;
    forall j: nat | j < n + 1 && IsFirst(a.jobs, j) && a.jobs[j] !in seen
      ensures Dealt(a.jobs[j], Lookup(before, a.jobs[j]), a.info(j), done, Lookup(after, a.jobs[j]))
    {
      if j == n {
        assert a.jobs[n] !in a.jobs[..n];
      }
    }
  }

  function Row(a: Active): StatusInfo {
    StatusInfo(a.ref, Downloading, a.offset, a.total)
  }

  /** An entry that a tick has dealt with. */
  predicate Fixed(e: Option<StatusInfo>, done: bool) {
    e.Some? && !e.value.status.Downloading? && (done ==> Settled(e.value.status))
  }

  class Tracker {
    const name: string
    var statuses: Table
    var done: bool
    /** Job keys passed to Info during the current tick, with the entry each had. */
    ghost var lookedUp: seq<Option<StatusInfo>>

    constructor (name: string)
      ensures this.name == name && statuses == map[] && !done
    {
      this.name := name;
      statuses, done := map[], false;
      lookedUp := [];
    }

    /** Enters the active transfers into the table. */
    method MarkActive(active: seq<Active>)
      modifies this`statuses
      ensures statuses == Marked(old(statuses), active)
    {
      for i := 0 to |active|
        invariant statuses == Marked(old(statuses), active[..i])
      {
        statuses := statuses[active[i].ref := Row(active[i])];
        assert active[..i + 1][..i] == active[..i];
      }
      assert active[..|active|] == active;
    }

    /** Updates the entry of one job that is not active; false if the tick has to be given up. */
    method Update(key: string, info: Info) returns (ok: bool)
      modifies this`statuses, this`lookedUp
      ensures forall k :: k != key ==> Lookup(statuses, k) == Lookup(old(statuses), k)
      ensures !ok ==> statuses == old(statuses) && !done && info.Failure? && MayLookUp(Lookup(statuses, key))
      ensures ok ==> Dealt(key, Lookup(old(statuses), key), info, done, Lookup(statuses, key))
      ensures ok ==> Fixed(Lookup(statuses, key), done)
      ensures Fixed(Lookup(old(statuses), key), done) ==> statuses == old(statuses)
      ensures MayMove({}, done, key, Lookup(old(statuses), key), Lookup(statuses, key))
      ensures var before := Lookup(old(statuses), key);
              lookedUp == old(lookedUp) + if !done && MayLookUp(before) then [before] else []
    {
      var known := key in statuses;
      if !done && (!known || statuses[key].status.Downloading?) {
        lookedUp := lookedUp + [Lookup(statuses, key)];
        match info
        case Failure => return false;
        case NotFound => statuses := statuses[key := StatusInfo(key, Waiting, 0, 0)];
        case Found(createdAfter, size) =>
          if createdAfter {
            statuses := statuses[key := StatusInfo(key, Finished, size, size)];
          } else {
            statuses := statuses[key := StatusInfo(key, Exists, 0, 0)];
          }
      } else if done {
        if known {
          if !Settled(statuses[key].status) {
            statuses := statuses[key := statuses[key].(status := Finished)];
          }
        } else {
          statuses := statuses[key := StatusInfo(key, Finished, 0, 0)];
        }
      }
      return true;
    }

    /** Brings the entries of all jobs that are not active up to date. */
    method UpdateJobs(a: Answers, activeSeen: set<string>) returns (ok: bool, ghost stop: nat)
      requires lookedUp == []
      modifies this`statuses, this`lookedUp
      ensures !ok ==> !done
      ensures forall k :: || Lookup(statuses, k) == Lookup(old(statuses), k)
                          || (&& k in a.jobs && k !in activeSeen
                              && MayMove({}, done, k, Lookup(old(statuses), k), Lookup(statuses, k)))
      ensures ok ==> Answered(a, activeSeen, done, old(statuses), statuses, |a.jobs|)
      ensures ok ==> forall k :: k in a.jobs ==> k in activeSeen || Fixed(Lookup(statuses, k), done)
      ensures ok && !done ==> forall j: nat :: !Fails(a, activeSeen, old(statuses), j)
      ensures !ok ==> StopsAt(a, activeSeen, old(statuses), statuses, stop)
      ensures forall i :: 0 <= i < |lookedUp| ==> MayLookUp(lookedUp[i])
      ensures done ==> lookedUp == []
    {
      hide Dealt;
      hide Answered;
      hide MayMove;
      hide MayLookUp;
      hide Fails;
      hide StopsAt;
      NoneAnswered(a, activeSeen, done, statuses);
      stop := 0;
      for i := 0 to |a.jobs|
        invariant forall k :: || Lookup(statuses, k) == Lookup(old(statuses), k)
                              || (&& k in a.jobs[..i] && k !in activeSeen && Fixed(Lookup(statuses, k), done)
                                  && MayMove({}, done, k, Lookup(old(statuses), k), Lookup(statuses, k)))
        invariant Answered(a, activeSeen, done, old(statuses), statuses, i)
        invariant forall j :: 0 <= j < i ==> a.jobs[j] in activeSeen || Fixed(Lookup(statuses, a.jobs[j]), done)
        invariant forall i :: 0 <= i < |lookedUp| ==> MayLookUp(lookedUp[i])
        invariant done ==> lookedUp == []
      {
        var key := a.jobs[i];
        ghost var mid := statuses;
        assert a.jobs[..i + 1] == a.jobs[..i] + [key];
        if key in activeSeen {
          AnsweredSnoc(a, activeSeen, done, old(statuses), mid, statuses, i);
          continue;
        }
        ok := Update(key, a.info(i));
        if !ok {
          Stopped(a, activeSeen, old(statuses), mid, i);
          stop := i;
          return;
        }
        AnsweredSnoc(a, activeSeen, done, old(statuses), mid, statuses, i);
      }
      if !done { NoneFails(a, activeSeen, old(statuses), statuses); }
      ok, stop := true, 0;
    }

    /** The rows of the given keys, in order. */
    method Ordered(keys: seq<string>) returns (ordered: seq<StatusInfo>)
      requires forall i :: 0 <= i < |keys| ==> keys[i] in statuses
      ensures |ordered| == |keys| && forall i :: 0 <= i < |keys| ==> ordered[i] == statuses[keys[i]]
    {
      ordered := [];
      for i := 0 to |keys|
        invariant |ordered| == i && forall j :: 0 <= j < i ==> ordered[j] == statuses[keys[j]]
      {
        ordered := ordered + [statuses[keys[i]]];
      }
    }

    /** One tick. */
    method Tick(a: Answers) returns (frame: Frame)
      modifies this`statuses, this`lookedUp
      ensures Moved(name, a, done, old(statuses), statuses)
      ensures forall i :: 0 <= i < |lookedUp| ==> MayLookUp(lookedUp[i])
      ensures done ==> lookedUp == []
      ensures Outcome(name, TickRecord(a, done, old(statuses), statuses), frame)
    {
      hide Dealt;
      hide Answered;
      hide Reported;
      hide Marked;
      hide Fails;
      hide StopsAt;
      hide Outcome;
      hide Moved;
      hide MayMove;
      lookedUp := [];
      statuses := statuses[name := ImageRow(name, a)];
      ghost var named := statuses;
      var activeSeen: set<string> := {};
      if !done {
        if a.active.None? {
          MovesAllowed(name, a, done, old(statuses), statuses, statuses);
          NotListed(name, TickRecord(a, done, old(statuses), statuses));
          return NoFrame;
        }
        MarkActive(a.active.value);
        MarkedReported(a, named);
        activeSeen := ActiveRefs(a.active.value);
      }
      ghost var marked := statuses;
      if done { DoneReports(a, marked); }
      ghost var stop: nat;
      var ok;
      ok, stop := UpdateJobs(a, activeSeen);
      MovesAllowed(name, a, done, old(statuses), marked, statuses);
      ReportsKept(a, done, marked, statuses);
      if !ok {
        GivenUp(name, TickRecord(a, done, old(statuses), statuses), marked, stop);
        return NoFrame;
      }
      var keys := [name] + a.jobs;
      forall i | 0 <= i < |keys| ensures keys[i] in statuses {
        assert Lookup(statuses, keys[i]).Some?;
      }
      var rows := Ordered(keys);
      AllShown(name, TickRecord(a, done, old(statuses), statuses), marked, rows);
      return Shown(rows);
    }

    /**
     The event loop, over ticks and notices of cancellation in any order. It
     ticks until the first tick after the first notice.
     */
    method ShowProgress(events: seq<Event>) returns (frames: seq<Frame>, finished: bool, ghost log: seq<TickRecord>)
      requires statuses == map[] && !done
      modifies this
      ensures finished <==> exists i, j :: 0 <= i < j < |events| && events[i].Cancelled? && events[j].Ticked?
      ensures AnswersOf(log) == Ticks(events, false) && |frames| == |log|
      ensures Chain(name, log) && forall i :: 0 <= i < |log| ==> Outcome(name, log[i], frames[i])
      ensures forall i :: 0 <= i < |log| ==> (log[i].done <==> finished && i == |log| - 1)
      ensures finished ==> |log| > 0 && frames[|log| - 1].Shown? && LastFrame(frames[|log| - 1].rows)
    {
      hide Outcome;
      hide Moved;
      hide Chain;
      hide Ticks;
      hide AnswersOf;
      frames, finished, log := [], false, [];
      ghost var notice := 0;
      NoTicks(name, events);
      for n := 0 to |events|
        invariant Chain(name, log) && |frames| == |log|
        invariant AnswersOf(log) + Ticks(events[n..], done) == Ticks(events, false)
        invariant statuses == if |log| == 0 then map[] else log[|log| - 1].after
        invariant done ==> notice < n && events[notice].Cancelled?
        invariant !done ==> forall i :: 0 <= i < n ==> events[i].Ticked?
        invariant done ==> forall i, j :: 0 <= i < j < n && events[i].Cancelled? ==> events[j].Cancelled?
        invariant forall i :: 0 <= i < |log| ==> Outcome(name, log[i], frames[i]) && !log[i].done
      {
        NextTicks(events, n, done);
        match events[n]
        case Cancelled =>
          if !done {
            notice := n;
          }
          done := true;
        case Ticked(a) =>
          ghost var before := statuses;
          var frame := Tick(a);
          frames := frames + [frame];
          ghost var r := TickRecord(a, done, before, statuses);
          ChainSnoc(name, log, r);
          log := log + [r];
          if done {
            finished := true;
            LastShown(name, r, frame);
            return;
          }
      }
      TicksOver(events);
    }
  }

  datatype Event = Ticked(answers: Answers) | Cancelled

  /** What a tick saw and did. */
  datatype TickRecord = TickRecord(answers: Answers, done: bool, before: Table, after: Table)

  /** What the ticks of a run get to see: all of them up to the first one after a notice. */
  function Ticks(events: seq<Event>, done: bool): seq<Answers> {
    if events == [] then []
    else
      match events[0]
      case Cancelled => Ticks(events[1..], true)
      case Ticked(a) => [a] + if done then [] else Ticks(events[1..], false)
  }

  function AnswersOf(log: seq<TickRecord>): seq<Answers> {
    seq(|log|, i requires 0 <= i < |log| => log[i].answers)
  }

  /**
   Everything a tick does. It gives up exactly if the pull is not done and the
   active list is an error or some job's lookup fails; otherwise its frame
   shows the image and every job, all settled once the pull is done.
   */
  ghost predicate Outcome(name: string, r: TickRecord, frame: Frame) {
    var a, seen, named := r.answers, Seen(r.answers, r.done), r.before[name := ImageRow(name, r.answers)];
    && Reported(a, r.done, r.after)
    && (forall k :: k !in seen && k !in a.jobs ==> Lookup(r.after, k) == Lookup(named, k))
    && match frame
       case Shown(rows) =>
         && IsFrame(rows, name, a, seen, r.after)
         && Answered(a, seen, r.done, named, r.after, |a.jobs|)
         && (if r.done then LastFrame(rows) else a.active.Some? && forall j: nat :: !Fails(a, seen, named, j))
       case NoFrame =>
         && !r.done
         && if a.active.None? then r.after == named else exists j: nat :: StopsAt(a, seen, named, r.after, j)
  }

  lemma MovesAllowed(name: string, a: Answers, done: bool, before: Table, marked: Table, after: Table)
    requires forall k :: k !in Seen(a, done) ==> Lookup(marked, k) == Lookup(before[name := ImageRow(name, a)], k)
    requires forall k :: k in Seen(a, done) ==> Lookup(marked, k).Some? && Lookup(marked, k).value.status.Downloading?
    requires forall k :: || Lookup(after, k) == Lookup(marked, k)
                         || (k !in Seen(a, done) && MayMove({}, done, k, Lookup(marked, k), Lookup(after, k)))
    ensures Moved(name, a, done, before, after)
  {
    forall k | k != name ensures MayMove(Seen(a, done), done, k, Lookup(before, k), Lookup(after, k)) {
      assert Lookup(before[name := ImageRow(name, a)], k) == Lookup(before, k);
    }
  }

  lemma LastShown(name: string, r: TickRecord, frame: Frame)
    requires Outcome(name, r, frame) && r.done
    ensures frame.Shown? && LastFrame(frame.rows)
  {
  }

  lemma NotListed(name: string, r: TickRecord)
    requires !r.done && r.answers.active.None? && r.after == r.before[name := ImageRow(name, r.answers)]
    ensures Outcome(name, r, NoFrame)
  {
  }

  lemma GivenUp(name: string, r: TickRecord, marked: Table, stop: nat)
    requires !r.done && r.answers.active.Some? && Reported(r.answers, r.done, r.after)
    requires var a, seen, named := r.answers, Seen(r.answers, r.done), r.before[name := ImageRow(name, r.answers)];
             && (forall k :: k !in seen ==> Lookup(marked, k) == Lookup(named, k))
             && (forall k :: k !in a.jobs ==> Lookup(r.after, k) == Lookup(marked, k))
             && StopsAt(a, seen, marked, r.after, stop)
    ensures Outcome(name, r, NoFrame)
  {
    hide Reported;
    hide StopsAt;
    var a, seen, named := r.answers, Seen(r.answers, r.done), r.before[name := ImageRow(name, r.answers)];
    StopsFrom(a, seen, named, marked, r.after, stop);
  }

  lemma AllShown(name: string, r: TickRecord, marked: Table, rows: seq<StatusInfo>)
    requires Reported(r.answers, r.done, r.after) && (r.done || r.answers.active.Some?)
    requires var a, seen, named := r.answers, Seen(r.answers, r.done), r.before[name := ImageRow(name, r.answers)];
             && (forall k :: k !in seen ==> Lookup(marked, k) == Lookup(named, k))
             && (forall k :: k !in a.jobs ==> Lookup(r.after, k) == Lookup(marked, k))
             && Answered(a, seen, r.done, marked, r.after, |a.jobs|)
             && forall k :: k in a.jobs ==> k in seen || Fixed(Lookup(r.after, k), r.done)
    requires |rows| == 1 + |r.answers.jobs|
    requires forall i :: 0 <= i < |rows| ==>
               Lookup(r.after, if i == 0 then name else r.answers.jobs[i - 1]) == Some(rows[i])
    ensures Outcome(name, r, Shown(rows))
  {
    hide Reported;
    hide Answered;
    hide Fails;
    var a, seen, named := r.answers, Seen(r.answers, r.done), r.before[name := ImageRow(name, r.answers)];
    AnsweredFrom(a, seen, r.done, named, marked, r.after);
    if r.done {
      forall j | 0 < j < |rows| ensures Settled(rows[j].status) {
        assert Fixed(Lookup(r.after, a.jobs[j - 1]), true);
      }
    } else {
      NoneFails(a, seen, named, r.after);
    }
  }

  // ---------------------------------------------- the rows of a frame, by field

  /**
   The image's row, unless the image is also a job or an active transfer:
   resolved or resolving, without progress.
   */
  lemma ImageRowFields(name: string, r: TickRecord, rows: seq<StatusInfo>)
    requires Outcome(name, r, Shown(rows))
    requires name !in r.answers.jobs
    requires r.done || forall i :: 0 <= i < |r.answers.active.value| ==> r.answers.active.value[i].ref != name
    ensures |rows| == 1 + |r.answers.jobs|
    ensures rows[0].ref == name && rows[0].offset == 0 && rows[0].total == 0
    ensures rows[0].status == if r.answers.resolved then Resolved else Resolving
  {
    hide Answered;
    hide Reported;
    hide Fails;
    hide Dealt;
    hide Lookup;
  }

  /** The row of an active job before cancellation: the offset and total last reported for it. */
  lemma ActiveRowFields(name: string, r: TickRecord, rows: seq<StatusInfo>, j: nat, i: nat)
    requires Outcome(name, r, Shown(rows)) && !r.done && j < |r.answers.jobs|
    requires i < |r.answers.active.value| && r.answers.active.value[i].ref == r.answers.jobs[j]
    requires forall n :: i < n < |r.answers.active.value| ==> r.answers.active.value[n].ref != r.answers.jobs[j]
    ensures var row, a := rows[j + 1], r.answers.active.value[i];
            row.ref == a.ref && row.status.Downloading? && row.offset == a.offset && row.total == a.total
  {
    hide Answered;
    hide Fails;
    hide Dealt;
    hide Lookup;
    assert IsLast(r.answers.active.value, i);
  }

  /** Before cancellation, the row of a job that is not active and was absent or downloading is the store's answer. */
  lemma LookedUpRowFields(name: string, r: TickRecord, rows: seq<StatusInfo>, j: nat)
    requires Outcome(name, r, Shown(rows)) && !r.done && j < |r.answers.jobs|
    requires var k := r.answers.jobs[j];
             && k != name && (forall n :: 0 <= n < j ==> r.answers.jobs[n] != k)
             && (forall i :: 0 <= i < |r.answers.active.value| ==> r.answers.active.value[i].ref != k)
             && (k !in r.before || r.before[k].status.Downloading?)
    ensures var row, info := rows[j + 1], r.answers.info(j);
            && row.ref == r.answers.jobs[j] && !info.Failure?
            && (row.status.Finished? <==> info.Found? && info.createdAfter)
            && (row.status.Finished? ==> row.offset == info.size && row.total == info.size)
            && (row.status.Exists? <==> info.Found? && !info.createdAfter)
            && (row.status.Waiting? <==> info.NotFound?)
            && (!row.status.Finished? ==> row.offset == 0 && row.total == 0)
  {
    hide Reported;
    hide Fails;
    var a, k := r.answers, r.answers.jobs[j];
    assert IsFirst(a.jobs, j) && k !in Seen(a, r.done);
    assert Lookup(r.before[name := ImageRow(name, a)], k) == Lookup(r.before, k);
    assert Dealt(k, Lookup(r.before, k), a.info(j), false, Lookup(r.after, k));
  }

  /** The row of such a job with any other status is kept. */
  lemma KeptRowFields(name: string, r: TickRecord, rows: seq<StatusInfo>, j: nat)
    requires Outcome(name, r, Shown(rows)) && !r.done && j < |r.answers.jobs|
    requires var k := r.answers.jobs[j];
             && k != name && (forall n :: 0 <= n < j ==> r.answers.jobs[n] != k)
             && (forall i :: 0 <= i < |r.answers.active.value| ==> r.answers.active.value[i].ref != k)
             && k in r.before && !r.before[k].status.Downloading?
    ensures rows[j + 1] == r.before[r.answers.jobs[j]]
  {
    hide Reported;
    hide Fails;
    var a, k := r.answers, r.answers.jobs[j];
    assert IsFirst(a.jobs, j) && k !in Seen(a, r.done);
    assert Lookup(r.before[name := ImageRow(name, a)], k) == Lookup(r.before, k);
    assert Dealt(k, Lookup(r.before, k), a.info(j), false, Lookup(r.after, k));
  }

  /** The last tick: an absent job is done without progress, an unsettled one is done and keeps its progress. */
  lemma LastRowFields(name: string, r: TickRecord, rows: seq<StatusInfo>, j: nat)
    requires Outcome(name, r, Shown(rows)) && r.done && j < |r.answers.jobs|
    requires var k := r.answers.jobs[j]; k != name && forall n :: 0 <= n < j ==> r.answers.jobs[n] != k
    ensures var k, row := r.answers.jobs[j], rows[j + 1];
            && (row.status.Finished? || row.status.Exists?)
            && (k !in r.before ==> row.ref == k && row.status.Finished? && row.offset == 0 && row.total == 0)
            && (k in r.before && (r.before[k].status.Finished? || r.before[k].status.Exists?) ==> row == r.before[k])
            && (k in r.before && !r.before[k].status.Finished? && !r.before[k].status.Exists? ==>
                  && row.status.Finished? && row.ref == r.before[k].ref
                  && row.offset == r.before[k].offset && row.total == r.before[k].total)
  {
    hide Reported;
    hide Fails;
    var a, k := r.answers, r.answers.jobs[j];
    assert IsFirst(a.jobs, j) && k !in Seen(a, r.done);
    assert Lookup(r.before[name := ImageRow(name, a)], k) == Lookup(r.before, k);
    assert Dealt(k, Lookup(r.before, k), a.info(j), true, Lookup(r.after, k));
  }

  /** No frame: the active list was an error, or so was the answer for a job that had to be looked up. */
  lemma NoFrameFields(name: string, r: TickRecord)
    requires Outcome(name, r, NoFrame)
    ensures !r.done
    ensures r.answers.active.None? || exists j: nat ::
              j < |r.answers.jobs| && NeedsLookup(r, j) && r.answers.info(j).Failure?
  {
    hide Answered;
    hide Reported;
    var a := r.answers;
    if a.active.Some? {
      var named := r.before[name := ImageRow(name, a)];
      var j: nat :| StopsAt(a, Seen(a, r.done), named, r.after, j);
      assert Fails(a, Seen(a, r.done), named, j);
      assert forall i :: 0 <= i < |a.active.value| ==> a.active.value[i].ref in Seen(a, r.done);
      assert a.jobs[j] == name || Lookup(named, a.jobs[j]) == Lookup(r.before, a.jobs[j]);
    }
  }

  /** The job is not active, and its entry is absent or downloading (the image's own entry is neither). */
  ghost predicate NeedsLookup(r: TickRecord, j: nat)
    requires r.answers.active.Some? && j < |r.answers.jobs|
  {
    var k := r.answers.jobs[j];
    && (forall i :: 0 <= i < |r.answers.active.value| ==> r.answers.active.value[i].ref != k)
    && (k !in r.before || r.before[k].status.Downloading?)
  }

  /** A run gets to see one more tick exactly if none has followed a notice of cancellation yet. */
  lemma {:induction false} TicksSnoc(events: seq<Event>, e: Event, done: bool)
    ensures Ticks([], done) == []
    ensures Ticks(events + [e], done) ==
            Ticks(events, done)
            + if e.Ticked? && !Over(events, done) then [e.answers] else []
    decreases |events|
  {
    var all := events + [e];
    if events == [] {
      assert all[0] == e && all[1..] == [];
    } else {
      assert all[0] == events[0] && all[1..] == events[1..] + [e];
      TicksSnoc(events[1..], e, done || events[0].Cancelled?);
      OverTail(events, done);
    }
  }

  /** A tick has come after a notice, or after a start that is already cancelled. */
  ghost predicate Over(events: seq<Event>, done: bool) {
    exists j :: 0 <= j < |events| && events[j].Ticked? && (done || exists i :: 0 <= i < j && events[i].Cancelled?)
  }

  lemma OverTail(events: seq<Event>, done: bool)
    requires events != []
    ensures Over(events, done) <==> (events[0].Ticked? && done) || Over(events[1..], done || events[0].Cancelled?)
  {
    var rest := events[1..];
    if Over(events, done) {
      var j :| 0 <= j < |events| && events[j].Ticked? && (done || exists i :: 0 <= i < j && events[i].Cancelled?);
      if j > 0 {
        assert rest[j - 1].Ticked?;
        if !done && !events[0].Cancelled? {
          var i :| 0 <= i < j && events[i].Cancelled?;
          assert rest[i - 1].Cancelled?;
        }
      }
    }
    if Over(rest, done || events[0].Cancelled?) {
      var j :| 0 <= j < |rest| && rest[j].Ticked?
               && ((done || events[0].Cancelled?) || exists i :: 0 <= i < j && rest[i].Cancelled?);
      assert events[j + 1].Ticked?;
      if !done && !events[0].Cancelled? {
        var i :| 0 <= i < j && rest[i].Cancelled?;
        assert events[i + 1].Cancelled?;
      }
    }
  }

  /** Successive ticks of one run, each moving entries only as MayMove allows. */
  ghost predicate Chain(name: string, log: seq<TickRecord>) {
    && (|log| > 0 ==> log[0].before == map[])
    && (forall i :: 0 < i < |log| ==> log[i].before == log[i - 1].after)
    && (forall i :: 0 <= i < |log| ==> Moved(name, log[i].answers, log[i].done, log[i].before, log[i].after))
  }

  lemma ChainSnoc(name: string, log: seq<TickRecord>, r: TickRecord)
    requires Chain(name, log) && Moved(name, r.answers, r.done, r.before, r.after)
    requires r.before == if |log| == 0 then map[] else log[|log| - 1].after
    ensures Chain(name, log + [r]) && AnswersOf(log + [r]) == AnswersOf(log) + [r.answers]
  {
    hide Moved;
  }

  lemma NoTicks(name: string, events: seq<Event>)
    ensures Chain(name, []) && AnswersOf([]) + Ticks(events[0..], false) == Ticks(events, false)
  {
    assert events[0..] == events;
  }

  lemma NextTicks(events: seq<Event>, n: nat, done: bool)
    requires n < |events|
    ensures Ticks(events[n..], done) ==
            match events[n]
            case Cancelled => Ticks(events[n + 1..], true)
            case Ticked(a) => [a] + if done then [] else Ticks(events[n + 1..], false)
  {
    assert events[n..][0] == events[n] && events[n..][1..] == events[n + 1..];
  }

  lemma TicksOver(events: seq<Event>)
    ensures forall done :: Ticks(events[|events|..], done) == []
  {
  }

  /** Every job row says done or exists. */
  predicate LastFrame(rows: seq<StatusInfo>) {
    forall j :: 0 < j < |rows| ==> Settled(rows[j].status)
  }

  /**
   Over whole runs: once a job is waiting, done or existing, its row stays as
   it is until the job shows up in the active list, or, for a waiting job,
   until the pull is done.
   */
  lemma {:induction false} RowStays(name: string, log: seq<TickRecord>, k: string, i: nat, j: nat)
    requires Chain(name, log) && k != name && i <= j < |log|
    requires var e := Lookup(log[i].after, k); e.Some? && (e.value.status.Waiting? || Settled(e.value.status))
    requires forall t :: i < t <= j ==> k !in Seen(log[t].answers, log[t].done)
    requires Settled(log[i].after[k].status) || forall t :: i < t <= j ==> !log[t].done
    ensures Lookup(log[j].after, k) == Lookup(log[i].after, k)
  {
    if i < j {
      RowStays(name, log, k, i, j - 1);
      assert Moved(name, log[j].answers, log[j].done, log[j].before, log[j].after);
      var t := log[j];
      assert MayMove(Seen(t.answers, t.done), t.done, k, Lookup(t.before, k), Lookup(t.after, k));
    }
  }

  /** The image's row, then one row for each job in order, every one of them from the table. */
  ghost predicate IsFrame(rows: seq<StatusInfo>, name: string, a: Answers, seen: set<string>, statuses: Table) {
    && |rows| == 1 + |a.jobs|
    && Lookup(statuses, name) == Some(rows[0])
    && (name !in a.jobs && name !in seen ==> rows[0] == ImageRow(name, a))
    && forall j :: 0 < j < |rows| ==> Lookup(statuses, a.jobs[j - 1]) == Some(rows[j])
  }
}
