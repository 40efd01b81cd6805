/**
 The containerd runtime's RunDebugContainer: acquisitions, the calls around
 them and defer statements, under every combination of failing and panicking
 calls. Between creating the container and deferring its deletion the program
 makes one more call, which labels the container.
 */
module DebugContainer {
  import opened Common

  datatype Resource = Client | Fifo | Container | Task

  datatype Event = Acquire(r: Resource) | Release(r: Resource)

  datatype Call = Succeeds | Fails | Panics

  /** What a constructor call gives back: an object or nil, and how it ends. */
  datatype Made = Made(some: bool, call: Call)

  /** One outcome for every external call on the way; uuid: whether a random UUID can be made. */
  datatype Faults = Faults(
    uuid: bool, mkdir: Call, mkfifo: Call, info: Call, container: Made, labels: Call, task: Made, wait: Call,
    start: Call, status: Call)

  datatype Outcome = Ok | Err | Panic

  /** How a run ends: with the first call that stops it, in the order of the program. */
  function EndOf(audit: bool, f: Faults): Outcome {
    if !f.uuid then Panic
    else if audit && !f.mkdir.Succeeds? then OutcomeOf(f.mkdir)
    else if audit && !f.mkfifo.Succeeds? then OutcomeOf(f.mkfifo)
    else if !f.info.Succeeds? then OutcomeOf(f.info)
    else if f.container.call.Panics? || (f.container.some && f.labels.Panics?) then Panic
    else if f.container.call.Fails? then Err
    else if !f.container.some || f.task.call.Panics? then Panic
    else if f.task.call.Fails? then Err
    else if !f.task.some then Panic
    else if !f.wait.Succeeds? then OutcomeOf(f.wait)
    else if !f.start.Succeeds? then OutcomeOf(f.start)
    else OutcomeOf(f.status)
  }

  function OutcomeOf(c: Call): Outcome {
    match c case Succeeds => Ok case Fails => Err case Panics => Panic
  }

  predicate GotFifo(audit: bool, f: Faults) {
    f.uuid && audit && f.mkdir.Succeeds? && f.mkfifo.Succeeds?
  }

  /** The run gets as far as creating the container. */
  predicate Reaches(audit: bool, f: Faults) {
    f.uuid && (audit ==> GotFifo(audit, f)) && f.info.Succeeds?
  }

  predicate GotContainer(audit: bool, f: Faults) {
    Reaches(audit, f) && f.container.some && !f.container.call.Panics?
  }

  predicate GotTask(audit: bool, f: Faults) {
    && GotContainer(audit, f) && !f.labels.Panics? && f.container.call.Succeeds?
    && f.task.some && !f.task.call.Panics?
  }

  /** A panic while labelling the container unwinds before its deletion is deferred. */
  predicate LabelsPanic(audit: bool, f: Faults) {
    GotContainer(audit, f) && f.labels.Panics?
  }

  /** What is acquired before the container is created. */
  function Before(audit: bool, f: Faults): (held: seq<Resource>)
    ensures Distinct(held) && held != []
    ensures Container !in held && Task !in held
  {
    if GotFifo(audit, f) then [Client, Fifo] else [Client]
  }

  /** What gets acquired: an object counts as acquired even when its constructor also reports an error. */
  function Held(audit: bool, f: Faults): (held: seq<Resource>)
    ensures Distinct(held)
  {
    if GotTask(audit, f) then Before(audit, f) + [Container] + [Task]
    else if GotContainer(audit, f) then Before(audit, f) + [Container]
    else Before(audit, f)
  }

  /** What gets its release deferred. */
  function Deferred(audit: bool, f: Faults): seq<Resource> {
    if LabelsPanic(audit, f) then Before(audit, f) else Held(audit, f)
  }

  function Acquires(held: seq<Resource>): seq<Event> {
    if held == [] then [] else Acquires(held[..|held| - 1]) + [Acquire(held[|held| - 1])]
  }

  /** Releases in reverse order. */
  function Releases(deferred: seq<Resource>): seq<Event> {
    if deferred == [] then []
    else [Release(deferred[|deferred| - 1])] + Releases(deferred[..|deferred| - 1])
  }

  /** The resources still held after a trace, innermost last; None if something is released out of turn. */
  function Replay(trace: seq<Event>): Option<seq<Resource>> {
    if trace == [] then Some([])
    else ReplayOne(Replay(trace[..|trace| - 1]), trace[|trace| - 1])
  }

  function ReplayOne(before: Option<seq<Resource>>, e: Event): Option<seq<Resource>> {
    if before.None? then None
    else if e.Acquire? then Some(before.value + [e.r])
    else
      var top := |before.value| - 1;
      if top >= 0 && before.value[top] == e.r then Some(before.value[..top]) else None
  }

  lemma ReplaySnoc(t: seq<Event>, e: Event)
    ensures Replay(t + [e]) == ReplayOne(Replay(t), e)
  {
  }

  /** In every bracket word, what was acquired and not released is what is still held. */
  lemma {:induction false} ReplayCounts(trace: seq<Event>, r: Resource)
    requires Replay(trace).Some?
    ensures Count(trace, Acquire(r)) == Count(trace, Release(r)) + Count(Replay(trace).value, r)
  {
    if trace != [] {
      var front, last := trace[..|trace| - 1], trace[|trace| - 1];
      ReplayCounts(front, r);
      HeldCount(Replay(front).value, last, r);
      hide ReplayOne;
    }
  }

  lemma HeldCount(held: seq<Resource>, e: Event, r: Resource)
    ensures var after := ReplayOne(Some(held), e);
            after.Some? ==>
              Count(after.value, r) ==
              Count(held, r) + (if e == Acquire(r) then 1 else 0) - if e == Release(r) then 1 else 0
  {
    if e.Acquire? {
      CountSnoc(held, e.r, r);
    } else if ReplayOne(Some(held), e).Some? {
      var after := held[..|held| - 1];
      assert held == after + [e.r];
      CountSnoc(after, e.r, r);
    }
  }

  lemma {:induction false} ReplayAcquires(held: seq<Resource>)
    ensures Replay(Acquires(held)) == Some(held)
  {
    if held != [] {
      var front, last := held[..|held| - 1], held[|held| - 1];
      ReplayAcquires(front);
      ReplaySnoc(Acquires(front), Acquire(last));
      assert front + [last] == held;
    }
  }

  lemma ReleaseInnermost(t: seq<Event>, others: seq<Resource>, r: Resource)
    requires Replay(t) == Some(others + [r])
    ensures Replay(t + [Release(r)]) == Some(others)
  {
    ReplaySnoc(t, Release(r));
    hide Replay;
    assert (others + [r])[..|others|] == others;
  }

  lemma ReleasesSnoc(front: seq<Resource>, last: Resource)
    ensures Releases(front + [last]) == [Release(last)] + Releases(front)
  {
    assert (front + [last])[..|front|] == front;
  }

  /** Releasing the innermost resources in reverse order leaves the others. */
  lemma {:induction false} ReplayReleases(t: seq<Event>, others: seq<Resource>, deferred: seq<Resource>)
    requires Replay(t) == Some(others + deferred)
    ensures Replay(t + Releases(deferred)) == Some(others)
    decreases |deferred|
  {
    hide Replay;
    if deferred == [] {
      assert others + [] == others && t + [] == t;
    } else {
      hide Releases;
      var front, last := deferred[..|deferred| - 1], deferred[|deferred| - 1];
      assert deferred == front + [last] && others + deferred == others + front + [last];
      ReleaseInnermost(t, others + front, last);
      ReplayReleases(t + [Release(last)], others, front);
      ReleasesSnoc(front, last);
      assert t + Releases(deferred) == t + [Release(last)] + Releases(front);
    }
  }

  /** A trace that once released something out of turn stays out of turn. */
  lemma {:induction false} ReplayStuck(t: seq<Event>, s: seq<Event>)
    requires Replay(t).None?
    ensures Replay(t + s).None?
  {
    if s == [] {
      assert t + s == t;
    } else {
      ReplayStuck(t, s[..|s| - 1]);
      ReplaySnoc(t + s[..|s| - 1], s[|s| - 1]);
      assert t + s[..|s| - 1] + [s[|s| - 1]] == t + s;
    }
  }

  lemma {:induction false} CountDistinct<T>(s: seq<T>, x: T)
    requires Distinct(s)
    ensures Count(s, x) == if x in s then 1 else 0
  {
    if s != [] {
      CountDistinct(s[..|s| - 1], x);
    }
  }

  lemma {:induction false} CountAcquires(s: seq<Resource>, r: Resource)
    ensures Count(Acquires(s), Acquire(r)) == Count(s, r) && Count(Acquires(s), Release(r)) == 0
  {
    if s != [] {
      var front, last := s[..|s| - 1], s[|s| - 1];
      CountAcquires(front, r);
      CountSnoc(Acquires(front), Acquire(last), Acquire(r));
      CountSnoc(Acquires(front), Acquire(last), Release(r));
    }
  }

  lemma {:induction false} CountReleases(s: seq<Resource>, r: Resource)
    ensures Count(Releases(s), Release(r)) == Count(s, r) && Count(Releases(s), Acquire(r)) == 0
  {
    if s != [] {
      var front, last := s[..|s| - 1], s[|s| - 1];
      CountReleases(front, r);
      CountConcat([Release(last)], Releases(front), Release(r));
      CountConcat([Release(last)], Releases(front), Acquire(r));
      CountOne(Release(last), Release(r));
      CountOne(Release(last), Acquire(r));
      hide Count;
      assert Count(s, r) == Count(front, r) + if last == r then 1 else 0 by {
        CountSnoc(front, last, r);
        assert front + [last] == s;
      }
    }
  }

  /** Everything that a run acquires and releases. */
  function TraceOf(audit: bool, f: Faults): seq<Event> {
    Acquires(Held(audit, f)) + Releases(Deferred(audit, f))
  }

  lemma ReleaseOuter(t: seq<Event>, held: seq<Resource>, r: Resource)
    requires Replay(t) == Some(held) && held != [] && held[|held| - 1] != r
    ensures Replay(t + [Release(r)]).None?
  {
    ReplaySnoc(t, Release(r));
  }

  /** Skipping the innermost of the resources held releases the next one out of turn. */
  lemma {:induction false} SkippedIsOutOfTurn(deferred: seq<Resource>, skipped: Resource)
    requires deferred != [] && deferred[|deferred| - 1] != skipped
    ensures Replay(Acquires(deferred + [skipped]) + Releases(deferred)).None?
  {
    hide *;
    var held := deferred + [skipped];
    var front, last := deferred[..|deferred| - 1], deferred[|deferred| - 1];
    var t := Acquires(held) + [Release(last)];
    ReplayAcquires(held);
    ReleaseOuter(Acquires(held), held, last);
    ReplayStuck(t, Releases(front));
    assert deferred == front + [last];
    ReleasesSnoc(front, last);
    assert t + Releases(front) == Acquires(held) + Releases(deferred);
  }

  /** A run is a balanced bracket word exactly unless labelling a container panics. */
  lemma BalancedExactly(audit: bool, f: Faults)
    ensures Replay(TraceOf(audit, f)) == Some([]) <==> !LabelsPanic(audit, f)
  {
    var held, deferred := Held(audit, f), Deferred(audit, f);
    hide Replay;
    hide Acquires;
    hide Releases;
    if LabelsPanic(audit, f) {
      assert deferred[|deferred| - 1] in deferred;
      SkippedIsOutOfTurn(deferred, Container);
    } else {
      hide Held;
      ReplayAcquires(held);
      assert [] + held == held;
      ReplayReleases(Acquires(held), [], held);
    }
  }

  lemma DeferredIs(audit: bool, f: Faults, r: Resource)
    ensures Distinct(Deferred(audit, f))
    ensures r in Deferred(audit, f) <==> r in Held(audit, f) && !(r == Container && LabelsPanic(audit, f))
  {
    hide Before;
    hide Reaches;
  }

  lemma TraceIs(audit: bool, f: Faults)
    ensures TraceOf(audit, f) == Acquires(Held(audit, f)) + Releases(Deferred(audit, f))
  {
  }

  /**
   What is acquired is acquired once and released once, and nothing else is
   touched, except that a container whose labelling panics is never released.
   */
  lemma ReleasedOnce(audit: bool, f: Faults, r: Resource)
    ensures var t, held := TraceOf(audit, f), r in Held(audit, f);
            && Count(t, Acquire(r)) == (if held then 1 else 0)
            && Count(t, Release(r)) == if held && !(r == Container && LabelsPanic(audit, f)) then 1 else 0
  {
    hide *;
    var held, deferred := Held(audit, f), Deferred(audit, f);
    DeferredIs(audit, f, r);
    assert TraceOf(audit, f) == Acquires(held) + Releases(deferred) by { TraceIs(audit, f); }
    CountAcquires(held, r);
    CountReleases(deferred, r);
    CountDistinct(held, r);
    CountDistinct(deferred, r);
    CountConcat(Acquires(held), Releases(deferred), Acquire(r));
    CountConcat(Acquires(held), Releases(deferred), Release(r));
  }

  lemma AcquiresSnoc(front: seq<Resource>, last: Resource)
    ensures Acquires(front + [last]) == Acquires(front) + [Acquire(last)]
  {
    assert (front + [last])[..|front|] == front;
  }

  lemma NoResources()
    ensures Acquires([]) == [] && Releases([]) == []
  {
  }

  /** Two resources are acquired, and only the first is released. */
  lemma TwoForOne(a: Resource, b: Resource)
    ensures Acquires([a, b]) + Releases([a]) == [Acquire(a), Acquire(b), Release(a)]
  {
    hide *;
    NoResources();
    AcquiresSnoc([], a);
    AcquiresSnoc([a], b);
    ReleasesSnoc([], a);
    assert [] + [a] == [a] && [a] + [b] == [a, b];
  }

  // ------------------------------------------------ by the outcome of each call

  /** When each resource is acquired and when it is released. */
  lemma TraceFields(audit: bool, f: Faults)
    ensures var t := TraceOf(audit, f);
            var fifo := audit && f.uuid && f.mkdir == Succeeds && f.mkfifo == Succeeds;
            var container := && f.uuid && (audit ==> f.mkdir == Succeeds && f.mkfifo == Succeeds) && f.info == Succeeds
                             && f.container.some && f.container.call != Panics;
            var task := && container && f.container.call == Succeeds && f.labels != Panics
                        && f.task.some && f.task.call != Panics;
            && Count(t, Acquire(Client)) == 1 && Count(t, Release(Client)) == 1
            && Count(t, Acquire(Fifo)) == Count(t, Release(Fifo)) == (if fifo then 1 else 0)
            && Count(t, Acquire(Container)) == (if container then 1 else 0)
            && Count(t, Release(Container)) == (if container && f.labels != Panics then 1 else 0)
            && Count(t, Acquire(Task)) == Count(t, Release(Task)) == if task then 1 else 0
  {
    ReleasedOnce(audit, f, Client);
    ReleasedOnce(audit, f, Fifo);
    ReleasedOnce(audit, f, Container);
    ReleasedOnce(audit, f, Task);
    hide Count;
    hide TraceOf;
  }

  /** The order in which the program acquires. */
  function Age(r: Resource): nat {
    match r case Client => 0 case Fifo => 1 case Container => 2 case Task => 3
  }

  /** Oldest first when acquiring, youngest first when releasing, and all releases at the end. */
  ghost predicate InOrder(t: seq<Event>) {
    forall i, j :: 0 <= i < j < |t| ==>
      && (t[i].Acquire? && t[j].Acquire? ==> Age(t[i].r) < Age(t[j].r))
      && (t[i].Release? ==> t[j].Release? && Age(t[i].r) > Age(t[j].r))
  }

  lemma {:induction false} AcquiresAt(s: seq<Resource>)
    ensures |Acquires(s)| == |s| && forall i :: 0 <= i < |s| ==> Acquires(s)[i] == Acquire(s[i])
  {
    if s != [] {
      AcquiresAt(s[..|s| - 1]);
    }
  }

  lemma {:induction false} ReleasesAt(s: seq<Resource>)
    ensures |Releases(s)| == |s| && forall i :: 0 <= i < |s| ==> Releases(s)[i] == Release(s[|s| - 1 - i])
  {
    if s != [] {
      ReleasesAt(s[..|s| - 1]);
    }
  }

  lemma HeldByAge(audit: bool, f: Faults)
    ensures forall i, j :: 0 <= i < j < |Held(audit, f)| ==> Age(Held(audit, f)[i]) < Age(Held(audit, f)[j])
    ensures forall i, j :: 0 <= i < j < |Deferred(audit, f)| ==> Age(Deferred(audit, f)[i]) < Age(Deferred(audit, f)[j])
  {
  }

  lemma TraceInOrder(audit: bool, f: Faults)
    ensures InOrder(TraceOf(audit, f))
  {
    HeldByAge(audit, f);
    AcquiresAt(Held(audit, f));
    ReleasesAt(Deferred(audit, f));
    hide Held;
    hide Deferred;
    hide Acquires;
    hide Releases;
    hide Age;
  }

  /** When a run succeeds, and when it panics. */
  lemma EndFields(audit: bool, f: Faults)
    ensures var ready := f.uuid && (audit ==> f.mkdir == Succeeds && f.mkfifo == Succeeds);
            var made := ready && f.info == Succeeds && f.container == Made(true, Succeeds) && f.labels != Panics;
            var tasked := made && f.task == Made(true, Succeeds);
            && (EndOf(audit, f) == Ok <==> tasked && f.wait == Succeeds && f.start == Succeeds && f.status == Succeeds)
            && (EndOf(audit, f) == Panic <==>
                  || !f.uuid
                  || (audit && (f.mkdir == Panics || (f.mkdir == Succeeds && f.mkfifo == Panics)))
                  || (ready && f.info == Panics)
                  || (ready && f.info == Succeeds && f.container.call == Panics)
                  || (ready && f.info == Succeeds && f.container.some && f.labels == Panics)
                  || (ready && f.info == Succeeds && f.container == Made(false, Succeeds))
                  || (made && (f.task.call == Panics || f.task == Made(false, Succeeds)))
                  || (tasked && (f.wait == Panics || (f.wait == Succeeds && f.start == Panics)))
                  || (tasked && f.wait == Succeeds && f.start == Succeeds && f.status == Panics))
  {
  }

  /** Everything succeeds but the labelling call: the container stays behind. */
  lemma LabelsPanicExample()
    ensures var f := Faults(true, Succeeds, Succeeds, Succeeds, Made(true, Succeeds), Panics, Made(true, Succeeds),
                            Succeeds, Succeeds, Succeeds);
            && TraceOf(false, f) == [Acquire(Client), Acquire(Container), Release(Client)]
            && Replay(TraceOf(false, f)) != Some([])
  {
    hide Replay;
    hide Acquires;
    hide Releases;
    var f := Faults(true, Succeeds, Succeeds, Succeeds, Made(true, Succeeds), Panics, Made(true, Succeeds),
                    Succeeds, Succeeds, Succeeds);
    assert Held(false, f) == [Client, Container] && Deferred(false, f) == [Client];
    TwoForOne(Client, Container);
    BalancedExactly(false, f);
  }

  class Runtime {
    var trace: seq<Event>
    /** The functions deferred so far, one for each resource. */
    var defers: seq<Resource>

    constructor ()
      ensures trace == [] && defers == []
    {
      trace, defers := [], [];
    }

    method Obtain(r: Resource, ghost held: seq<Resource>)
      requires trace == Acquires(held)
      modifies this`trace
      ensures trace == Acquires(held + [r])
    {
      assert (held + [r])[..|held|] == held;
      trace := trace + [Acquire(r)];
    }

    method Defer(r: Resource)
      modifies this`defers
      ensures defers == old(defers) + [r]
    {
      defers := defers + [r];
    }

    /** Up to the creation of the container; None if the body goes on. The client has been made before it begins. */
    method Begin(audit: bool, f: Faults) returns (early: Option<Outcome>)
      requires trace == [] && defers == []
      modifies this
      ensures trace == Acquires(defers) && defers == Before(audit, f)
      ensures early.Some? ==> early.value == EndOf(audit, f)
      ensures early.None? <==> Reaches(audit, f)
    {
      ghost var held: seq<Resource> := [];
      assert trace == Acquires(held);
      hide Acquires;
      Obtain(Client, held);
      Defer(Client);
      if !f.uuid {
        return Some(Panic);
      }
      if audit {
        if !f.mkdir.Succeeds? {
          return Some(OutcomeOf(f.mkdir));
        }
        if !f.mkfifo.Succeeds? {
          return Some(OutcomeOf(f.mkfifo));
        }
        Obtain(Fifo, defers);
        Defer(Fifo);
      }
      if !f.info.Succeeds? {
        return Some(OutcomeOf(f.info));
      }
      return None;
    }

    /** The body up to a return or panic. */
    method Body(audit: bool, f: Faults) returns (outcome: Outcome)
      requires trace == [] && defers == []
      modifies this
      ensures trace == Acquires(Held(audit, f)) && defers == Deferred(audit, f)
      ensures outcome == EndOf(audit, f)
    {
      hide Acquires;
      hide Before;
      var early := Begin(audit, f);
      if early.Some? {
        return early.value;
      }
      if f.container.call.Panics? {
        return Panic;
      }
      if f.container.some {
        Obtain(Container, defers);
        if f.labels.Panics? {
          return Panic;
        }
        Defer(Container);
      }
      if f.container.call.Fails? {
        return Err;
      }
      if !f.container.some {
        // NewTask on a nil container
        return Panic;
      }
      if f.task.call.Panics? {
        return Panic;
      }
      if f.task.some {
        Obtain(Task, defers);
        Defer(Task);
      }
      if f.task.call.Fails? {
        return Err;
      }
      if !f.task.some {
        return Panic;
      }
      if !f.wait.Succeeds? {
        return OutcomeOf(f.wait);
      }
      if !f.start.Succeeds? {
        return OutcomeOf(f.start);
      }
      return OutcomeOf(f.status);
    }

    /** Runs the body, then the deferred functions, last deferred first. */
    method RunDebugContainer(audit: bool, f: Faults) returns (outcome: Outcome)
      requires trace == [] && defers == []
      modifies this
      ensures defers == [] && trace == TraceOf(audit, f)
      ensures outcome == EndOf(audit, f)
      ensures Replay(trace) == Some([]) <==> !LabelsPanic(audit, f)
    {
      hide Held;
      hide Deferred;
      hide Replay;
      outcome := Body(audit, f);
      BalancedExactly(audit, f);
      while defers != []
        invariant trace + Releases(defers) == TraceOf(audit, f)
        decreases |defers|
      {
        var r := defers[|defers| - 1];
        defers := defers[..|defers| - 1];
        trace := trace + [Release(r)];
      }
    }
  }
}
