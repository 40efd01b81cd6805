/**
 holdHijackedConnection: the output copier, the stdin copier and the main
 goroutine over an unbuffered error channel and a channel closed at the end of
 stdin, in every interleaving.
 */
module HijackedConnection {
  import opened Common

  type Error = Option<string>

  /** The copier of the container's output; Absent if there is neither stdout nor stderr. */
  datatype Copier = Absent | Copying | Sending(err: Error) | Sent(was: Error)

  datatype Main = Selecting | Awaiting | Returned(result: Error)

  datatype State = State(copier: Copier, stdinDone: bool, main: Main)

  datatype Step = CopierEnds(err: Error) | StdinEnds | Receive | StdinSeen

  function Init(hasOutput: bool): State {
    State(if hasOutput then Copying else Absent, false, Selecting)
  }

  predicate Enabled(s: State, a: Step) {
    match a
    case CopierEnds(_) => s.copier.Copying?
    case StdinEnds => !s.stdinDone
    case Receive => s.copier.Sending? && !s.main.Returned?
    case StdinSeen => s.main.Selecting? && s.stdinDone
  }

  function Do(s: State, a: Step): State
    requires Enabled(s, a)
  {
    match a
    case CopierEnds(e) => s.(copier := Sending(e))
    case StdinEnds => s.(stdinDone := true)
    case Receive => s.(copier := Sent(s.copier.err), main := Returned(s.copier.err))
    case StdinSeen => s.(main := if s.copier.Absent? then Returned(None) else Awaiting)
  }

  /** The state after a schedule, None if some step of it is not enabled. */
  function After(s: State, steps: seq<Step>): Option<State> {
    if steps == [] then Some(s)
    else
      var before := After(s, steps[..|steps| - 1]);
      if before.Some? && Enabled(before.value, steps[|steps| - 1]) then Some(Do(before.value, steps[|steps| - 1]))
      else None
  }

  ghost predicate Inv(hasOutput: bool, s: State) {
    && (s.copier.Absent? <==> !hasOutput)
    && (s.copier.Sent? <==> hasOutput && s.main.Returned?)
    && (s.main.Returned? ==> s.main.result == if hasOutput then s.copier.was else None)
    && (s.main.Awaiting? ==> hasOutput && s.stdinDone)
    && (s.main.Returned? && !hasOutput ==> s.stdinDone)
  }

  lemma {:induction false} Reached(hasOutput: bool, steps: seq<Step>)
    ensures var s := After(Init(hasOutput), steps);
            s.Some? ==> Inv(hasOutput, s.value)
  {
    if steps != [] {
      Reached(hasOutput, steps[..|steps| - 1]);
    }
  }

  /** The error a schedule makes the copier end with. */
  function CopierError(steps: seq<Step>): Option<Error> {
    if steps == [] then None
    else if steps[|steps| - 1].CopierEnds? then Some(steps[|steps| - 1].err)
    else CopierError(steps[..|steps| - 1])
  }

  lemma {:induction false} CopierKeepsError(hasOutput: bool, steps: seq<Step>)
    ensures var s := After(Init(hasOutput), steps);
            s.Some? ==> CopierError(steps) ==
                        if s.value.copier.Sending? then Some(s.value.copier.err)
                        else if s.value.copier.Sent? then Some(s.value.copier.was) else None
  {
    if steps != [] {
      CopierKeepsError(hasOutput, steps[..|steps| - 1]);
    }
  }

  /**
   Schedule independence: whatever the interleaving, the result is the output
   copier's error if there is an output stream; otherwise it is nil, and only
   after stdin has ended.
   */
  lemma ResultIsCopiersError(hasOutput: bool, steps: seq<Step>)
    ensures var s := After(Init(hasOutput), steps);
            s.Some? && s.value.main.Returned? ==>
              if hasOutput then CopierError(steps) == Some(s.value.main.result)
              else s.value.main.result == None && s.value.stdinDone
  {
    Reached(hasOutput, steps);
    CopierKeepsError(hasOutput, steps);
  }

  /** The copier's one send never blocks for good: while it is pending, main is there to receive, and then returns. */
  lemma SendIsReceived(hasOutput: bool, steps: seq<Step>)
    ensures var s := After(Init(hasOutput), steps);
            s.Some? && s.value.copier.Sending? ==>
              Enabled(s.value, Receive) && Do(s.value, Receive).main == Returned(s.value.copier.err)
  {
    Reached(hasOutput, steps);
  }

  /**
   What can happen next: each copier ends when it likes, main takes whichever
   of the two it can see, and once it knows that stdin is done it waits for the
   output copier if there is one.
   */
  lemma NextSteps(hasOutput: bool, steps: seq<Step>, err: Error)
    ensures var r := After(Init(hasOutput), steps);
            r.Some? ==>
              var s := r.value;
              && (s.copier.Copying? ==>
                    Enabled(s, CopierEnds(err)) && Do(s, CopierEnds(err)).copier == Sending(err))
              && (!s.stdinDone ==> Enabled(s, StdinEnds) && Do(s, StdinEnds).stdinDone)
              && (s.copier.Sending? ==> Enabled(s, Receive))
              && (s.main.Selecting? && s.stdinDone ==>
                    && Enabled(s, StdinSeen)
                    && Do(s, StdinSeen).main == if hasOutput then Awaiting else Returned(None))
              && (hasOutput && s.main.Awaiting? && s.copier.Copying? ==> !Enabled(s, Receive) && !Enabled(s, StdinSeen))
  {
    Reached(hasOutput, steps);
  }

  /** Steps left: every enabled step lowers it. */
  function Work(s: State): nat {
    (match s.copier case Copying => 2 case Sending(_) => 1 case _ => 0)
    + (if s.stdinDone then 0 else 1)
    + (match s.main case Selecting => 2 case Awaiting => 1 case Returned(_) => 0)
  }

  /** No deadlock and no endless run: unless everything has ended a step is enabled, and each lowers Work. */
  lemma AlwaysProgress(hasOutput: bool, steps: seq<Step>, a: Step)
    ensures var s := After(Init(hasOutput), steps);
            s.Some? ==>
              && (Enabled(s.value, a) ==> Work(Do(s.value, a)) < Work(s.value))
              && ((!s.value.main.Returned? || !s.value.stdinDone) ==>
                    exists b :: Enabled(s.value, b))
  {
    Reached(hasOutput, steps);
    var s := After(Init(hasOutput), steps);
    if s.Some? {
      if s.value.copier.Copying? {
        assert Enabled(s.value, CopierEnds(None));
      } else if s.value.copier.Sending? {
        assert Enabled(s.value, Receive);
      } else if !s.value.stdinDone {
        assert Enabled(s.value, StdinEnds);
      } else if s.value.main.Selecting? {
        assert Enabled(s.value, StdinSeen);
      }
    }
  }
}
