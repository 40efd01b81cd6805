/**
 Run together with the forwarding goroutine: the events that Session's ledger
 lists for a run with port forwarding are what happens in every interleaving of
 the handshake, and every interleaving ends.
 */
module ForwardedSession {
  import opened Common
  import F = PortForward
  import S = Session

  /** The events of Run that are steps of the handshake. */
  predicate IsShared(x: S.Event) {
    x.ForwardStarted? || x.Ready? || x.Ran? || x.StopClosed? || x.Waited?
  }

  function Shared(t: seq<S.Event>): seq<S.Event> {
    if t == [] then []
    else Shared(t[..|t| - 1]) + if IsShared(t[|t| - 1]) then [t[|t| - 1]] else []
  }

  /** What Run's ledger records of a step of the handshake. */
  function Recorded(a: F.Step): seq<S.Event> {
    match a
    case Receive => [S.Ready]
    case SessionEnds(_) => [S.Ran]
    case CloseStop => [S.StopClosed]
    case WaitReturns => [S.Waited]
    case _ => []
  }

  /** What it records of a schedule, from the start of the goroutine on. */
  function MainEvents(steps: seq<F.Step>): seq<S.Event> {
    if steps == [] then [S.ForwardStarted]
    else MainEvents(steps[..|steps| - 1]) + Recorded(steps[|steps| - 1])
  }

  /** The terminal and the remote session end in the way the outcomes say. */
  predicate Suits(o: S.Options, w: S.World, a: F.Step) {
    match a
    case RawFails => S.RawRefused(o, w)
    case SessionEnds(ok) => S.SessionRuns(o, w) && ok == w.session
    case _ => true
  }

  /** A schedule of the handshake with these outcomes, ForwardPorts never failing once it is ready. */
  predicate Schedule(o: S.Options, w: S.World, steps: seq<F.Step>) {
    F.After(false, steps).Some? && forall i :: 0 <= i < |steps| ==> Suits(o, w, steps[i])
  }

  /** A schedule that cannot go on. */
  ghost predicate Complete(o: S.Options, w: S.World, steps: seq<F.Step>) {
    Schedule(o, w, steps) && forall a :: F.Enabled(false, F.After(false, steps).value, a) ==> !Suits(o, w, a)
  }

  /** The outcomes that a state of main is compatible with. */
  predicate Fits(o: S.Options, w: S.World, s: F.State) {
    match s.main
    case AwaitReady => true
    case InSafe => true
    case Cleaning(ok) => S.SessionRuns(o, w) && ok == w.session
    case Waiting => S.SessionRuns(o, w) && w.session
    case Left => if s.stopClosed then S.SessionRuns(o, w) && !w.session else S.RawRefused(o, w)
    case Done => S.SessionRuns(o, w) && w.session
  }

  /** What has been recorded when main is in a given state. */
  function EventsAt(s: F.State): seq<S.Event> {
    [S.ForwardStarted]
    + match s.main
      case AwaitReady => []
      case InSafe => [S.Ready]
      case Cleaning(_) => [S.Ready, S.Ran]
      case Waiting => [S.Ready, S.Ran, S.StopClosed]
      case Left => if s.stopClosed then [S.Ready, S.Ran, S.StopClosed] else [S.Ready]
      case Done => [S.Ready, S.Ran, S.StopClosed, S.Waited]
  }

  lemma StepRecorded(o: S.Options, w: S.World, s: F.State, a: F.Step)
    requires F.Inv(s) && F.Enabled(false, s, a) && Suits(o, w, a) && Fits(o, w, s)
    ensures Fits(o, w, F.Do(s, a)) && EventsAt(F.Do(s, a)) == EventsAt(s) + Recorded(a)
    ensures F.Work(F.Do(s, a)) < F.Work(s)
  {
    hide S.SessionRuns;
    hide S.RawRefused;
  }

  lemma {:induction false} Followed(o: S.Options, w: S.World, steps: seq<F.Step>)
    requires Schedule(o, w, steps)
    ensures var s := F.After(false, steps).value;
            Fits(o, w, s) && MainEvents(steps) == EventsAt(s) && |steps| <= 7 - F.Work(s)
    ensures |steps| <= 7
  {
    if steps != [] {
      var front := steps[..|steps| - 1];
      Followed(o, w, front);
      F.Reached(front);
      StepRecorded(o, w, F.After(false, front).value, steps[|steps| - 1]);
      hide EventsAt;
      hide Fits;
    }
  }

  lemma {:induction false} SharedConcat(a: seq<S.Event>, b: seq<S.Event>)
    ensures Shared(a + b) == Shared(a) + Shared(b)
  {
    if b == [] {
      assert a + b == a;
    } else {
      SharedConcat(a, b[..|b| - 1]);
      assert (a + b)[..|a + b| - 1] == a + b[..|b| - 1];
    }
  }

  /** No event of a list is part of the handshake. */
  lemma {:induction false} NoneShared(t: seq<S.Event>)
    requires forall i :: 0 <= i < |t| ==> !IsShared(t[i])
    ensures Shared(t) == []
  {
    if t != [] {
      NoneShared(t[..|t| - 1]);
    }
  }

  lemma {:induction false} AllShared(t: seq<S.Event>)
    requires forall i :: 0 <= i < |t| ==> IsShared(t[i])
    ensures Shared(t) == t
  {
    if t != [] {
      AllShared(t[..|t| - 1]);
    }
  }

  lemma SharedPrepared(o: S.Options)
    ensures Shared(S.Prepared(o)) == []
  {
    hide Shared;
    NoneShared(S.Prepared(o));
  }

  lemma SharedConnected(o: S.Options)
    requires o.portForward
    ensures Shared(S.Connected(o)) == [S.ForwardStarted, S.Ready]
  {
    hide Shared;
    SharedPrepared(o);
    hide S.Prepared;
    AllShared([S.ForwardStarted, S.Ready]);
    SharedConcat(S.Prepared(o), [S.ForwardStarted, S.Ready]);
  }

  lemma SharedCleanup(o: S.Options)
    requires o.portForward
    ensures Shared(S.Cleanup(o)) == [S.StopClosed]
  {
    var before := [S.CleanupBegun] + S.If(o.fork, [S.DeleteTried(S.Forked)]);
    var after := S.If(o.agentLess, [S.DeleteTried(S.Agent)]);
    hide Shared;
    NoneShared(before);
    NoneShared(after);
    AllShared([S.StopClosed]);
    SharedConcat(before, [S.StopClosed]);
    SharedConcat(before + [S.StopClosed], after);
  }

  /** Setting up and restoring the terminal is no part of the handshake. */
  lemma SharedTerminal(o: S.Options)
    ensures Shared(S.If(o.stdinTerminal, [S.RawSet])) == []
    ensures Shared(S.If(o.stdinTerminal, S.If(o.stdoutTerminal, [S.QueueStopped]) + [S.Restored])) == []
  {
    hide Shared;
    NoneShared(S.If(o.stdinTerminal, [S.RawSet]));
    NoneShared(S.If(o.stdinTerminal, S.If(o.stdoutTerminal, [S.QueueStopped]) + [S.Restored]));
  }

  lemma SharedRan()
    ensures Shared([S.Ran]) == [S.Ran]
  {
    AllShared([S.Ran]);
  }

  lemma SharedGuarded(o: S.Options)
    requires o.portForward
    ensures Shared(S.Guarded(o)) == [S.Ran, S.StopClosed]
  {
    hide Shared;
    hide S.Cleanup;
    hide S.If;
    var before := S.If(o.stdinTerminal, [S.RawSet]);
    var after := S.If(o.stdinTerminal, S.If(o.stdoutTerminal, [S.QueueStopped]) + [S.Restored]);
    SharedCleanup(o);
    SharedTerminal(o);
    SharedRan();
    SharedConcat([S.Ran], S.Cleanup(o));
    SharedConcat(before, [S.Ran] + S.Cleanup(o));
    SharedConcat(before + ([S.Ran] + S.Cleanup(o)), after);
  }

  lemma SharedWaited(ok: bool)
    ensures Shared(S.If(ok, [S.Waited])) == S.If(ok, [S.Waited])
  {
    AllShared(S.If(ok, [S.Waited]));
  }

  /** What a run's ledger says about the handshake. */
  lemma SharedLedger(o: S.Options, ok: bool)
    requires o.portForward
    ensures Shared(S.Ledger(o, S.RawFailed)) == [S.ForwardStarted, S.Ready]
    ensures Shared(S.Ledger(o, S.SessionEnded(ok))) ==
            [S.ForwardStarted, S.Ready, S.Ran, S.StopClosed] + S.If(ok, [S.Waited])
  {
    hide Shared;
    hide S.Connected;
    hide S.Guarded;
    hide S.If;
    SharedConnected(o);
    SharedGuarded(o);
    SharedWaited(ok);
    SharedConcat(S.Connected(o), S.Guarded(o));
    SharedConcat(S.Connected(o) + S.Guarded(o), S.If(ok, [S.Waited]));
  }

  /** Until main has returned a schedule can go on. */
  lemma CanGoOn(o: S.Options, w: S.World, steps: seq<F.Step>) returns (a: F.Step)
    requires S.ReachesTerminal(o, w) && F.After(false, steps).Some?
    requires var main := F.After(false, steps).value.main; !main.Left? && !main.Done?
    ensures F.Enabled(false, F.After(false, steps).value, a) && Suits(o, w, a)
  {
    var s := F.After(false, steps).value;
    F.Reached(steps);
    if s.main.InSafe? {
      a := if S.SessionRuns(o, w) then F.SessionEnds(w.session) else F.RawFails;
    } else {
      F.NoDeadlock(steps, F.Finish);
      a :| F.Own(a) && F.Enabled(false, s, a);
    }
  }

  lemma TwoWays(o: S.Options, w: S.World)
    requires S.ReachesTerminal(o, w)
    ensures S.RawRefused(o, w) <==> !S.SessionRuns(o, w)
  {
  }

  /** What is recorded in a state of main is the beginning of the ledger, and all of it once main has returned. */
  lemma EventsLedger(o: S.Options, w: S.World, s: F.State)
    requires o.portForward && S.ReachesTerminal(o, w) && Fits(o, w, s)
    ensures EventsAt(s) <= Shared(S.Ledger(o, S.ExitOf(o, w)))
    ensures s.main.Left? || s.main.Done? ==> EventsAt(s) == Shared(S.Ledger(o, S.ExitOf(o, w)))
  {
    hide S.ReachesTerminal;
    hide S.ExitOf;
    hide S.Ledger;
    hide Shared;
    hide S.RawRefused;
    hide S.SessionRuns;
    S.TerminalExits(o, w);
    TwoWays(o, w);
    SharedLedger(o, w.session);
    var t := Shared(S.Ledger(o, S.ExitOf(o, w)));
    match s.main
    case AwaitReady => assert EventsAt(s) == [S.ForwardStarted];
    case InSafe => assert EventsAt(s) == [S.ForwardStarted, S.Ready];
    case Cleaning(_) => assert EventsAt(s) == [S.ForwardStarted, S.Ready, S.Ran];
    case Waiting => assert EventsAt(s) == [S.ForwardStarted, S.Ready, S.Ran, S.StopClosed];
    case _ => assert EventsAt(s) == t;
  }

  lemma CompleteEnds(o: S.Options, w: S.World, steps: seq<F.Step>)
    requires S.ReachesTerminal(o, w) && Complete(o, w, steps)
    ensures var main := F.After(false, steps).value.main; main.Left? || main.Done?
  {
    var main := F.After(false, steps).value.main;
    if !main.Left? && !main.Done? {
      var a := CanGoOn(o, w, steps);
      assert false;
    }
  }

  /**
   Run with port forwarding, composed with its goroutine: every schedule has at
   most seven steps, records a prefix of what the ledger says, and when it
   cannot go on main has returned and all of it is recorded. So the receive
   from ReadyChannel and the wait for the goroutine return in every
   interleaving once the remote session ends.
   */
  lemma RunReturns(o: S.Options, w: S.World, steps: seq<F.Step>)
    requires o.portForward && S.ReachesTerminal(o, w) && Schedule(o, w, steps)
    ensures |steps| <= 7
    ensures MainEvents(steps) <= Shared(S.Ledger(o, S.ExitOf(o, w)))
    ensures Complete(o, w, steps) ==>
              && MainEvents(steps) == Shared(S.Ledger(o, S.ExitOf(o, w)))
              && var main := F.After(false, steps).value.main; main.Left? || main.Done?
  {
    hide F.After;
    hide F.Work;
    hide Fits;
    hide EventsAt;
    hide MainEvents;
    hide Shared;
    hide S.Ledger;
    hide S.ExitOf;
    hide S.ReachesTerminal;
    Followed(o, w, steps);
    EventsLedger(o, w, F.After(false, steps).value);
    if Complete(o, w, steps) {
      CompleteEnds(o, w, steps);
    }
  }
}
