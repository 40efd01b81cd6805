/**
 The handshake between Run and the port-forwarding goroutine: ReadyChannel
 (unbuffered, closed by ForwardPorts or sent to when it fails), StopChannel
 (closed by the cleanup) and the WaitGroup, in every interleaving.
 */
module PortForward {
  import opened Common

  /**
   Forwarding: inside ForwardPorts, not ready yet. Open: ReadyChannel has been
   closed, waiting for stop or connection loss. Sending: ForwardPorts failed,
   sending the ready signal. Finishing: about to call wait.Done.
   */
  datatype Forwarder = Forwarding | Open | Sending | Finishing | Exited

  /** Cleaning: about to close StopChannel. Left: returned without waiting for the goroutine. */
  datatype Main = AwaitReady | InSafe | Cleaning(ok: bool) | Waiting | Left | Done

  datatype Fault = SendOnClosed | CloseOfClosed | NegativeCounter

  datatype State = State(
    main: Main, forwarder: Forwarder, readyClosed: bool, stopClosed: bool, counter: int, fault: Option<Fault>)

  datatype Step =
    | Receive                 // <-ReadyChannel
    | RawFails                // Safe returns without calling the session
    | SessionEnds(ok: bool)   // the remote stream ends
    | CloseStop
    | WaitReturns
    | FailsEarly              // ForwardPorts fails before it is ready
    | SignalsReady            // ForwardPorts closes ReadyChannel
    | StopSeen
    | ConnectionLost
    | FailsLate               // ForwardPorts fails after it was ready
    | SendReady               // ReadyChannel <- struct{}{}, on a closed channel
    | Finish                  // wait.Done

  /** After wait.Add(1) and the go statement. */
  function Init(): State {
    State(AwaitReady, Forwarding, false, false, 1, None)
  }

  /** lateErrors: whether ForwardPorts may fail after closing ReadyChannel. */
  predicate Enabled(lateErrors: bool, s: State, a: Step) {
    && s.fault.None?
    && match a
       case Receive => s.main.AwaitReady? && (s.readyClosed || s.forwarder.Sending?)
       case RawFails => s.main.InSafe?
       case SessionEnds(_) => s.main.InSafe?
       case CloseStop => s.main.Cleaning?
       case WaitReturns => s.main.Waiting? && s.counter == 0
       case FailsEarly => s.forwarder.Forwarding?
       case SignalsReady => s.forwarder.Forwarding?
       case StopSeen => s.forwarder.Open? && s.stopClosed
       case ConnectionLost => s.forwarder.Open?
       case FailsLate => lateErrors && s.forwarder.Open?
       case SendReady => s.forwarder.Sending? && s.readyClosed
       case Finish => s.forwarder.Finishing?
  }

  function Do(s: State, a: Step): State
    requires a.CloseStop? ==> s.main.Cleaning?
  {
    match a
    case Receive =>
      s.(main := InSafe, forwarder := if s.readyClosed then s.forwarder else Finishing)
    case RawFails => s.(main := Left)
    case SessionEnds(ok) => s.(main := Cleaning(ok))
    case CloseStop =>
      if s.stopClosed then s.(fault := Some(CloseOfClosed))
      else s.(stopClosed := true, main := if s.main.ok then Waiting else Left)
    case WaitReturns => s.(main := Done)
    case FailsEarly => s.(forwarder := Sending)
    case SignalsReady =>
      if s.readyClosed then s.(fault := Some(CloseOfClosed)) else s.(readyClosed := true, forwarder := Open)
    case StopSeen => s.(forwarder := Finishing)
    case ConnectionLost => s.(forwarder := Finishing)
    case FailsLate => s.(forwarder := Sending)
    case SendReady => s.(fault := Some(SendOnClosed))
    case Finish =>
      if s.counter <= 0 then s.(fault := Some(NegativeCounter)) else s.(counter := s.counter - 1, forwarder := Exited)
  }

  /** The state after a schedule, None if some step of it is not enabled. */
  function After(lateErrors: bool, steps: seq<Step>): Option<State> {
    if steps == [] then Some(Init())
    else
      var before := After(lateErrors, steps[..|steps| - 1]);
      if before.Some? && Enabled(lateErrors, before.value, steps[|steps| - 1])
      then Some(Do(before.value, steps[|steps| - 1]))
      else None
  }

  ghost predicate Inv(s: State) {
    && s.fault.None?
    && s.counter == (if s.forwarder.Exited? then 0 else 1)
    && (s.forwarder.Forwarding? ==> !s.readyClosed && s.main.AwaitReady?)
    && (s.forwarder.Open? ==> s.readyClosed)
    && (s.forwarder.Sending? ==> !s.readyClosed && s.main.AwaitReady?)
    && (s.main.AwaitReady? && !s.readyClosed ==> s.forwarder.Forwarding? || s.forwarder.Sending?)
    && (s.stopClosed ==> s.main.Waiting? || s.main.Left? || s.main.Done?)
    && (s.main.Waiting? ==> s.stopClosed)
  }

  lemma {:induction false} Reached(steps: seq<Step>)
    ensures var s := After(false, steps);
            s.Some? ==> Inv(s.value)
  {
    if steps != [] {
      Reached(steps[..|steps| - 1]);
    }
  }

  /** A schedule that ends in a panic. */
  ghost predicate Panics(lateErrors: bool, steps: seq<Step>) {
    var s := After(lateErrors, steps);
    s.Some? && s.value.fault.Some?
  }

  /** ForwardPorts signals ready and fails later: its ready signal goes to a closed channel. */
  lemma LateFailurePanics()
    ensures Panics(true, [SignalsReady, FailsLate, SendReady])
  {
    var one, two, three := [SignalsReady], [SignalsReady, FailsLate], [SignalsReady, FailsLate, SendReady];
    var open := Init().(readyClosed := true, forwarder := Open);
    assert one[..0] == [] && two[..1] == one && three[..2] == two;
    assert After(true, one) == Some(open);
    assert After(true, two) == Some(open.(forwarder := Sending));
  }

  /**
   No interleaving sends on a closed channel, closes one twice or drives the
   WaitGroup below zero, exactly if ForwardPorts never fails once it is ready.
   */
  lemma SafeExactly(lateErrors: bool)
    ensures (forall steps :: !Panics(lateErrors, steps)) <==> !lateErrors
  {
    if lateErrors {
      LateFailurePanics();
    } else {
      forall steps ensures !Panics(false, steps) {
        Reached(steps);
      }
    }
  }

  /** Steps left for the program; every step lowers it. */
  function Work(s: State): nat {
    (match s.main
     case AwaitReady => 4 case InSafe => 3 case Cleaning(_) => 2 case Waiting => 1 case Left => 0 case Done => 0)
    + (match s.forwarder case Forwarding => 3 case Open => 2 case Sending => 2 case Finishing => 1 case Exited => 0)
  }

  /** A step the program takes by itself, without the user, the remote side or the network doing anything. */
  predicate Own(a: Step) {
    !a.RawFails? && !a.SessionEnds? && !a.ConnectionLost? && !a.FailsEarly?
  }

  /** Every run is finite, and stops only where main has returned or the session is still on. */
  lemma NoDeadlock(steps: seq<Step>, a: Step)
    ensures var s := After(false, steps);
            s.Some? ==>
              && (Enabled(false, s.value, a) ==> Work(Do(s.value, a)) < Work(s.value))
              && (s.value.main.Left? || s.value.main.Done? || s.value.main.InSafe?
                  || exists b :: Own(b) && Enabled(false, s.value, b))
  {
    Reached(steps);
    var s := After(false, steps);
    if s.Some? {
      match s.value.main
      case AwaitReady =>
        assert Enabled(false, s.value, if s.value.forwarder.Forwarding? then SignalsReady else Receive);
      case Cleaning(ok) =>
        assert Enabled(false, s.value, CloseStop);
      case Waiting =>
        assert Enabled(false, s.value,
            if s.value.forwarder.Open? then StopSeen else if s.value.forwarder.Finishing? then Finish else WaitReturns);
      case _ =>
    }
  }

  /** When main waits, every further run of the program is at most three steps and ends with Wait returning. */
  lemma WaitEnds(steps: seq<Step>)
    ensures var s := After(false, steps);
            s.Some? && s.value.main.Waiting? ==>
              && Work(s.value) <= 3
              && forall a :: Enabled(false, s.value, a) ==> Do(s.value, a).main.Waiting? || Do(s.value, a).main.Done?
  {
    Reached(steps);
  }

  /** What has happened before main and the goroutine are where they are. */
  ghost predicate Caused(steps: seq<Step>, s: State) {
    && (s.readyClosed <==> SignalsReady in steps)
    && (!s.main.AwaitReady? ==> Receive in steps && (SignalsReady in steps || FailsEarly in steps))
    && (s.main.Cleaning? || s.main.Waiting? || s.main.Done? ==> exists ok :: SessionEnds(ok) in steps)
    && (s.main.Waiting? || s.main.Done? ==> SessionEnds(true) in steps)
    && (s.main.Cleaning? ==> SessionEnds(s.main.ok) in steps)
    && (s.main.Left? ==> RawFails in steps || (SessionEnds(false) in steps && CloseStop in steps))
    && (s.stopClosed <==> CloseStop in steps)
    && (s.main.Waiting? || s.main.Done? ==> CloseStop in steps)
    && (s.main.Done? ==> Finish in steps)
    && (s.counter == 0 ==> Finish in steps)
    && (s.forwarder.Finishing? || s.forwarder.Exited? ==>
          FailsEarly in steps || ConnectionLost in steps || (StopSeen in steps && CloseStop in steps))
    && (s.forwarder.Open? ==> SignalsReady in steps)
    && (s.forwarder.Sending? ==> FailsEarly in steps)
  }

  /**
   Cause before effect in every schedule: main goes on only after a ready
   signal, cleans up only after the session, waits only after a good one and
   returns from the wait only after the goroutine's Done; the goroutine ends
   only after an early failure, a lost connection or the closing of StopChannel.
   */
  lemma {:induction false} CausesFirst(steps: seq<Step>)
    ensures var s := After(false, steps);
            s.Some? ==> Caused(steps, s.value)
  {
    if steps != [] {
      var front, last := steps[..|steps| - 1], steps[|steps| - 1];
      CausesFirst(front);
      Reached(front);
      assert steps == front + [last];
      assert forall x :: x in steps <==> x in front || x == last;
      if After(false, steps).Some? {
        CauseStep(front, After(false, front).value, last);
      }
    }
  }

  lemma CauseStep(front: seq<Step>, s: State, a: Step)
    requires Inv(s) && Caused(front, s) && Enabled(false, s, a)
    ensures Caused(front + [a], Do(s, a))
  {
    assert forall x :: x in front + [a] <==> x in front || x == a;
  }

  /** What can happen next, by where main and the goroutine are. */
  lemma NextSteps(steps: seq<Step>)
    ensures var r := After(false, steps);
            r.Some? ==>
              var s := r.value;
              && (s.main.AwaitReady? ==>
                    (Enabled(false, s, Receive) <==> SignalsReady in steps || s.forwarder.Sending?))
              && (s.main.InSafe? ==> Enabled(false, s, RawFails) && forall ok :: Enabled(false, s, SessionEnds(ok)))
              && (s.main.Cleaning? ==> Enabled(false, s, CloseStop))
              && (s.main.Waiting? ==> (Enabled(false, s, WaitReturns) <==> s.forwarder.Exited?))
              && (s.forwarder.Forwarding? ==> Enabled(false, s, FailsEarly) && Enabled(false, s, SignalsReady))
              && (s.forwarder.Open? ==>
                    Enabled(false, s, ConnectionLost) && (Enabled(false, s, StopSeen) <==> CloseStop in steps))
              && (s.forwarder.Finishing? ==> Enabled(false, s, Finish))
  {
    Reached(steps);
    CausesFirst(steps);
  }

  /** Wait returns only after the goroutine is done, and after StopChannel was closed. */
  lemma DoneMeansDone(steps: seq<Step>)
    ensures var s := After(false, steps);
            s.Some? && s.value.main.Done? ==> s.value.forwarder.Exited? && s.value.stopClosed
  {
    DoneInv(steps);
  }

  lemma {:induction false} DoneInv(steps: seq<Step>)
    ensures var s := After(false, steps);
            s.Some? ==> Inv(s.value) && (s.value.main.Done? ==> s.value.forwarder.Exited? && s.value.stopClosed)
  {
    Reached(steps);
    if steps != [] {
      DoneInv(steps[..|steps| - 1]);
    }
  }
}
