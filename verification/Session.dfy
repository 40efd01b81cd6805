/**
 The plugin's Run: which pods it creates and deletes, and in what order it
 undoes things, under every outcome of the calls it makes.
 */
module Session {
  import opened Common

  datatype Kind = Agent | Forked

  datatype Event =
    | AuthGranted
    | Created(kind: Kind)       // the API server accepted the pod
    | Running(kind: Kind)       // launchPod saw it running
    | DeleteTried(kind: Kind)
    | ForwardStarted            // wait.Add(1) and the forwarding goroutine
    | Ready                     // received from ReadyChannel
    | RawSet                    // the terminal is in raw mode
    | Ran                       // the remote session, or what it failed at
    | CleanupBegun
    | StopClosed                // close(StopChannel)
    | QueueStopped              // sizeQueue.stop
    | Restored                  // terminal state restored
    | Waited                    // wait.Wait returned

  /** The ways Run ends. */
  datatype Exit =
    | NoPod | NotAllowed
    | LaunchFailed(kind: Kind, created: bool)
    | PodCompleted | NoContainer
    | NoAgentFound | AgentNotForwardable
    | RawFailed
    | SessionEnded(ok: bool)

  datatype Launch = CreateFails | WatchFails | NeverRuns | Runs

  datatype Phase = Up | Completed | Unsettled

  /** One outcome for every external call; daemonAgent: the phase of the daemon set's pod on the node. */
  datatype World = World(
    getPod: bool, target: Phase, allowed: bool, agent: Launch, forked: Launch, container: bool,
    daemonSet: bool, podList: bool, daemonAgent: Option<Phase>, raw: bool, session: bool)

  /** launched: what Run created the pod as; None for a pod that was there before. */
  datatype Pod = Pod(launched: Option<Kind>, phase: Phase)

  /** The options, and what the streams are. */
  datatype Options = Options(agentLess: bool, fork: bool, portForward: bool, stdinTerminal: bool, stdoutTerminal: bool)

  function If(c: bool, s: seq<Event>): seq<Event> {
    if c then s else []
  }

  function Launched(kind: Kind): seq<Event> {
    [Created(kind), Running(kind)]
  }

  /** Up to the point where the target container is known. */
  function Prepared(o: Options): seq<Event> {
    [AuthGranted] + If(o.agentLess, Launched(Agent)) + If(o.fork, Launched(Forked))
  }

  function Cleanup(o: Options): seq<Event> {
    [CleanupBegun] + If(o.fork, [DeleteTried(Forked)]) + If(o.portForward, [StopClosed])
    + If(o.agentLess, [DeleteTried(Agent)])
  }

  function Connected(o: Options): seq<Event> {
    Prepared(o) + If(o.portForward, [ForwardStarted, Ready])
  }

  /** The session inside Safe: the terminal is set up around it only if stdin is one. */
  function Guarded(o: Options): seq<Event> {
    If(o.stdinTerminal, [RawSet]) + ([Ran] + Cleanup(o))
    + If(o.stdinTerminal, If(o.stdoutTerminal, [QueueStopped]) + [Restored])
  }

  /** Everything that has happened when Run ends the given way. */
  function Ledger(o: Options, e: Exit): seq<Event> {
    match e
    case NoPod => []
    case NotAllowed => []
    case LaunchFailed(Agent, created) => [AuthGranted] + If(created, [Created(Agent)])
    case LaunchFailed(Forked, created) =>
      [AuthGranted] + If(o.agentLess, Launched(Agent)) + If(created, [Created(Forked)])
      + If(o.agentLess, [DeleteTried(Agent)])
    case PodCompleted => Prepared(o) + If(o.agentLess, [DeleteTried(Agent)])
    case NoContainer => Prepared(o) + If(o.agentLess, [DeleteTried(Agent)])
    case NoAgentFound => Prepared(o)
    case AgentNotForwardable => Prepared(o)
    case RawFailed => Connected(o)
    case SessionEnded(ok) => Connected(o) + Guarded(o) + If(ok, [Waited])
  }

  /** What ends Run: the first thing that goes wrong, in the order the program asks for things. */
  function ExitOf(o: Options, w: World): Exit {
    if !w.getPod then NoPod
    else if !w.allowed then NotAllowed
    else if o.agentLess && !w.agent.Runs? then LaunchFailed(Agent, !w.agent.CreateFails?)
    else if o.fork && !w.forked.Runs? then LaunchFailed(Forked, !w.forked.CreateFails?)
    else if !o.fork && w.target.Completed? then PodCompleted
    else if !w.container then NoContainer
    else if o.portForward && !o.agentLess && !(w.daemonSet && w.podList && w.daemonAgent.Some?) then NoAgentFound
    else if o.portForward && !o.agentLess && w.daemonAgent != Some(Up) then AgentNotForwardable
    else if o.stdinTerminal && !w.raw then RawFailed
    else SessionEnded(w.session)
  }

  predicate Authorized(w: World) {
    w.getPod && w.allowed
  }

  /** Every pod asked for is created and seen running. */
  predicate Launches(o: Options, w: World) {
    Authorized(w) && (o.agentLess ==> w.agent.Runs?) && (o.fork ==> w.forked.Runs?)
  }

  /** There is a pod to debug that is not completed, with the container running. */
  predicate HasTarget(o: Options, w: World) {
    (o.fork || !w.target.Completed?) && w.container
  }

  /** Where an agent is to be found for forwarding, a running one is. */
  predicate HasAgent(o: Options, w: World) {
    o.portForward && !o.agentLess ==> w.daemonSet && w.podList && w.daemonAgent == Some(Up)
  }

  /** Run gets as far as the terminal. */
  predicate ReachesTerminal(o: Options, w: World) {
    Launches(o, w) && HasTarget(o, w) && HasAgent(o, w)
  }

  /** The terminal cannot be put in raw mode. */
  predicate RawRefused(o: Options, w: World) {
    ReachesTerminal(o, w) && o.stdinTerminal && !w.raw
  }

  predicate SessionRuns(o: Options, w: World) {
    ReachesTerminal(o, w) && (o.stdinTerminal ==> w.raw)
  }

  /** The two ways Run can end once everything before the terminal has gone well, and no others. */
  lemma TerminalExits(o: Options, w: World)
    ensures ExitOf(o, w) == RawFailed <==> RawRefused(o, w)
    ensures ExitOf(o, w).SessionEnded? <==> SessionRuns(o, w)
    ensures SessionRuns(o, w) ==> ExitOf(o, w) == SessionEnded(w.session)
  {
  }

  /** Which outcomes make Run end in which way. */
  lemma ExitFields(o: Options, w: World, kind: Kind, created: bool)
    ensures var authorized := w.getPod && w.allowed;
            var launched := authorized && (o.agentLess ==> w.agent == Runs) && (o.fork ==> w.forked == Runs);
            var target := launched && (o.fork || w.target != Completed);
            var found := w.daemonSet && w.podList && w.daemonAgent.Some?;
            var agent := o.portForward && !o.agentLess ==> found && w.daemonAgent == Some(Up);
            var e := ExitOf(o, w);
            && (e == NoPod <==> !w.getPod)
            && (e == NotAllowed <==> w.getPod && !w.allowed)
            && (e == LaunchFailed(Agent, created) <==>
                  authorized && o.agentLess && w.agent != Runs && created == (w.agent != CreateFails))
            && (e == LaunchFailed(Forked, created) <==>
                  && authorized && (o.agentLess ==> w.agent == Runs)
                  && o.fork && w.forked != Runs && created == (w.forked != CreateFails))
            && (e == PodCompleted <==> launched && !o.fork && w.target == Completed)
            && (e == NoContainer <==> target && !w.container)
            && (e == NoAgentFound <==> target && w.container && o.portForward && !o.agentLess && !found)
            && (e == AgentNotForwardable <==>
                  target && w.container && o.portForward && !o.agentLess && found && w.daemonAgent != Some(Up))
            && (e == RawFailed <==> target && w.container && agent && o.stdinTerminal && !w.raw)
            && (e == SessionEnded(true) <==>
                  target && w.container && agent && (o.stdinTerminal ==> w.raw) && w.session)
            && (e == SessionEnded(false) <==>
                  target && w.container && agent && (o.stdinTerminal ==> w.raw) && !w.session)
  {
  }

  class DebugOptions {
    const o: Options
    const w: World
    var trace: seq<Event>

    constructor (o: Options, w: World)
      ensures this.o == o && this.w == w && trace == []
    {
      this.o, this.w, trace := o, w, [];
    }

    method Log(events: seq<Event>)
      modifies this
      ensures trace == old(trace) + events
    {
      trace := trace + events;
    }

    /** Creates a pod and waits until it runs; the second result tells whether it was created. */
    method LaunchPod(kind: Kind, l: Launch) returns (running: Option<Pod>, created: bool)
      modifies this
      ensures created <==> !l.CreateFails?
      ensures running == if l.Runs? then Some(Pod(Some(kind), Up)) else None
      ensures trace == old(trace) + (if l.Runs? then Launched(kind) else If(created, [Created(kind)]))
    {
      if l.CreateFails? {
        return None, false;
      }
      Log([Created(kind)]);
      if l.WatchFails? || l.NeverRuns? {
        return None, true;
      }
      Log([Running(kind)]);
      return Some(Pod(Some(kind), Up)), true;
    }

    /** A nil pod would be dereferenced in agentless mode: every caller must rule that out. */
    method DeleteAgent(agentPod: Option<Pod>)
      requires o.agentLess ==> agentPod.Some? && agentPod.value.launched == Some(Agent)
      modifies this
      ensures trace == old(trace) + If(o.agentLess, [DeleteTried(Agent)])
    {
      if !o.agentLess {
        return;
      }
      Log([DeleteTried(agentPod.value.launched.value)]);
    }

    method RunPortForward(pod: Pod) returns (ok: bool)
      modifies this
      ensures ok == pod.phase.Up? && trace == old(trace) + If(ok, [ForwardStarted])
    {
      if !pod.phase.Up? {
        return false;
      }
      Log([ForwardStarted]);
      return true;
    }

    /** Runs the session function and then, whatever came of it, the cleanup. */
    method WithCleanUp(pod: Pod, agentPod: Option<Pod>) returns (ok: bool)
      requires o.agentLess ==> agentPod.Some? && agentPod.value.launched == Some(Agent)
      requires o.fork ==> pod.launched == Some(Forked)
      modifies this
      ensures ok == w.session && trace == old(trace) + ([Ran] + Cleanup(o))
    {
      Log([Ran]);
      ok := w.session;
      Log([CleanupBegun]);
      if o.fork {
        Log([DeleteTried(pod.launched.value)]);
      }
      if o.portForward {
        Log([StopClosed]);
      }
      if o.agentLess && agentPod.Some? {
        DeleteAgent(agentPod);
      }
    }

    /** TTY.Safe around WithCleanUp; stopQueue: MonitorSize has set a size queue. */
    method Safe(pod: Pod, agentPod: Option<Pod>, stopQueue: bool) returns (ok: bool, invoked: bool)
      requires o.agentLess ==> agentPod.Some? && agentPod.value.launched == Some(Agent)
      requires o.fork ==> pod.launched == Some(Forked)
      requires stopQueue == o.stdoutTerminal
      modifies this
      ensures invoked <==> !o.stdinTerminal || w.raw
      ensures ok <==> invoked && w.session
      ensures trace == old(trace) + If(invoked, Guarded(o))
    {
      hide Cleanup;
      if !o.stdinTerminal {
        ok := WithCleanUp(pod, agentPod);
        return ok, true;
      }
      if !w.raw {
        return false, false;
      }
      Log([RawSet]);
      ok := WithCleanUp(pod, agentPod);
      ghost var session := [RawSet] + ([Ran] + Cleanup(o));
      assert trace == old(trace) + session;
      if stopQueue {
        Log([QueueStopped]);
      }
      Log([Restored]);
      assert trace == old(trace) + (session + (If(stopQueue, [QueueStopped]) + [Restored]));
      return ok, true;
    }

    /** Authorizes, then launches the agent and the forked pod as the options ask. */
    method Prepare() returns (e: Option<Exit>, pod: Pod, agentPod: Option<Pod>)
      requires trace == []
      modifies this
      ensures e.Some? ==> e.value == ExitOf(o, w) && trace == Ledger(o, e.value)
      ensures e.None? ==> trace == Prepared(o) && Launches(o, w)
      ensures e.None? ==> agentPod == if o.agentLess then Some(Pod(Some(Agent), Up)) else None
      ensures e.None? ==> pod == if o.fork then Pod(Some(Forked), Up) else Pod(None, w.target)
    {
      pod, agentPod := Pod(None, w.target), None;
      if !w.getPod {
        return Some(NoPod), pod, agentPod;
      }
      if !w.allowed {
        return Some(NotAllowed), pod, agentPod;
      }
      Log([AuthGranted]);
      if o.agentLess {
        var created;
        agentPod, created := LaunchPod(Agent, w.agent);
        if agentPod.None? {
          return Some(LaunchFailed(Agent, created)), pod, agentPod;
        }
      }
      if o.fork {
        var created, forked;
        forked, created := LaunchPod(Forked, w.forked);
        if forked.None? {
          DeleteAgent(agentPod);
          return Some(LaunchFailed(Forked, created)), pod, agentPod;
        }
        pod := forked.value;
      }
      return None, pod, agentPod;
    }

    /** Finds the agent to forward to and waits until forwarding is ready. */
    method Connect(agentPod: Option<Pod>) returns (e: Option<Exit>)
      requires agentPod == if o.agentLess then Some(Pod(Some(Agent), Up)) else None
      requires trace == Prepared(o) && Launches(o, w) && HasTarget(o, w)
      modifies this
      ensures e.Some? ==> e.value == ExitOf(o, w) && trace == Ledger(o, e.value)
      ensures e.None? ==> trace == Connected(o) && ReachesTerminal(o, w)
    {
      if o.portForward {
        var agent: Option<Pod> := None;
        if !o.agentLess {
          if !w.daemonSet || !w.podList {
            return Some(NoAgentFound);
          }
          if w.daemonAgent.Some? {
            agent := Some(Pod(None, w.daemonAgent.value));
          }
        } else {
          agent := agentPod;
        }
        if agent.None? {
          return Some(NoAgentFound);
        }
        var ok := RunPortForward(agent.value);
        if !ok {
          DeleteAgent(agentPod);
          return Some(AgentNotForwardable);
        }
        Log([Ready]);
      }
      return None;
    }

    /** Whatever the outcomes, the way Run ends determines everything it has done. */
    method Run() returns (e: Exit)
      requires trace == []
      modifies this
      ensures e == ExitOf(o, w) && trace == Ledger(o, e)
    {
      hide Prepared;
      hide Guarded;
      var early, pod, agentPod := Prepare();
      if early.Some? {
        return early.value;
      }
      if pod.phase.Completed? {
        DeleteAgent(agentPod);
        return PodCompleted;
      }
      if !w.container {
        DeleteAgent(agentPod);
        return NoContainer;
      }
      early := Connect(agentPod);
      if early.Some? {
        return early.value;
      }
      var ok, invoked := Safe(pod, agentPod, o.stdoutTerminal);
      TerminalExits(o, w);
      if !invoked {
        return RawFailed;
      }
      if !ok {
        return SessionEnded(false);
      }
      Log([Waited]);
      return SessionEnded(true);
    }
  }

  // ----------------------------------------------------- what the ledger says

  function Times(t: seq<Event>, x: Event): nat {
    multiset(t)[x]
  }

  lemma TimesConcat(a: seq<Event>, b: seq<Event>, x: Event)
    ensures Times(a + b, x) == Times(a, x) + Times(b, x)
    ensures x in a <==> Times(a, x) > 0
  {
  }

  function One(c: bool): nat {
    if c then 1 else 0
  }

  lemma TimesLaunched(kind: Kind, x: Event)
    ensures Times(Launched(kind), x) == One(x == Created(kind) || x == Running(kind))
  {
  }

  lemma TimesPrepared(o: Options, x: Event)
    ensures Times(Prepared(o), x) ==
            One(x == AuthGranted)
            + (if o.agentLess then Times(Launched(Agent), x) else 0)
            + (if o.fork then Times(Launched(Forked), x) else 0)
  {
  }

  lemma TimesConnected(o: Options, x: Event)
    ensures Times(Connected(o), x) == Times(Prepared(o), x) + One(o.portForward && (x == ForwardStarted || x == Ready))
  {
  }

  lemma TimesCleanup(o: Options, x: Event)
    ensures Times(Cleanup(o), x) ==
            One(x == CleanupBegun) + One(o.fork && x == DeleteTried(Forked)) + One(o.portForward && x == StopClosed)
            + One(o.agentLess && x == DeleteTried(Agent))
  {
  }

  lemma TimesGuarded(o: Options, x: Event)
    ensures Times(Guarded(o), x) ==
            One(o.stdinTerminal && x == RawSet) + One(x == Ran) + Times(Cleanup(o), x)
            + One(o.stdinTerminal && o.stdoutTerminal && x == QueueStopped) + One(o.stdinTerminal && x == Restored)
  {
  }

  lemma TimesSession(o: Options, ok: bool, x: Event)
    ensures Times(Ledger(o, SessionEnded(ok)), x) ==
            Times(Connected(o), x) + Times(Guarded(o), x) + One(ok && x == Waited)
  {
    hide Connected;
    hide Guarded;
    TimesConcat(Connected(o), Guarded(o), x);
    TimesConcat(Connected(o) + Guarded(o), If(ok, [Waited]), x);
  }

  lemma TimesEarly(o: Options, x: Event)
    ensures Times(Ledger(o, PodCompleted), x) == Times(Prepared(o), x) + One(o.agentLess && x == DeleteTried(Agent))
  {
  }

  lemma TimesLaunchFailed(o: Options, created: bool, x: Event)
    ensures Times(Ledger(o, LaunchFailed(Forked, created)), x) ==
            One(x == AuthGranted) + (if o.agentLess then Times(Launched(Agent), x) else 0)
            + One(created && x == Created(Forked)) + One(o.agentLess && x == DeleteTried(Agent))
  {
  }

  /** How often an event is in the ledger of a way to end. */
  function Tally(o: Options, e: Exit, x: Event): nat {
    var agent := if o.agentLess then Times(Launched(Agent), x) else 0;
    var deleted := One(o.agentLess && x == DeleteTried(Agent));
    match e
    case NoPod => 0
    case NotAllowed => 0
    case LaunchFailed(Agent, created) => One(x == AuthGranted) + One(created && x == Created(Agent))
    case LaunchFailed(Forked, created) => One(x == AuthGranted) + agent + One(created && x == Created(Forked)) + deleted
    case PodCompleted => Times(Prepared(o), x) + deleted
    case NoContainer => Times(Prepared(o), x) + deleted
    case NoAgentFound => Times(Prepared(o), x)
    case AgentNotForwardable => Times(Prepared(o), x)
    case RawFailed => Times(Connected(o), x)
    case SessionEnded(ok) => Times(Connected(o), x) + Times(Guarded(o), x) + One(ok && x == Waited)
  }

  lemma TimesAgentFailed(o: Options, created: bool, x: Event)
    ensures Times(Ledger(o, LaunchFailed(Agent, created)), x) ==
            One(x == AuthGranted) + One(created && x == Created(Agent))
  {
  }

  lemma SameLedgers(o: Options)
    ensures Ledger(o, NoPod) == Ledger(o, NotAllowed) == []
    ensures Ledger(o, NoContainer) == Ledger(o, PodCompleted)
    ensures Ledger(o, NoAgentFound) == Ledger(o, AgentNotForwardable) == Prepared(o)
    ensures Ledger(o, RawFailed) == Connected(o)
  {
  }

  lemma TallyIs(o: Options, e: Exit, x: Event)
    ensures Times(Ledger(o, e), x) == Tally(o, e, x)
  {
    SameLedgers(o);
    hide Launched;
    hide Prepared;
    hide Connected;
    hide Guarded;
    hide If;
    hide Ledger;
    match e
    case LaunchFailed(Agent, created) => TimesAgentFailed(o, created, x);
    case LaunchFailed(Forked, created) => TimesLaunchFailed(o, created, x);
    case SessionEnded(ok) => TimesSession(o, ok, x);
    case NoPod =>
    case NotAllowed =>
    case NoAgentFound =>
    case AgentNotForwardable =>
    case RawFailed =>
    case _ => TimesEarly(o, x);
  }

  predicate ForkAsked(o: Options, w: World) {
    Authorized(w) && (o.agentLess ==> w.agent.Runs?) && o.fork
  }

  /** How often each event happens, in terms of the outcomes. */
  function Expected(o: Options, w: World, x: Event): nat {
    var session := One(SessionRuns(o, w));
    match x
    case AuthGranted => One(Authorized(w))
    case Created(Agent) => One(Authorized(w) && o.agentLess && !w.agent.CreateFails?)
    case Running(Agent) => One(Authorized(w) && o.agentLess && w.agent.Runs?)
    case DeleteTried(Agent) => One(Authorized(w) && o.agentLess && w.agent.Runs? && !RawRefused(o, w))
    case Created(Forked) => One(ForkAsked(o, w) && !w.forked.CreateFails?)
    case Running(Forked) => One(ForkAsked(o, w) && w.forked.Runs?)
    case DeleteTried(Forked) => if o.fork then session else 0
    case ForwardStarted => One(o.portForward && ReachesTerminal(o, w))
    case Ready => One(o.portForward && ReachesTerminal(o, w))
    case Ran => session
    case CleanupBegun => session
    case StopClosed => if o.portForward then session else 0
    case RawSet => if o.stdinTerminal then session else 0
    case Restored => if o.stdinTerminal then session else 0
    case QueueStopped => if o.stdinTerminal && o.stdoutTerminal then session else 0
    case Waited => if w.session then session else 0
  }

  lemma TimesLedger(o: Options, w: World, x: Event)
    ensures Times(Ledger(o, ExitOf(o, w)), x) == Expected(o, w, x)
  {
    hide Times;
    hide Launched;
    hide Prepared;
    hide Cleanup;
    hide Guarded;
    hide Connected;
    hide Ledger;
    TallyIs(o, ExitOf(o, w), x);
    TimesLaunched(Agent, x);
    TimesLaunched(Forked, x);
    TimesPrepared(o, x);
    TimesConnected(o, x);
    TimesCleanup(o, x);
    TimesGuarded(o, x);
  }

  /** The pod was created and no attempt was made to delete it. */
  predicate StaysBehind(t: seq<Event>, kind: Kind) {
    Times(t, Created(kind)) > Times(t, DeleteTried(kind))
  }

  /**
   An agent pod that reached running gets exactly one delete attempt, unless
   raw mode is refused: then it gets none. No other agent pod gets any.
   */
  lemma AgentConservation(o: Options, w: World)
    ensures var t := Ledger(o, ExitOf(o, w));
            && Times(t, Running(Agent)) == One(Authorized(w) && o.agentLess && w.agent.Runs?)
            && Times(t, DeleteTried(Agent)) == if RawRefused(o, w) then 0 else Times(t, Running(Agent))
  {
    TimesLedger(o, w, DeleteTried(Agent));
    TimesLedger(o, w, Running(Agent));
    hide Ledger;
    hide Times;
  }

  /** Exactly when a created agent pod stays behind: it is not seen running, or raw mode is refused. */
  lemma AgentStaysBehind(o: Options, w: World)
    ensures StaysBehind(Ledger(o, ExitOf(o, w)), Agent)
            <==> Authorized(w) && o.agentLess && (w.agent.WatchFails? || w.agent.NeverRuns? || RawRefused(o, w))
  {
    TimesLedger(o, w, DeleteTried(Agent));
    TimesLedger(o, w, Created(Agent));
    hide Ledger;
    hide Times;
  }

  /** A forked pod that reached running gets exactly one delete attempt if the session runs, and none otherwise. */
  lemma ForkConservation(o: Options, w: World)
    ensures var t := Ledger(o, ExitOf(o, w));
            && Times(t, Running(Forked)) == One(ForkAsked(o, w) && w.forked.Runs?)
            && Times(t, DeleteTried(Forked)) == if SessionRuns(o, w) then Times(t, Running(Forked)) else 0
  {
    TimesLedger(o, w, DeleteTried(Forked));
    TimesLedger(o, w, Running(Forked));
    hide Ledger;
    hide Times;
  }

  /**
   Exactly when a created forked pod stays behind: it is not seen running, the
   container is not found in it, there is no agent to forward to, or raw mode
   is refused.
   */
  lemma ForkStaysBehind(o: Options, w: World)
    ensures StaysBehind(Ledger(o, ExitOf(o, w)), Forked)
            <==> && ForkAsked(o, w) && !w.forked.CreateFails?
                 && (|| !w.forked.Runs? || !w.container || !HasAgent(o, w)
                     || (o.stdinTerminal && !w.raw))
  {
    TimesLedger(o, w, DeleteTried(Forked));
    TimesLedger(o, w, Created(Forked));
    hide Ledger;
    hide Times;
  }

  /** An agentless session on a terminal that refuses raw mode. */
  lemma AgentLeakExample()
    ensures var o := Options(true, false, false, true, true);
            var w := World(true, Up, true, Runs, CreateFails, true, false, false, None, false, true);
            && Ledger(o, ExitOf(o, w)) == [AuthGranted, Created(Agent), Running(Agent)]
            && StaysBehind(Ledger(o, ExitOf(o, w)), Agent)
  {
    hide StaysBehind;
    AgentStaysBehind(Options(true, false, false, true, true),
                     World(true, Up, true, Runs, CreateFails, true, false, false, None, false, true));
  }

  /** A forked pod in which the target container is not found. */
  lemma ForkLeakExample()
    ensures var o := Options(false, true, false, false, false);
            var w := World(true, Up, true, CreateFails, Runs, false, false, false, None, true, true);
            && Ledger(o, ExitOf(o, w)) == [AuthGranted, Created(Forked), Running(Forked)]
            && StaysBehind(Ledger(o, ExitOf(o, w)), Forked)
  {
    hide StaysBehind;
    ForkStaysBehind(Options(false, true, false, false, false),
                    World(true, Up, true, CreateFails, Runs, false, false, false, None, true, true));
  }

  /** t can be cut so that y happens only after the cut and x only before it. */
  ghost predicate Before(t: seq<Event>, x: Event, y: Event) {
    exists a, b :: t == a + b && Times(a, y) == 0 && Times(b, x) == 0
  }

  lemma BeforeCut(t: seq<Event>, a: seq<Event>, b: seq<Event>, x: Event, y: Event)
    requires t == a + b && Times(a, y) == 0 && Times(b, x) == 0
    ensures Before(t, x, y)
  {
  }

  lemma StartsWithAuth(o: Options, e: Exit)
    ensures Ledger(o, e) == [] || Ledger(o, e)[0] == AuthGranted
  {
  }

  /** No pod is created before the user is authorized. */
  lemma AuthFirst(o: Options, w: World, kind: Kind)
    ensures var t := Ledger(o, ExitOf(o, w));
            Before(t, AuthGranted, Created(kind)) && (Times(t, Created(kind)) > 0 ==> Times(t, AuthGranted) == 1)
  {
    var t := Ledger(o, ExitOf(o, w));
    StartsWithAuth(o, ExitOf(o, w));
    TimesLedger(o, w, AuthGranted);
    TimesLedger(o, w, Created(kind));
    hide Ledger;
    hide ExitOf;
    if t == [] {
      BeforeCut(t, [], [], AuthGranted, Created(kind));
    } else {
      assert t == [AuthGranted] + t[1..];
      TimesConcat([AuthGranted], t[1..], AuthGranted);
      BeforeCut(t, [AuthGranted], t[1..], AuthGranted, Created(kind));
    }
  }

  /** In a session's ledger, cutting between two parts of it separates their events. */
  lemma SessionCut(o: Options, ok: bool, a: seq<Event>, b: seq<Event>, x: Event, y: Event)
    requires Ledger(o, SessionEnded(ok)) == a + b
    requires Times(b, x) == 0
    requires Times(b, y) == Times(Ledger(o, SessionEnded(ok)), y)
    ensures Before(Ledger(o, SessionEnded(ok)), x, y)
  {
    hide Ledger;
    TimesConcat(a, b, y);
    BeforeCut(Ledger(o, SessionEnded(ok)), a, b, x, y);
  }

  /** The part of a session's ledger after the forked pod's deletion. */
  function AfterFork(o: Options, ok: bool): seq<Event> {
    If(o.portForward, [StopClosed]) + AfterStop(o, ok)
  }

  function AfterStop(o: Options, ok: bool): seq<Event> {
    If(o.agentLess, [DeleteTried(Agent)]) + AfterCleanup(o, ok)
  }

  function AfterCleanup(o: Options, ok: bool): seq<Event> {
    If(o.stdinTerminal, If(o.stdoutTerminal, [QueueStopped]) + [Restored]) + If(ok, [Waited])
  }

  function UpToFork(o: Options): seq<Event> {
    Connected(o) + (If(o.stdinTerminal, [RawSet]) + ([Ran, CleanupBegun] + If(o.fork, [DeleteTried(Forked)])))
  }

  lemma Assoc(x: seq<Event>, y: seq<Event>, z: seq<Event>)
    ensures (x + y) + z == x + (y + z)
  {
  }

  /** Moving brackets: everything up to f on the left, the rest on the right. */
  lemma Regroup(c: seq<Event>, r: seq<Event>, u: seq<Event>, v: seq<Event>, f: seq<Event>, s: seq<Event>, a: seq<Event>,
                t: seq<Event>, w: seq<Event>)
    ensures c + (r + (u + (v + f + s + a)) + t) + w == (c + (r + ((u + v) + f))) + (s + (a + (t + w)))
  {
  }

  lemma SessionParts(o: Options, ok: bool)
    ensures var t := Ledger(o, SessionEnded(ok));
            && t == UpToFork(o) + AfterFork(o, ok)
            && t == (UpToFork(o) + If(o.portForward, [StopClosed])) + AfterStop(o, ok)
            && t == (UpToFork(o) + If(o.portForward, [StopClosed]) + If(o.agentLess, [DeleteTried(Agent)]))
                    + AfterCleanup(o, ok)
  {
    hide Connected;
    Regroup(Connected(o), If(o.stdinTerminal, [RawSet]), [Ran], [CleanupBegun], If(o.fork, [DeleteTried(Forked)]),
            If(o.portForward, [StopClosed]), If(o.agentLess, [DeleteTried(Agent)]),
            If(o.stdinTerminal, If(o.stdoutTerminal, [QueueStopped]) + [Restored]), If(ok, [Waited]));
    hide If;
    assert [Ran] + [CleanupBegun] == [Ran, CleanupBegun];
    assert Ledger(o, SessionEnded(ok)) == UpToFork(o) + AfterFork(o, ok);
    hide Ledger;
    hide UpToFork;
    Assoc(UpToFork(o), If(o.portForward, [StopClosed]), AfterStop(o, ok));
    Assoc(UpToFork(o) + If(o.portForward, [StopClosed]), If(o.agentLess, [DeleteTried(Agent)]), AfterCleanup(o, ok));
  }

  lemma TimesAfterCleanup(o: Options, ok: bool, x: Event)
    ensures Times(AfterCleanup(o, ok), x) ==
            One(o.stdinTerminal && o.stdoutTerminal && x == QueueStopped)
            + One(o.stdinTerminal && x == Restored) + One(ok && x == Waited)
  {
  }

  lemma TimesAfterStop(o: Options, ok: bool, x: Event)
    ensures Times(AfterStop(o, ok), x) == One(o.agentLess && x == DeleteTried(Agent)) + Times(AfterCleanup(o, ok), x)
  {
  }

  lemma TimesAfterFork(o: Options, ok: bool, x: Event)
    ensures Times(AfterFork(o, ok), x) == One(o.portForward && x == StopClosed) + Times(AfterStop(o, ok), x)
  {
  }

  lemma TimesAfter(o: Options, ok: bool, x: Event)
    ensures Times(AfterCleanup(o, ok), x) ==
            One(o.stdinTerminal && o.stdoutTerminal && x == QueueStopped)
            + One(o.stdinTerminal && x == Restored) + One(ok && x == Waited)
    ensures Times(AfterStop(o, ok), x) == One(o.agentLess && x == DeleteTried(Agent)) + Times(AfterCleanup(o, ok), x)
    ensures Times(AfterFork(o, ok), x) == One(o.portForward && x == StopClosed) + Times(AfterStop(o, ok), x)
  {
    hide *;
    TimesAfterCleanup(o, ok, x);
    TimesAfterStop(o, ok, x);
    TimesAfterFork(o, ok, x);
  }

  /** The session, the deletions and the end of forwarding all precede the terminal's restoration. */
  lemma TerminalLast(o: Options, w: World, x: Event)
    requires SessionRuns(o, w) && (x.Ran? || x.DeleteTried? || x.StopClosed?)
    ensures var t := Ledger(o, ExitOf(o, w));
            Before(t, x, Restored) && Before(t, x, QueueStopped)
  {
    hide AfterFork;
    hide AfterStop;
    hide AfterCleanup;
    hide UpToFork;
    hide Ledger;
    hide If;
    hide Before;
    hide Times;
    var ok := w.session;
    TerminalExits(o, w);
    hide ExitOf;
    SessionParts(o, ok);
    TimesAfter(o, ok, x);
    TimesAfter(o, ok, Restored);
    TimesAfter(o, ok, QueueStopped);
    TimesLedger(o, w, Restored);
    TimesLedger(o, w, QueueStopped);
    hide SessionRuns;
    var p := UpToFork(o) + If(o.portForward, [StopClosed]) + If(o.agentLess, [DeleteTried(Agent)]);
    SessionCut(o, ok, p, AfterCleanup(o, ok), x, Restored);
    SessionCut(o, ok, p, AfterCleanup(o, ok), x, QueueStopped);
  }

  /**
   Runs that reach the cleanup undo things in order: forked pod, then the
   forwarding, then the agent pod, and the terminal after all of it.
   */
  lemma CleanupOrder(o: Options, w: World, x: Event)
    requires SessionRuns(o, w)
    ensures var t := Ledger(o, ExitOf(o, w));
            && Before(t, DeleteTried(Forked), StopClosed)
            && Before(t, StopClosed, DeleteTried(Agent))
            && (x.Ran? || x.DeleteTried? || x.StopClosed? ==> Before(t, x, Restored) && Before(t, x, QueueStopped))
  {
    hide AfterFork;
    hide AfterStop;
    hide AfterCleanup;
    hide UpToFork;
    hide Ledger;
    hide If;
    hide Before;
    hide Times;
    var ok := w.session;
    TerminalExits(o, w);
    hide ExitOf;
    SessionParts(o, ok);
    TimesAfter(o, ok, DeleteTried(Forked));
    TimesAfter(o, ok, StopClosed);
    TimesAfter(o, ok, DeleteTried(Agent));
    TimesLedger(o, w, StopClosed);
    TimesLedger(o, w, DeleteTried(Agent));
    var p, q := UpToFork(o), If(o.portForward, [StopClosed]);
    SessionCut(o, ok, p, AfterFork(o, ok), DeleteTried(Forked), StopClosed);
    SessionCut(o, ok, p + q, AfterStop(o, ok), StopClosed, DeleteTried(Agent));
    if x.Ran? || x.DeleteTried? || x.StopClosed? {
      TerminalLast(o, w, x);
    }
  }

  // ------------------------------------------------------- the order of a run

  /** The place of each event in the program. */
  function Place(x: Event): nat {
    match x
    case AuthGranted => 0
    case Created(Agent) => 1
    case Running(Agent) => 2
    case Created(Forked) => 3
    case Running(Forked) => 4
    case ForwardStarted => 5
    case Ready => 6
    case RawSet => 7
    case Ran => 8
    case CleanupBegun => 9
    case DeleteTried(Forked) => 10
    case StopClosed => 11
    case DeleteTried(Agent) => 12
    case QueueStopped => 13
    case Restored => 14
    case Waited => 15
  }

  /** Events at places from low up to high, each once, in the order of their places. */
  ghost predicate Ordered(t: seq<Event>, low: int, high: int) {
    && (forall i :: 0 <= i < |t| ==> low <= Place(t[i]) < high)
    && (forall i, j :: 0 <= i < j < |t| ==> Place(t[i]) < Place(t[j]))
  }

  lemma OrderedConcat(a: seq<Event>, b: seq<Event>, low: int, mid: int, high: int)
    requires Ordered(a, low, mid) && Ordered(b, mid, high) && low <= mid <= high
    ensures Ordered(a + b, low, high)
  {
    hide Place;
  }

  lemma OrderedPrepared(o: Options)
    ensures Ordered(Prepared(o), 0, 5)
  {
    OrderedConcat([AuthGranted], If(o.agentLess, Launched(Agent)), 0, 1, 3);
    OrderedConcat([AuthGranted] + If(o.agentLess, Launched(Agent)), If(o.fork, Launched(Forked)), 0, 3, 5);
  }

  lemma OrderedConnected(o: Options)
    ensures Ordered(Connected(o), 0, 7)
  {
    OrderedPrepared(o);
    hide Prepared;
    OrderedConcat(Prepared(o), If(o.portForward, [ForwardStarted, Ready]), 0, 5, 7);
  }

  lemma OrderedCleanup(o: Options)
    ensures Ordered(Cleanup(o), 9, 13)
  {
    var a, b := [CleanupBegun], If(o.fork, [DeleteTried(Forked)]);
    var c, d := If(o.portForward, [StopClosed]), If(o.agentLess, [DeleteTried(Agent)]);
    assert Ordered(a, 9, 10) && Ordered(b, 10, 11) && Ordered(c, 11, 12) && Ordered(d, 12, 13);
    hide Ordered;
    OrderedConcat(a, b, 9, 10, 11);
    OrderedConcat(a + b, c, 9, 11, 12);
    OrderedConcat(a + b + c, d, 9, 12, 13);
  }

  lemma OrderedGuarded(o: Options)
    ensures Ordered(Guarded(o), 7, 15)
  {
    var raw, ran := If(o.stdinTerminal, [RawSet]), [Ran];
    var back := If(o.stdinTerminal, If(o.stdoutTerminal, [QueueStopped]) + [Restored]);
    assert Ordered(raw, 7, 8) && Ordered(ran, 8, 9) && Ordered(back, 13, 15);
    OrderedCleanup(o);
    hide Ordered;
    hide Cleanup;
    OrderedConcat(ran, Cleanup(o), 8, 9, 13);
    OrderedConcat(raw, ran + Cleanup(o), 7, 8, 13);
    OrderedConcat(raw + (ran + Cleanup(o)), back, 7, 13, 15);
  }

  lemma Widened(t: seq<Event>, low: int, high: int, high': int)
    requires Ordered(t, low, high) && high <= high'
    ensures Ordered(t, low, high')
  {
    hide Place;
  }

  lemma OrderedSession(o: Options, ok: bool)
    ensures Ordered(Ledger(o, SessionEnded(ok)), 0, 16)
  {
    OrderedConnected(o);
    OrderedGuarded(o);
    hide Connected;
    hide Guarded;
    assert Ordered(If(ok, [Waited]), 15, 16);
    hide Ordered;
    OrderedConcat(Connected(o), Guarded(o), 0, 7, 15);
    OrderedConcat(Connected(o) + Guarded(o), If(ok, [Waited]), 0, 15, 16);
  }

  lemma OrderedForkFailed(o: Options, created: bool)
    ensures Ordered(Ledger(o, LaunchFailed(Forked, created)), 0, 16)
  {
    var a, b := [AuthGranted], If(o.agentLess, Launched(Agent));
    var c, d := If(created, [Created(Forked)]), If(o.agentLess, [DeleteTried(Agent)]);
    assert Ordered(a, 0, 1) && Ordered(b, 1, 3) && Ordered(c, 3, 12) && Ordered(d, 12, 16);
    hide Ordered;
    hide If;
    OrderedConcat(a, b, 0, 1, 3);
    OrderedConcat(a + b, c, 0, 3, 12);
    OrderedConcat(a + b + c, d, 0, 12, 16);
  }

  lemma OrderedDeleted(o: Options)
    ensures Ordered(Prepared(o) + If(o.agentLess, [DeleteTried(Agent)]), 0, 16)
  {
    OrderedPrepared(o);
    Widened(Prepared(o), 0, 5, 12);
    hide Prepared;
    assert Ordered(If(o.agentLess, [DeleteTried(Agent)]), 12, 16);
    hide Ordered;
    OrderedConcat(Prepared(o), If(o.agentLess, [DeleteTried(Agent)]), 0, 12, 16);
  }

  lemma OrderedShort(o: Options, created: bool)
    ensures Ordered([], 0, 16) && Ordered([AuthGranted] + If(created, [Created(Agent)]), 0, 16)
    ensures Ordered(Prepared(o), 0, 16) && Ordered(Connected(o), 0, 16)
  {
    OrderedPrepared(o);
    OrderedConnected(o);
    Widened(Prepared(o), 0, 5, 16);
    Widened(Connected(o), 0, 7, 16);
    hide Prepared;
    hide Connected;
  }

  /** In every run, events happen in the order of the program; with how often each happens, that is the whole ledger. */
  lemma LedgerOrdered(o: Options, w: World)
    ensures Ordered(Ledger(o, ExitOf(o, w)), 0, 16)
  {
    hide Ordered;
    hide ExitOf;
    hide Prepared;
    hide Connected;
    hide Guarded;
    hide If;
    match ExitOf(o, w)
    case SessionEnded(ok) => OrderedSession(o, ok);
    case LaunchFailed(Agent, created) => OrderedShort(o, created);
    case LaunchFailed(Forked, created) => OrderedForkFailed(o, created);
    case PodCompleted => OrderedDeleted(o);
    case NoContainer => OrderedDeleted(o);
    case _ => OrderedShort(o, false);
  }
}
