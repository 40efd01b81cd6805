/**
 The terminal-resize pipeline: a producer of sizes, the forwarding goroutine of
 sizeQueue and the consumer of Next, chained by two bounded channels whose
 sends may drop, in every interleaving.
 */
module Resize {
  import opened Common
  import opened Embedding

  datatype Size = Size(width: nat, height: nat)

  datatype Producer = Idle | Got(size: Size) | Gone
  datatype Forwarder = Waiting | Holding(size: Size) | Stopped

  /**
   initial: the sizes MonitorSize is called with; dropping: whether the
   producer's send gives up on a full channel (it does on Unix, and blocks on
   Windows).
   */
  datatype Config = Config(initial: seq<Option<Size>>, dropping: bool)

  /**
   primed: how many initial sizes have been dealt with. signal: a SIGWINCH is
   pending. events and queue: the buffers of resizeEvents (capacity 1) and
   resizeChan (capacity |initial|). asking: the consumer is blocked in Next.
   observed: every size the producer obtained. lost: how many were dropped.
   */
  datatype State = State(
    primed: nat, signal: bool, producer: Producer, events: seq<Size>, forwarder: Forwarder, queue: seq<Size>,
    asking: bool, delivered: seq<Size>, stopped: bool, observed: seq<Size>, lost: nat)

  datatype Step =
    | Prime                          // send the next initial size
    | Signal                         // SIGWINCH, or the end of the poller's sleep
    | Observe(size: Option<Size>)    // GetSize
    | Send                           // resizeEvents <- size
    | Take                           // size := <-resizeEvents
    | Forward                        // resizeChan <- size, or not
    | Ask                            // Next is called
    | Stop                           // close(stopResizing)
    | ProducerStops | ForwarderStops // <-stopResizing

  function Init(): State {
    State(0, false, Idle, [], Waiting, [], false, [], false, [], 0)
  }

  predicate Running(c: Config, s: State) {
    s.primed == |c.initial|
  }

  predicate Enabled(c: Config, s: State, a: Step) {
    match a
    case Prime => s.primed < |c.initial| && (c.initial[s.primed].Some? ==> |s.queue| < |c.initial|)
    case Signal => Running(c, s) && !s.producer.Gone?
    case Observe(_) => Running(c, s) && s.producer.Idle? && s.signal
    case Send => Running(c, s) && s.producer.Got? && (!c.dropping ==> |s.events| < 1)
    case Take => Running(c, s) && s.forwarder.Waiting? && s.events != []
    case Forward => Running(c, s) && s.forwarder.Holding?
    case Ask => Running(c, s) && !s.asking
    case Stop => Running(c, s) && !s.stopped
    case ProducerStops => s.stopped && s.producer.Idle?
    case ForwarderStops => s.stopped && s.forwarder.Waiting?
  }

  function Do(c: Config, s: State, a: Step): State
    requires Enabled(c, s, a)
  {
    match a
    case Prime =>
      s.(primed := s.primed + 1,
         queue := s.queue + if c.initial[s.primed].Some? then [c.initial[s.primed].value] else [])
    case Signal => s.(signal := true)
    case Observe(None) => s.(signal := false, producer := Gone)
    case Observe(Some(size)) => s.(signal := false, producer := Got(size), observed := s.observed + [size])
    case Send =>
      if |s.events| < 1 then s.(producer := Idle, events := s.events + [s.producer.size])
      else s.(producer := Idle, lost := s.lost + 1)
    case Take => s.(forwarder := Holding(s.events[0]), events := s.events[1..])
    case Forward =>
      if s.asking then s.(forwarder := Waiting, asking := false, delivered := s.delivered + [s.forwarder.size])
      else if |s.queue| < |c.initial| then s.(forwarder := Waiting, queue := s.queue + [s.forwarder.size])
      else s.(forwarder := Waiting, lost := s.lost + 1)
    case Ask =>
      if s.queue != [] then s.(delivered := s.delivered + [s.queue[0]], queue := s.queue[1..])
      else s.(asking := true)
    case Stop => s.(stopped := true)
    case ProducerStops => s.(producer := Gone)
    case ForwarderStops => s.(forwarder := Stopped)
  }

  /** The state after a schedule, None if some step of it is not enabled. */
  function After(c: Config, steps: seq<Step>): Option<State> {
    if steps == [] then Some(Init())
    else
      var before := After(c, steps[..|steps| - 1]);
      if before.Some? && Enabled(c, before.value, steps[|steps| - 1]) then Some(Do(c, before.value, steps[|steps| - 1]))
      else None
  }

  function Given(initial: seq<Option<Size>>): (r: seq<Size>)
    ensures |r| <= |initial|
  {
    if initial == [] then []
    else Given(initial[..|initial| - 1])
         + if initial[|initial| - 1].Some? then [initial[|initial| - 1].value] else []
  }

  /** In or past resizeChan. */
  function Ahead(s: State): seq<Size> {
    s.delivered + s.queue
  }

  /** On the way to resizeChan. */
  function Behind(s: State): seq<Size> {
    (if s.forwarder.Holding? then [s.forwarder.size] else [])
    + s.events
    + (if s.producer.Got? then [s.producer.size] else [])
  }

  /** Everything on its way, oldest first. */
  function Flow(s: State): seq<Size> {
    Ahead(s) + Behind(s)
  }

  function Offered(c: Config, s: State): seq<Size>
    requires s.primed <= |c.initial|
  {
    Given(c.initial[..s.primed]) + s.observed
  }

  ghost predicate Inv(c: Config, s: State) {
    && Bounds(c, s)
    && Subsequence(Flow(s), Offered(c, s))
    && Given(c.initial[..s.primed]) <= Ahead(s)
    && |Flow(s)| + s.lost == |Offered(c, s)|
  }

  lemma {:induction false} Reached(c: Config, steps: seq<Step>)
    ensures var s := After(c, steps);
            s.Some? ==> Inv(c, s.value)
  {
    if steps == [] {
      PrefixIsSubsequence<Size>([], []);
    } else {
      Reached(c, steps[..|steps| - 1]);
      var s := After(c, steps[..|steps| - 1]);
      if s.Some? && Enabled(c, s.value, steps[|steps| - 1]) {
        StepKeeps(c, s.value, steps[|steps| - 1]);
      }
    }
  }

  /** Steps that only pass a size on, or have nothing to do with sizes. */
  predicate PassesOn(c: Config, s: State, a: Step) {
    match a
    case Prime => s.primed < |c.initial| && c.initial[s.primed].None?
    case Observe(size) => size.None?
    case Send => |s.events| < 1
    case Forward => s.asking || |s.queue| < |c.initial|
    case _ => true
  }

  /** The size that a step moves into resizeChan. */
  function Moving(s: State, a: Step): seq<Size> {
    if a.Forward? && s.forwarder.Holding? then [s.forwarder.size] else []
  }

  lemma AheadPassedOn(c: Config, s: State, a: Step)
    requires Enabled(c, s, a) && PassesOn(c, s, a) && (s.asking ==> s.queue == [])
    ensures Ahead(Do(c, s, a)) == Ahead(s) + Moving(s, a)
  {
  }

  lemma BehindMoves(c: Config, s: State, a: Step)
    requires Enabled(c, s, a) && PassesOn(c, s, a) && |s.events| <= 1
    requires a.Send? || a.Take? || a.Forward?
    ensures Behind(s) == Moving(s, a) + Behind(Do(c, s, a))
  {
    hide Running;
    match a
    case Send => assert s.events == [];
    case Take => assert s.events == [s.events[0]];
    case Forward =>
  }

  lemma BehindRests(c: Config, s: State, a: Step)
    requires Enabled(c, s, a) && PassesOn(c, s, a) && !a.Send? && !a.Take? && !a.Forward?
    ensures Behind(Do(c, s, a)) == Behind(s) && Moving(s, a) == []
  {
    hide Running;
  }

  lemma BehindPassedOn(c: Config, s: State, a: Step)
    requires Enabled(c, s, a) && PassesOn(c, s, a) && |s.events| <= 1
    ensures Behind(s) == Moving(s, a) + Behind(Do(c, s, a))
  {
    hide *;
    if a.Send? || a.Take? || a.Forward? {
      BehindMoves(c, s, a);
    } else {
      BehindRests(c, s, a);
    }
  }

  lemma CountsPassedOn(c: Config, s: State, a: Step)
    requires Enabled(c, s, a) && PassesOn(c, s, a)
    ensures Do(c, s, a).lost == s.lost && Do(c, s, a).observed == s.observed
    ensures Do(c, s, a).primed == if a.Prime? then s.primed + 1 else s.primed
  {
  }

  lemma FlowIs(s: State)
    ensures Flow(s) == Ahead(s) + Behind(s)
  {
  }

  lemma Regroup(a: seq<Size>, m: seq<Size>, b: seq<Size>)
    ensures a + (m + b) == (a + m) + b && a <= a + m
  {
  }

  lemma FlowPassedOn(c: Config, s: State, a: Step)
    requires Enabled(c, s, a) && PassesOn(c, s, a) && |s.events| <= 1 && (s.asking ==> s.queue == [])
    ensures Flow(Do(c, s, a)) == Flow(s) && Ahead(s) <= Ahead(Do(c, s, a))
  {
    hide *;
    AheadPassedOn(c, s, a);
    BehindPassedOn(c, s, a);
    FlowIs(s);
    FlowIs(Do(c, s, a));
    Regroup(Ahead(s), Moving(s, a), Behind(Do(c, s, a)));
  }

  /** Steps that lose a size: which one is lost. */
  lemma FlowLost(c: Config, s: State, a: Step)
    requires Enabled(c, s, a) && !PassesOn(c, s, a) && (a.Send? || a.Forward?)
    ensures var t, n := Do(c, s, a), if a.Send? then |Flow(s)| - 1 else |s.delivered| + |s.queue|;
            && 0 <= n < |Flow(s)| && Flow(t) == Flow(s)[..n] + Flow(s)[n + 1..]
            && t.delivered == s.delivered && t.queue == s.queue
            && t.lost == s.lost + 1 && t.observed == s.observed && t.primed == s.primed
  {
  }

  lemma FlowGrows(c: Config, s: State, a: Step, x: Size)
    requires Inv(c, s) && Enabled(c, s, a)
    requires a == Observe(Some(x)) || (a == Prime && c.initial[s.primed] == Some(x))
    ensures var t := Do(c, s, a);
            && t.primed <= |c.initial| && Flow(t) == Flow(s) + [x] && Offered(c, t) == Offered(c, s) + [x]
  {
    var t := Do(c, s, a);
    if a == Prime {
      assert c.initial[..s.primed + 1][..s.primed] == c.initial[..s.primed];
    }
  }

  lemma GivenGrows(c: Config, k: nat)
    requires k < |c.initial|
    ensures Given(c.initial[..k + 1]) == Given(c.initial[..k]) + if c.initial[k].Some? then [c.initial[k].value] else []
    ensures c.initial[k].None? ==> Given(c.initial[..k + 1]) == Given(c.initial[..k])
  {
    assert c.initial[..k + 1][..k] == c.initial[..k];
  }

  /** The bookkeeping part of the invariant. */
  ghost predicate Bounds(c: Config, s: State) {
    && s.primed <= |c.initial|
    && |s.events| <= 1
    && |s.queue| <= |c.initial|
    && (s.asking ==> s.queue == [])
    && (!Running(c, s) ==>
          && s.delivered == [] && |s.queue| <= s.primed && s.observed == [] && s.events == []
          && s.producer.Idle? && s.forwarder.Waiting? && !s.signal && !s.stopped && !s.asking)
  }

  lemma BoundsKept(c: Config, s: State, a: Step)
    requires Bounds(c, s) && Enabled(c, s, a)
    ensures Bounds(c, Do(c, s, a))
  {
  }

  lemma PrimedExactly(c: Config, s: State)
    requires Inv(c, s) && !Running(c, s)
    ensures Ahead(s) == Given(c.initial[..s.primed])
  {
  }

  lemma PrimeKeeps(c: Config, s: State)
    requires Inv(c, s) && Enabled(c, s, Prime)
    ensures Given(c.initial[..s.primed + 1]) == Ahead(Do(c, s, Prime))
  {
    GivenGrows(c, s.primed);
    PrimedExactly(c, s);
    hide Given;
    hide Flow;
  }

  lemma AheadKept(c: Config, s: State, a: Step)
    requires Enabled(c, s, a) && !PassesOn(c, s, a) && !a.Prime?
    ensures Ahead(Do(c, s, a)) == Ahead(s) && Do(c, s, a).primed == s.primed
  {
  }

  lemma GivenKept(c: Config, s: State, a: Step)
    requires Inv(c, s) && Enabled(c, s, a)
    ensures var t := Do(c, s, a);
            t.primed <= |c.initial| && Given(c.initial[..t.primed]) <= Ahead(t)
  {
    var before := Ahead(s);
    hide Given;
    hide Ahead;
    hide Flow;
    if a.Prime? {
      PrimeKeeps(c, s);
    } else {
      hide Do;
      if PassesOn(c, s, a) {
        FlowPassedOn(c, s, a);
        CountsPassedOn(c, s, a);
      } else {
        AheadKept(c, s, a);
      }
    }
  }

  lemma SubsequenceKept(c: Config, s: State, a: Step)
    requires Inv(c, s) && Enabled(c, s, a) && Do(c, s, a).primed <= |c.initial|
    ensures var t := Do(c, s, a);
            Subsequence(Flow(t), Offered(c, t)) && |Flow(t)| + t.lost == |Offered(c, t)|
  {
    hide Flow;
    hide Given;
    if PassesOn(c, s, a) {
      FlowPassedOn(c, s, a);
      CountsPassedOn(c, s, a);
      if a.Prime? { GivenGrows(c, s.primed); }
    } else if a.Send? || a.Forward? {
      FlowLost(c, s, a);
      SubsequenceDrop(Flow(s), Offered(c, s), if a.Send? then |Flow(s)| - 1 else |s.delivered| + |s.queue|);
    } else {
      var x := if a.Prime? then c.initial[s.primed].value else a.size.value;
      FlowGrows(c, s, a, x);
      SubsequenceSnoc(Flow(s), Offered(c, s), x);
    }
  }

  lemma StepKeeps(c: Config, s: State, a: Step)
    requires Inv(c, s) && Enabled(c, s, a)
    ensures Inv(c, Do(c, s, a))
  {
    BoundsKept(c, s, a);
    GivenKept(c, s, a);
    SubsequenceKept(c, s, a);
  }

  /** What Next has returned, and what is still under way, is an order-preserving selection of what was offered. */
  lemma OrderKept(c: Config, steps: seq<Step>)
    ensures var s := After(c, steps);
            s.Some? ==>
              && s.value.primed <= |c.initial|
              && Subsequence(Flow(s.value), Offered(c, s.value))
              && |Flow(s.value)| + s.value.lost == |Offered(c, s.value)|
  {
    Reached(c, steps);
  }

  /** No initial size is ever dropped or overtaken. */
  lemma InitialSizesFirst(c: Config, steps: seq<Step>)
    ensures var s := After(c, steps);
            s.Some? && Running(c, s.value) ==> Given(c.initial) <= s.value.delivered + s.value.queue
  {
    Reached(c, steps);
    assert c.initial[..|c.initial|] == c.initial;
  }

  /** Priming never blocks: the channel has room for every initial size. */
  lemma PrimingNeverBlocks(c: Config, steps: seq<Step>)
    ensures var s := After(c, steps);
            s.Some? && s.value.primed < |c.initial| ==> Enabled(c, s.value, Prime)
  {
    Reached(c, steps);
  }

  /** A size is lost only to a full channel that nobody is reading from. */
  lemma LossNeedsFullChannel(c: Config, steps: seq<Step>, a: Step)
    ensures var s := After(c, steps);
            s.Some? && Enabled(c, s.value, a) && Do(c, s.value, a).lost != s.value.lost ==>
              || (a.Send? && c.dropping && |s.value.events| == 1)
              || (a.Forward? && !s.value.asking && |s.value.queue| == |c.initial|)
  {
    Reached(c, steps);
  }

  /**
   Once the forwarder has stopped, Next returns only what is queued already;
   when that is used up, a consumer in Next stays there for good.
   */
  lemma {:induction false} NextBlocks(c: Config, steps: seq<Step>, more: seq<Step>)
    requires After(c, steps).Some? && After(c, steps).value.forwarder.Stopped?
    ensures var s, t := After(c, steps).value, After(c, steps + more);
            t.Some? ==>
              && t.value.forwarder.Stopped? && Ahead(t.value) == Ahead(s)
              && s.delivered <= t.value.delivered
              && (s.asking ==> t.value.asking && t.value.delivered == s.delivered)
    decreases |more|
  {
    if more == [] {
      assert steps + more == steps;
    } else {
      var front := more[..|more| - 1];
      NextBlocks(c, steps, front);
      assert (steps + more)[..|steps + more| - 1] == steps + front;
      if After(c, steps + more).Some? {
        Reached(c, steps + front);
        StoppedStep(c, After(c, steps + front).value, more[|more| - 1]);
      }
    }
  }

  lemma StoppedStep(c: Config, s: State, a: Step)
    requires Bounds(c, s) && s.forwarder.Stopped? && Enabled(c, s, a)
    ensures var t := Do(c, s, a);
            && t.forwarder.Stopped? && Ahead(t) == Ahead(s) && s.delivered <= t.delivered
            && (s.asking ==> t.asking && t.delivered == s.delivered)
  {
  }

  // ----------------------------------------------------------------- progress

  /**
   A forwarder that holds a size can put it down whatever the channels hold,
   stopped or not: to a consumer in Next first, else into the queue, else it is
   lost to a full one.
   */
  lemma CanPutDown(c: Config, steps: seq<Step>)
    ensures var r := After(c, steps);
            r.Some? && r.value.forwarder.Holding? ==>
              var s := r.value;
              && Enabled(c, s, Forward)
              && var t, x := Do(c, s, Forward), s.forwarder.size;
                 && t.forwarder == Waiting
                 && (s.asking ==>
                       t.delivered == s.delivered + [x] && !t.asking && t.queue == s.queue && t.lost == s.lost)
                 && (!s.asking && |s.queue| < |c.initial| ==> t.queue == s.queue + [x] && t.lost == s.lost)
                 && (!s.asking && |s.queue| == |c.initial| ==> t.queue == s.queue && t.lost == s.lost + 1)
                 && (!s.asking ==> t.delivered == s.delivered)
  {
    Reached(c, steps);
  }

  /** A running forwarder takes what is pending; a producer always finishes its send on Unix, on Windows given room. */
  lemma CanMoveOn(c: Config, steps: seq<Step>)
    ensures var r := After(c, steps);
            r.Some? ==>
              var s := r.value;
              && (s.forwarder.Waiting? && s.events != [] ==>
                    && Enabled(c, s, Take)
                    && Do(c, s, Take).forwarder == Holding(s.events[0]) && Do(c, s, Take).events == s.events[1..])
              && (s.producer.Got? ==>
                    && (Enabled(c, s, Send) <==> c.dropping || s.events == [])
                    && (s.events == [] ==>
                          Do(c, s, Send).events == [s.producer.size] && Do(c, s, Send).producer == Idle))
  {
    Reached(c, steps);
  }

  /** A producer told of a change obtains the size, whatever it is, or ends if there is no terminal. */
  lemma CanObserve(c: Config, steps: seq<Step>, size: Option<Size>)
    ensures var r := After(c, steps);
            r.Some? && r.value.primed == |c.initial| && r.value.producer.Idle? ==>
              var s := r.value;
              && Enabled(c, s, Signal) && Do(c, s, Signal).signal
              && (s.signal ==>
                    && Enabled(c, s, Observe(size))
                    && var t := Do(c, s, Observe(size));
                       if size.Some? then t.producer == Got(size.value) && t.observed == s.observed + [size.value]
                       else t.producer == Gone && t.observed == s.observed)
  {
    Reached(c, steps);
  }

  /** Next can be called once it has returned, and returns the oldest queued size at once if there is one. */
  lemma CanAsk(c: Config, steps: seq<Step>)
    ensures var r := After(c, steps);
            r.Some? && r.value.primed == |c.initial| && !r.value.asking ==>
              var s := r.value;
              && Enabled(c, s, Ask)
              && var t := Do(c, s, Ask);
                 if s.queue == [] then t.asking && t.delivered == s.delivered
                 else !t.asking && t.delivered == s.delivered + [s.queue[0]] && t.queue == s.queue[1..]
  {
    Reached(c, steps);
  }

  lemma StopFirstStep(c: Config, s: State, a: Step)
    requires Enabled(c, s, a) && (s.forwarder.Stopped? ==> s.stopped)
    ensures Do(c, s, a).forwarder.Stopped? ==> Do(c, s, a).stopped
  {
  }

  lemma {:induction false} StopFirst(c: Config, steps: seq<Step>)
    ensures var r := After(c, steps);
            r.Some? && r.value.forwarder.Stopped? ==> r.value.stopped
  {
    if steps != [] {
      var front, last := steps[..|steps| - 1], steps[|steps| - 1];
      StopFirst(c, front);
      hide Do;
      hide Enabled;
      if After(c, steps).Some? {
        StopFirstStep(c, After(c, front).value, last);
      }
    }
  }

  /** Monitoring can be stopped once, and then each goroutine that has nothing in hand can end; neither does before. */
  lemma CanStop(c: Config, steps: seq<Step>)
    ensures var r := After(c, steps);
            r.Some? ==>
              var s := r.value;
              && (s.primed == |c.initial| && !s.stopped ==> Enabled(c, s, Stop) && Do(c, s, Stop).stopped)
              && (s.stopped && s.forwarder.Waiting? ==>
                    Enabled(c, s, ForwarderStops) && Do(c, s, ForwarderStops).forwarder == Stopped)
              && (s.stopped && s.producer.Idle? ==>
                    Enabled(c, s, ProducerStops) && Do(c, s, ProducerStops).producer == Gone)
              && (s.forwarder.Stopped? ==> s.stopped)
  {
    hide After;
    StopFirst(c, steps);
  }

  /** Moves left for the sizes on the way. */
  function Pending(s: State): nat {
    (if s.producer.Got? then 3 else 0) + 2 * |s.events| + if s.forwarder.Holding? then 1 else 0
  }

  predicate Carries(a: Step) {
    a.Send? || a.Take? || a.Forward?
  }

  /**
   Until the forwarder has stopped, sizes on the way keep moving: one of the
   moves is enabled, each of them leaves fewer to make, and none is left
   exactly when nothing is on the way.
   */
  lemma SizesMoveOn(c: Config, steps: seq<Step>, a: Step)
    ensures var r := After(c, steps);
            r.Some? ==>
              var s := r.value;
              && (Pending(s) == 0 <==> Behind(s) == [])
              && (Behind(s) != [] && !s.forwarder.Stopped? ==> exists b :: Carries(b) && Enabled(c, s, b))
              && (Carries(a) && Enabled(c, s, a) ==> Pending(Do(c, s, a)) < Pending(s))
  {
    Reached(c, steps);
    var r := After(c, steps);
    if r.Some? && Behind(r.value) != [] && !r.value.forwarder.Stopped? {
      var s := r.value;
      assert Enabled(c, s, if s.forwarder.Holding? then Forward else if s.events != [] then Take else Send);
    }
  }

  /** One step of a run in which the consumer waits and x is the oldest size on the way. */
  lemma OldestStep(c: Config, s: State, a: Step)
    requires Bounds(c, s) && Enabled(c, s, a) && s.asking && Behind(s) != []
    ensures var t := Do(c, s, a);
            || (t.asking && t.delivered == s.delivered && Behind(t) != [] && Behind(t)[0] == Behind(s)[0])
            || t.delivered == s.delivered + [Behind(s)[0]]
  {
  }

  lemma DeliveredGrows(c: Config, s: State, a: Step)
    requires Enabled(c, s, a)
    ensures s.delivered <= Do(c, s, a).delivered
  {
  }

  /** While the consumer waits, the oldest size on the way is the next one it gets. */
  lemma {:induction false} OldestNext(c: Config, steps: seq<Step>, more: seq<Step>)
    requires After(c, steps).Some? && After(c, steps).value.asking && Behind(After(c, steps).value) != []
    ensures var s, r := After(c, steps).value, After(c, steps + more);
            r.Some? ==>
              || (r.value.asking && r.value.delivered == s.delivered
                  && Behind(r.value) != [] && Behind(r.value)[0] == Behind(s)[0])
              || s.delivered + [Behind(s)[0]] <= r.value.delivered
    decreases |more|
  {
    if more == [] {
      assert steps + more == steps;
    } else {
      var front := more[..|more| - 1];
      assert (steps + more)[..|steps + more| - 1] == steps + front;
      OldestNext(c, steps, front);
      hide Behind;
      if After(c, steps + more).Some? {
        var mid, a := After(c, steps + front).value, more[|more| - 1];
        Reached(c, steps + front);
        hide Do;
        hide Enabled;
        DeliveredGrows(c, mid, a);
        if mid.asking && mid.delivered == After(c, steps).value.delivered && Behind(mid) != [] {
          OldestStep(c, mid, a);
        }
      }
    }
  }

  predicate Usable(size: Size) {
    size.height >= 1 && size.width >= 1
  }

  function UsableSizes(sizes: seq<Size>): seq<Size> {
    if sizes == [] then []
    else UsableSizes(sizes[..|sizes| - 1]) + if Usable(sizes[|sizes| - 1]) then [sizes[|sizes| - 1]] else []
  }

  /** The agent's end: the sizes the resize function is called with. */
  method HandleResizing(resize: seq<Size>) returns (calls: seq<Size>)
    ensures calls == UsableSizes(resize)
  {
    calls := [];
    for i := 0 to |resize|
      invariant calls == UsableSizes(resize[..i])
    {
      assert resize[..i + 1][..i] == resize[..i];
      if resize[i].height < 1 || resize[i].width < 1 {
        continue;
      }
      calls := calls + [resize[i]];
    }
    assert resize[..|resize|] == resize;
  }

  lemma {:induction false} UsableSizesSubsequence(sizes: seq<Size>)
    ensures Subsequence(UsableSizes(sizes), sizes)
    ensures forall i :: 0 <= i < |UsableSizes(sizes)| ==> Usable(UsableSizes(sizes)[i])
    ensures forall i :: 0 <= i < |UsableSizes(sizes)| ==>
              UsableSizes(sizes)[i].width >= 1 && UsableSizes(sizes)[i].height >= 1
    ensures forall x :: x in sizes && x.width >= 1 && x.height >= 1 ==> x in UsableSizes(sizes)
  {
    if sizes == [] {
      PrefixIsSubsequence<Size>([], []);
    } else {
      var front, last := sizes[..|sizes| - 1], sizes[|sizes| - 1];
      UsableSizesSubsequence(front);
      SubsequenceSnoc(UsableSizes(front), front, last);
      assert front + [last] == sizes;
      assert UsableSizes(sizes) == if Usable(last) then UsableSizes(front) + [last] else UsableSizes(front);
      forall x | x in sizes && x.width >= 1 && x.height >= 1 ensures x in UsableSizes(sizes) {
        assert x == last || x in front;
      }
    }
  }

  /** The sizes with a zero are the only ones left out, however often a size occurs. */
  lemma {:induction false} UsableSizesCount(sizes: seq<Size>, x: Size)
    ensures Count(UsableSizes(sizes), x) == if x.width >= 1 && x.height >= 1 then Count(sizes, x) else 0
  {
    hide UsableSizes;
    hide Count;
    if sizes == [] {
      NoneUsable(x);
    } else {
      var front, last := sizes[..|sizes| - 1], sizes[|sizes| - 1];
      UsableSizesCount(front, x);
      UsableSnoc(front, last);
      assert front + [last] == sizes;
      CountSnoc(UsableSizes(front), last, x);
      CountSnoc(front, last, x);
    }
  }

  lemma NoneUsable(x: Size)
    ensures Count(UsableSizes([]), x) == 0 && Count<Size>([], x) == 0
  {
  }

  lemma UsableSnoc(front: seq<Size>, last: Size)
    ensures UsableSizes(front + [last]) ==
            if last.width >= 1 && last.height >= 1 then UsableSizes(front) + [last] else UsableSizes(front)
  {
    assert (front + [last])[..|front|] == front;
    assert UsableSizes(front) + [] == UsableSizes(front);
  }

  /**
   End to end: if the agent has received some prefix of what Next returned, the
   sizes it applied are usable, and an order-preserving selection of what the
   client was offered.
   */
  lemma AppliedSizes(c: Config, steps: seq<Step>, received: seq<Size>)
    ensures var s := After(c, steps);
            s.Some? && received <= s.value.delivered ==>
              && s.value.primed <= |c.initial|
              && Subsequence(UsableSizes(received), Offered(c, s.value))
              && forall i :: 0 <= i < |UsableSizes(received)| ==> Usable(UsableSizes(received)[i])
  {
    var s := After(c, steps);
    if s.Some? && received <= s.value.delivered {
      Reached(c, steps);
      UsableSizesSubsequence(received);
      hide *;
      ReceivedIsSubsequence(c, s.value, received);
      SubsequenceTrans(UsableSizes(received), received, Offered(c, s.value));
    }
  }

  lemma ReceivedIsSubsequence(c: Config, s: State, received: seq<Size>)
    requires Inv(c, s) && received <= s.delivered
    ensures s.primed <= |c.initial| && Subsequence(received, Offered(c, s))
  {
    Regroup(s.delivered, s.queue, Behind(s));
    assert received <= Flow(s);
    hide Flow;
    PrefixIsSubsequence(received, Flow(s));
    SubsequenceTrans(received, Flow(s), Offered(c, s));
  }

  // ------------------------------------------------------- the Windows poller

  /** Equal neighbours merged. */
  function Compress(s: seq<Size>): seq<Size> {
    if |s| <= 1 then s
    else
      var c := Compress(s[..|s| - 1]);
      if s[|s| - 1] == s[|s| - 2] then c else c + [s[|s| - 1]]
  }

  predicate NoStutter(s: seq<Size>) {
    forall i :: 0 < i < |s| ==> s[i] != s[i - 1]
  }

  /** Compress keeps the first and the last element and has nothing twice in a row. */
  lemma {:induction false} CompressIs(s: seq<Size>)
    ensures NoStutter(Compress(s))
    ensures s != [] ==> Compress(s) != [] && Compress(s)[|Compress(s)| - 1] == s[|s| - 1] && Compress(s)[0] == s[0]
  {
    if |s| > 1 {
      CompressIs(s[..|s| - 1]);
    }
  }

  /** It keeps the order and every value. */
  lemma {:induction false} CompressSelects(s: seq<Size>, x: Size)
    ensures Subsequence(Compress(s), s)
    ensures x in s <==> x in Compress(s)
  {
    if |s| <= 1 {
      PrefixIsSubsequence(s, s);
    } else {
      var front, last := s[..|s| - 1], s[|s| - 1];
      CompressSelects(front, x);
      SubsequenceSnoc(Compress(front), front, last);
      assert front + [last] == s;
      assert last == s[|s| - 2] ==> last == front[|front| - 1];
    }
  }

  /** Only stuttering input is changed. */
  lemma {:induction false} CompressFixes(s: seq<Size>)
    ensures NoStutter(s) <==> Compress(s) == s
  {
    CompressIs(s);
    if |s| > 1 && NoStutter(s) {
      CompressFixes(s[..|s| - 1]);
      assert s[..|s| - 1] + [s[|s| - 1]] == s;
    }
  }

  /** One turn of the polling loop: whether stop is seen closed, and what GetSize then says. */
  datatype Turn = Turn(stop: bool, size: Option<Size>)

  datatype PollEnd = Polling | PollStopped | NoTerminal | Blocked(size: Size)

  function Polled(first: Size, turns: seq<Turn>): seq<Size>
    requires forall i :: 0 <= i < |turns| ==> turns[i].size.Some?
  {
    if turns == [] then [first] else Polled(first, turns[..|turns| - 1]) + [turns[|turns| - 1].size.value]
  }

  /** The first size, then one for each turn. */
  lemma {:induction false} PolledIs(first: Size, turns: seq<Turn>)
    requires forall i :: 0 <= i < |turns| ==> turns[i].size.Some?
    ensures |Polled(first, turns)| == 1 + |turns| && Polled(first, turns)[0] == first
    ensures forall i :: 0 <= i < |turns| ==> Polled(first, turns)[i + 1] == turns[i].size.value
  {
    if turns != [] {
      PolledIs(first, turns[..|turns| - 1]);
    }
  }

  /** What Compress is: a size is added unless it equals the one before. */
  lemma CompressSnoc(s: seq<Size>, x: Size)
    requires s != []
    ensures Compress([]) == [] && Compress([x]) == [x]
    ensures Compress(s + [x]) == Compress(s) + if x == s[|s| - 1] then [] else [x]
  {
  }

  /** One more poll appends its size to the compressed polls unless it equals their last. */
  lemma CompressPolled(first: Size, turns: seq<Turn>, i: nat)
    requires i < |turns| && forall j :: 0 <= j <= i ==> turns[j].size.Some?
    ensures var c, x := Compress(Polled(first, turns[..i])), turns[i].size.value;
            c != [] && Compress(Polled(first, turns[..i + 1])) == c + if x == c[|c| - 1] then [] else [x]
  {
    assert turns[..i + 1][..i] == turns[..i];
    assert Polled(first, turns[..i]) != [];
    CompressIs(Polled(first, turns[..i]));
    CompressSnoc(Polled(first, turns[..i]), turns[i].size.value);
    hide Compress;
  }

  lemma NoStutterSnoc(s: seq<Size>, x: Size)
    requires NoStutter(s) && s != [] && x != s[|s| - 1]
    ensures NoStutter(s + [x])
  {
  }

  /** All polls of the first turns have been dealt with: emitted, or equal to the poll before. */
  ghost predicate UpToDate(first: Size, turns: seq<Turn>, done: nat, emitted: seq<Size>, lastSize: Size) {
    && done <= |turns|
    && (forall i :: 0 <= i < done ==> !turns[i].stop && turns[i].size.Some?)
    && Compress(Polled(first, turns[..done])) == [first] + emitted
    && NoStutter([first] + emitted)
    && lastSize == ([first] + emitted)[|emitted|]
  }

  lemma UpToDateStart(first: Size, turns: seq<Turn>)
    ensures UpToDate(first, turns, 0, [], first)
  {
  }

  lemma UpToDateStep(first: Size, turns: seq<Turn>, done: nat, emitted: seq<Size>, lastSize: Size)
    requires UpToDate(first, turns, done, emitted, lastSize)
    requires done < |turns| && !turns[done].stop && turns[done].size.Some?
    ensures var x := turns[done].size.value;
            UpToDate(first, turns, done + 1, if x == lastSize then emitted else emitted + [x], x)
  {
    hide Compress;
    hide Polled;
    hide NoStutter;
    var x := turns[done].size.value;
    var next := if x == lastSize then emitted else emitted + [x];
    CompressPolled(first, turns, done);
    if x != lastSize {
      NoStutterSnoc([first] + emitted, x);
    }
    assert [first] + next == if x == lastSize then [first] + emitted else ([first] + emitted) + [x];
    assert ([first] + next)[|next|] == x;
  }

  /**
   How polling ends: the first size and the emitted ones together are the
   polled sizes with equal neighbours merged, except for a size whose send
   blocks.
   */
  ghost predicate PollResult(first: Size, turns: seq<Turn>, room: nat, emitted: seq<Size>, done: nat, end: PollEnd) {
    && done <= |turns|
    && (forall i :: 0 <= i < done ==> !turns[i].stop && turns[i].size.Some?)
    && NoStutter([first] + emitted)
    && |emitted| <= room
    && Compress(Polled(first, turns[..done])) == [first] + emitted + (if end.Blocked? then [end.size] else [])
    && match end
       case Polling => done == |turns|
       case PollStopped => done < |turns| && turns[done].stop
       case NoTerminal => done < |turns| && !turns[done].stop && turns[done].size.None?
       case Blocked(x) => done > 0 && turns[done - 1].size == Some(x) && |emitted| == room
  }

  lemma EndUpToDate(first: Size, turns: seq<Turn>, room: nat, emitted: seq<Size>, done: nat, end: PollEnd,
                    lastSize: Size)
    requires UpToDate(first, turns, done, emitted, lastSize) && |emitted| <= room
    requires match end
             case Polling => done == |turns|
             case PollStopped => done < |turns| && turns[done].stop
             case NoTerminal => done < |turns| && !turns[done].stop && turns[done].size.None?
             case Blocked(x) => false
    ensures PollResult(first, turns, room, emitted, done, end)
  {
  }

  lemma EndBlocked(first: Size, turns: seq<Turn>, emitted: seq<Size>, done: nat, lastSize: Size)
    requires UpToDate(first, turns, done, emitted, lastSize)
    requires done < |turns| && !turns[done].stop && turns[done].size.Some? && turns[done].size.value != lastSize
    ensures PollResult(first, turns, |emitted|, emitted, done + 1, Blocked(turns[done].size.value))
  {
    CompressPolled(first, turns, done);
    hide Compress;
    hide Polled;
    hide NoStutter;
  }

  /** The polling loop; `room` sends can complete before one blocks for good. */
  method Poll(first: Size, turns: seq<Turn>, room: nat) returns (emitted: seq<Size>, done: nat, end: PollEnd)
    ensures PollResult(first, turns, room, emitted, done, end)
  {
    hide *;
    emitted, done := [], 0;
    var lastSize := first;
    UpToDateStart(first, turns);
    while done < |turns|
      invariant done <= |turns| && |emitted| <= room
      invariant UpToDate(first, turns, done, emitted, lastSize)
    {
      if turns[done].stop {
        EndUpToDate(first, turns, room, emitted, done, PollStopped, lastSize);
        return emitted, done, PollStopped;
      }
      if turns[done].size.None? {
        EndUpToDate(first, turns, room, emitted, done, NoTerminal, lastSize);
        return emitted, done, NoTerminal;
      }
      var size := turns[done].size.value;
      UpToDateStep(first, turns, done, emitted, lastSize);
      if size.height != lastSize.height || size.width != lastSize.width {
        if |emitted| == room {
          EndBlocked(first, turns, emitted, done, lastSize);
          return emitted, done + 1, Blocked(size);
        }
        lastSize := size;
        emitted := emitted + [size];
      }
      done := done + 1;
    }
    EndUpToDate(first, turns, room, emitted, done, Polling, lastSize);
    return emitted, done, Polling;
  }

  /** The poller as a whole: it gives up at once if there is no terminal to begin with. */
  method MonitorByPolling(first: Option<Size>, turns: seq<Turn>, room: nat)
    returns (emitted: seq<Size>, done: nat, end: PollEnd)
    ensures first.None? ==> emitted == [] && done == 0 && end == NoTerminal
    ensures first.Some? ==> PollResult(first.value, turns, room, emitted, done, end)
    ensures first.Some? ==>
              && done <= |turns| && (forall i :: 0 <= i < done ==> !turns[i].stop && turns[i].size.Some?)
              && Compress(Polled(first.value, turns[..done])) ==
                 [first.value] + emitted + if end.Blocked? then [end.size] else []
    ensures end.Polling? ==> done == |turns|
    ensures end.PollStopped? ==> done < |turns| && turns[done].stop
    ensures first.Some? && end.NoTerminal? ==> done < |turns| && !turns[done].stop && turns[done].size.None?
    ensures end.Blocked? ==> done > 0 && turns[done - 1].size == Some(end.size) && |emitted| == room
    ensures |emitted| <= room
  {
    if first.None? {
      return [], 0, NoTerminal;
    }
    emitted, done, end := Poll(first.value, turns, room);
  }
}
