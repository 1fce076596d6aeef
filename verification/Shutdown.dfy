/**
 Re-entrant shutdown of the multi-process executor, as a timed state machine.

 Any number of threads may call shutdown, and the worker monitor may call it too. Each move below
 is one uninterrupted stretch of the code; moves of different threads interleave freely. Time
 passes only in Tick, and the termination ladder (grace period, SIGTERM wait, SIGKILL) is the one
 thing with a deadline.
 */
module Shutdown {
  import opened Options

  const SIGTERM_WAIT: real := 4.0
  const JOIN_SLACK: real := 5.0

  /** The longest _ensure_worker_termination takes: the grace period, then the wait after SIGTERM. */
  function LadderBound(grace: real): real { grace + SIGTERM_WAIT }

  /** _termination_join_timeout_s. */
  function JoinTimeout(grace: real): real { grace + SIGTERM_WAIT + JOIN_SLACK }

  /** Why a caller that went through got to the final cleanup. */
  datatype Why = AsFirst | EventSeen | TimedOut(since: real)

  datatype Pc =
    | Idle                      // may call shutdown at any time
    | Watching                  // the monitor, waiting on the worker sentinels
    | Failing                   // the monitor, after a worker died
    | Notifying                 // the monitor, with the callback in hand and the field cleared
    | Dismissed                 // the monitor, having seen a shutdown under way
    | ClosingWriters | MarkingResponse | MarkingWorkers | BeforeLadder | InLadder | WithoutWorkers
    | Checking | Waiting(since: real)
    | Tail(why: Why) | Done(why: Why)
    | Raised

  datatype Thread = Thread(pc: Pc, held: Option<nat>)

  datatype Ladder = NotStarted | Running(start: real) | Ended(start: real, end: real, raised: bool)

  datatype Globals = Globals(
    now: real,
    hasWorkers: bool,
    shuttingDown: bool,
    terminated: Option<nat>,    // the event object, once created
    created: nat,               // event objects created so far
    isSet: set<nat>,            // events that have been set
    first: Option<nat>,         // the thread that found shuttingDown false
    writersClosed: bool, responseMarked: bool, workersMarked: bool, broadcastClosed: bool,
    ladder: Ladder,
    callback: bool,             // failure_callback is still present
    callbackRuns: nat)

  datatype State = State(g: Globals, threads: seq<Thread>)

  datatype Move =
    | Enter | CloseWriters | MarkResponse | MarkWorkers | StartLadder | EndLadder(raises: bool)
    | SetWithoutWorkers | Fault | Check | WakeSet | WakeTimeout | Cleanup
    | WorkerDied | TakeCallback | RunCallback

  datatype Event = By(t: nat, move: Move) | Tick(elapsed: real)

  /******* One thread's moves *******/

  predicate CanMove(grace: real, g: Globals, th: Thread, m: Move)
  {
    match m
    case Enter => th.pc.Idle?
    case CloseWriters => th.pc.ClosingWriters?
    case MarkResponse => th.pc.MarkingResponse?
    case MarkWorkers => th.pc.MarkingWorkers?
    case StartLadder => th.pc.BeforeLadder?
    case EndLadder(_) => th.pc.InLadder? && th.held.Some?
    case SetWithoutWorkers => th.pc.WithoutWorkers? && th.held.Some?
    case Fault => th.pc.ClosingWriters? || th.pc.MarkingResponse? || th.pc.MarkingWorkers?
    case Check => th.pc.Checking? && th.held.Some?
    case WakeSet => th.pc.Waiting? && th.held.Some? && th.held.value in g.isSet
    case WakeTimeout => th.pc.Waiting? && g.now >= th.pc.since + JoinTimeout(grace)
    case Cleanup => th.pc.Tail?
    case WorkerDied => th.pc.Watching?
    case TakeCallback => th.pc.Failing?
    case RunCallback => th.pc.Notifying?
  }

  /** The locked section: share or create the event and decide who is first, both at once. */
  function Entered(g: Globals, t: nat): (r: (Globals, Thread))
  {
    var event := if g.terminated.Some? then g.terminated.value else g.created;
    var g' := g.(terminated := Some(event), created := if g.terminated.Some? then g.created else g.created + 1);
    if g.shuttingDown then (g', Thread(Checking, Some(event)))
    else (g'.(shuttingDown := true, first := Some(t)),
          Thread(if g.hasWorkers then ClosingWriters else WithoutWorkers, Some(event)))
  }

  function Moved(grace: real, g: Globals, t: nat, th: Thread, m: Move): (r: (Globals, Thread))
    requires CanMove(grace, g, th, m)
  {
    match m
    case Enter => Entered(g, t)
    case CloseWriters => (g.(writersClosed := true), th.(pc := MarkingResponse))
    case MarkResponse => (g.(responseMarked := true), th.(pc := MarkingWorkers))
    case MarkWorkers => (g.(workersMarked := true), th.(pc := BeforeLadder))
    case StartLadder => (g.(ladder := Running(g.now)), th.(pc := InLadder))
    case EndLadder(raises) =>
      // `finally` sets the event either way; only a normal return reaches the cleanup.
      (g.(isSet := g.isSet + {th.held.value},
        ladder := Ended(if g.ladder.Running? then g.ladder.start else g.now, g.now, raises)),
       th.(pc := if raises then Raised else Tail(AsFirst)))
    case SetWithoutWorkers => (g.(isSet := g.isSet + {th.held.value}), th.(pc := Tail(AsFirst)))
    case Fault => (g, th.(pc := Raised))
    case Check => (g, th.(pc := if th.held.value in g.isSet then Tail(EventSeen) else Waiting(g.now)))
    case WakeSet => (g, th.(pc := Tail(EventSeen)))
    case WakeTimeout => (g, th.(pc := Tail(TimedOut(th.pc.since))))
    case Cleanup => (g.(broadcastClosed := true, responseMarked := true), th.(pc := Done(th.pc.why)))
    case WorkerDied => (g, th.(pc := if g.shuttingDown then Dismissed else Failing))
    case TakeCallback => (g.(callback := false), th.(pc := if g.callback then Notifying else Idle))
    case RunCallback => (g.(callbackRuns := g.callbackRuns + 1), th.(pc := Idle))
  }

  /******* The whole machine *******/

  predicate Enabled(grace: real, s: State, e: Event)
  {
    match e
    case By(t, m) => t < |s.threads| && CanMove(grace, s.g, s.threads[t], m)
    case Tick(elapsed) =>
      elapsed > 0.0 && (s.g.ladder.Running? ==> s.g.now + elapsed <= s.g.ladder.start + LadderBound(grace))
  }

  function Next(grace: real, s: State, e: Event): State
    requires Enabled(grace, s, e)
  {
    match e
    case By(t, m) => var (g', th') := Moved(grace, s.g, t, s.threads[t], m); State(g', s.threads[t := th'])
    case Tick(elapsed) => s.(g := s.g.(now := s.g.now + elapsed))
  }

  ghost predicate Init(s: State)
  {
    && s.g == Globals(0.0, s.g.hasWorkers, false, None, 0, {}, None, false, false, false, false, NotStarted,
                      s.g.callback, 0)
    && forall t | 0 <= t < |s.threads| ::
         s.threads[t].held.None? && (s.threads[t].pc.Idle? || (t == 0 && s.threads[t].pc.Watching?))
  }

  ghost predicate Possible(grace: real, s: State, events: seq<Event>)
    decreases |events|
  {
    events != [] ==> Enabled(grace, s, events[0]) && Possible(grace, Next(grace, s, events[0]), events[1..])
  }

  function After(grace: real, s: State, events: seq<Event>): State
    requires Possible(grace, s, events)
    decreases |events|
  {
    if events == [] then s else After(grace, Next(grace, s, events[0]), events[1..])
  }

  /******* What holds in every reachable state *******/

  predicate OnFirstPath(pc: Pc)
  {
    pc.ClosingWriters? || pc.MarkingResponse? || pc.MarkingWorkers? || pc.BeforeLadder? || pc.InLadder?
      || pc.WithoutWorkers?
    || ((pc.Tail? || pc.Done?) && pc.why.AsFirst?)
  }

  predicate OnLaterPath(pc: Pc)
  {
    pc.Checking? || pc.Waiting? || ((pc.Tail? || pc.Done?) && !pc.why.AsFirst?)
  }

  /** Before shutdown, or dismissed from the watch. */
  predicate OffPath(pc: Pc) { pc.Idle? || pc.Watching? || pc.Failing? || pc.Notifying? || pc.Dismissed? }

  ghost predicate GlobalInv(grace: real, g: Globals)
  {
    // one event object, created by the first caller under the lock
    && (if g.shuttingDown then g.terminated == Some(0) && g.created == 1 else g.terminated.None? && g.created == 0)
    && (g.shuttingDown <==> g.first.Some?)
    && (!g.shuttingDown ==> g.ladder.NotStarted?)
    && g.isSet <= {0}
    // the exit signal, then the response queues, then the worker queues, then the ladder, then the event
    && (g.workersMarked ==> g.writersClosed && g.responseMarked)
    && (!g.ladder.NotStarted? ==> g.workersMarked && g.hasWorkers)
    && (0 in g.isSet ==> g.ladder.Ended? || !g.hasWorkers)
    // the ladder meets its bound
    && (g.ladder.Running? ==> g.ladder.start <= g.now <= g.ladder.start + LadderBound(grace))
    && (g.ladder.Ended? ==>
         g.ladder.start <= g.ladder.end <= g.ladder.start + LadderBound(grace) && g.ladder.end <= g.now)
    && g.callbackRuns <= 1 && (g.callback ==> g.callbackRuns == 0)
  }

  /** What thread `t` may rely on at its program point. */
  ghost predicate ThreadInv(grace: real, g: Globals, t: nat, th: Thread)
  {
    OnItsPath(g, t, th) && AtItsPoint(grace, g, th)
  }

  ghost predicate OnItsPath(g: Globals, t: nat, th: Thread)
  {
    && (OnFirstPath(th.pc) ==> g.first == Some(t))
    && (OnLaterPath(th.pc) ==> g.shuttingDown && g.first != Some(t))
    && (OnFirstPath(th.pc) || OnLaterPath(th.pc) ==> th.held == Some(0))
    && (th.held.Some? ==> th.held == g.terminated)
    && (OffPath(th.pc) ==> th.held.None? && g.first != Some(t))
    && (th.pc.Watching? || th.pc.Failing? || th.pc.Notifying? || th.pc.Dismissed? ==> t == 0)
  }

  ghost predicate AtItsPoint(grace: real, g: Globals, th: Thread)
  {
    match th.pc
    case ClosingWriters => g.hasWorkers && g.ladder.NotStarted?
    case MarkingResponse => g.hasWorkers && g.ladder.NotStarted? && g.writersClosed
    case MarkingWorkers => g.hasWorkers && g.ladder.NotStarted? && g.writersClosed && g.responseMarked
    case BeforeLadder => g.hasWorkers && g.ladder.NotStarted? && g.workersMarked
    case InLadder => g.hasWorkers && g.ladder.Running?
    case WithoutWorkers => !g.hasWorkers
    case Waiting(since) => since <= g.now
    case Tail(why) => Through(grace, g, why)
    case Done(why) => Through(grace, g, why) && g.broadcastClosed && g.responseMarked
    case Watching => g.callbackRuns == 0
    case Failing => g.callbackRuns == 0
    case Notifying => g.callbackRuns == 0 && !g.callback
    case Dismissed => g.shuttingDown
    case _ => true
  }

  /** A caller gets through once the event is set, or after its whole timeout. */
  predicate Through(grace: real, g: Globals, why: Why)
  {
    if why.TimedOut? then g.now >= why.since + JoinTimeout(grace) else 0 in g.isSet
  }

  ghost predicate Inv(grace: real, s: State)
  {
    GlobalInv(grace, s.g) && forall t | 0 <= t < |s.threads| :: ThreadInv(grace, s.g, t, s.threads[t])
  }

  /** A move keeps what every thread shares. */
  lemma MoveKeepsShared(grace: real, g: Globals, t: nat, th: Thread, m: Move)
    requires 0.0 <= grace && GlobalInv(grace, g) && ThreadInv(grace, g, t, th) && CanMove(grace, g, th, m)
    ensures GlobalInv(grace, Moved(grace, g, t, th, m).0)
  {
  }

  /** The moving thread arrives where its next program point may rely on what it says. */
  lemma MoveKeepsOwn(grace: real, g: Globals, t: nat, th: Thread, m: Move)
    requires 0.0 <= grace && GlobalInv(grace, g) && ThreadInv(grace, g, t, th) && CanMove(grace, g, th, m)
    ensures var (g', th') := Moved(grace, g, t, th, m); ThreadInv(grace, g', t, th')
  {
    hide OnItsPath, AtItsPoint, GlobalInv, CanMove, Moved;
    MoveKeepsPath(grace, g, t, th, m);
    MoveReachesPoint(grace, g, t, th, m);
  }

  lemma MoveKeepsPath(grace: real, g: Globals, t: nat, th: Thread, m: Move)
    requires GlobalInv(grace, g) && OnItsPath(g, t, th) && CanMove(grace, g, th, m)
    ensures var (g', th') := Moved(grace, g, t, th, m); OnItsPath(g', t, th')
  {
  }

  lemma MoveReachesPoint(grace: real, g: Globals, t: nat, th: Thread, m: Move)
    requires 0.0 <= grace && GlobalInv(grace, g) && ThreadInv(grace, g, t, th) && CanMove(grace, g, th, m)
    ensures var (g', th') := Moved(grace, g, t, th, m); AtItsPoint(grace, g', th')
  {
  }

  /** No move of one thread disturbs another. */
  lemma MoveKeepsOthers(grace: real, g: Globals, t: nat, th: Thread, m: Move, u: nat, other: Thread)
    requires 0.0 <= grace && GlobalInv(grace, g) && ThreadInv(grace, g, t, th) && CanMove(grace, g, th, m)
    requires u != t && ThreadInv(grace, g, u, other)
    ensures ThreadInv(grace, Moved(grace, g, t, th, m).0, u, other)
  {
    hide AtItsPoint, GlobalInv, CanMove, Moved;
    MoveKeepsOtherPaths(grace, g, t, th, m, u, other);
    MoveKeepsOtherPoints(grace, g, t, th, m, other);
  }

  lemma MoveKeepsOtherPaths(grace: real, g: Globals, t: nat, th: Thread, m: Move, u: nat, other: Thread)
    requires GlobalInv(grace, g) && OnItsPath(g, t, th) && CanMove(grace, g, th, m)
    requires u != t && OnItsPath(g, u, other)
    ensures OnItsPath(Moved(grace, g, t, th, m).0, u, other)
  {
  }

  /** What a move never takes back, and which moves touch the ladder and the callback. */
  predicate Onwards(g: Globals, g': Globals, m: Move)
  {
    && g'.now == g.now && g'.hasWorkers == g.hasWorkers && g.isSet <= g'.isSet
    && (g.shuttingDown ==> g'.shuttingDown) && (g.writersClosed ==> g'.writersClosed)
    && (g.responseMarked ==> g'.responseMarked) && (g.workersMarked ==> g'.workersMarked)
    && (g.broadcastClosed ==> g'.broadcastClosed) && (!g.callback ==> !g'.callback)
    && (m.StartLadder? || m.EndLadder? || g'.ladder == g.ladder)
    && (m.RunCallback? || g'.callbackRuns == g.callbackRuns)
  }

  lemma MovesOnwards(grace: real, g: Globals, t: nat, th: Thread, m: Move)
    requires CanMove(grace, g, th, m)
    ensures Onwards(g, Moved(grace, g, t, th, m).0, m)
  {
  }

  /** Only the first caller moves the ladder, only the monitor runs the callback. */
  lemma WhoMoves(grace: real, g: Globals, t: nat, th: Thread, m: Move)
    requires CanMove(grace, g, th, m) && OnItsPath(g, t, th)
    ensures m.StartLadder? || m.EndLadder? ==> g.first == Some(t)
    ensures m.RunCallback? ==> t == 0
  {
  }

  /** So nothing another thread's program point relies on is lost. */
  lemma MoveKeepsOtherPoints(grace: real, g: Globals, t: nat, th: Thread, m: Move, other: Thread)
    requires OnItsPath(g, t, th) && CanMove(grace, g, th, m)
    requires AtItsPoint(grace, g, other) && (OnFirstPath(other.pc) ==> g.first.Some? && g.first != Some(t))
    requires other.pc.Watching? || other.pc.Failing? || other.pc.Notifying? ==> t != 0
    ensures AtItsPoint(grace, Moved(grace, g, t, th, m).0, other)
  {
    hide CanMove, Moved;
    MovesOnwards(grace, g, t, th, m);
    WhoMoves(grace, g, t, th, m);
  }

  lemma StepKeepsInv(grace: real, s: State, e: Event)
    requires 0.0 <= grace && Inv(grace, s) && Enabled(grace, s, e)
    ensures Inv(grace, Next(grace, s, e))
  {
    match e
    case By(t, m) =>
      MoveKeepsShared(grace, s.g, t, s.threads[t], m);
      MoveKeepsOwn(grace, s.g, t, s.threads[t], m);
      forall u | 0 <= u < |s.threads| && u != t { MoveKeepsOthers(grace, s.g, t, s.threads[t], m, u, s.threads[u]); }
    case Tick(elapsed) =>
  }

  /** Every interleaving, of any length and any number of threads, keeps the invariant. */
  lemma {:induction false} RunKeepsInv(grace: real, s: State, events: seq<Event>)
    requires 0.0 <= grace && Inv(grace, s) && Possible(grace, s, events)
    ensures Inv(grace, After(grace, s, events))
    decreases |events|
  {
    if events != [] {
      StepKeepsInv(grace, s, events[0]);
      RunKeepsInv(grace, Next(grace, s, events[0]), events[1..]);
    }
  }

  /******* What the patch promises *******/

  /**
   One shared event, one first caller, queues marked before the ladder, cleanup only after the event or a full
   wait.
   */
  lemma ShutdownIsSafe(grace: real, s0: State, events: seq<Event>)
    requires 0.0 <= grace && Init(s0) && Possible(grace, s0, events)
    ensures var s := After(grace, s0, events);
            && (forall t, u | 0 <= t < |s.threads| && 0 <= u < |s.threads| && s.threads[t].held.Some?
                 && s.threads[u].held.Some? ::
                  s.threads[t].held == s.threads[u].held)
            && (forall t, u | 0 <= t < |s.threads| && 0 <= u < |s.threads| && OnFirstPath(s.threads[t].pc)
                 && OnFirstPath(s.threads[u].pc) :: t == u)
            && (!s.g.ladder.NotStarted? ==> s.g.writersClosed && s.g.responseMarked && s.g.workersMarked)
            && (forall t | 0 <= t < |s.threads| && s.threads[t].pc.Tail? ::
                  if s.threads[t].pc.why.TimedOut? then s.g.now - s.threads[t].pc.why.since >= grace + 4.0 + 5.0
                  else s.g.ladder.Ended? || !s.g.hasWorkers)
            && s.g.callbackRuns <= 1
  {
    RunKeepsInv(grace, s0, events);
  }

  /** The callback is out of the field when it is about to run, and the monitor has not yet called shutdown. */
  lemma CallbackBeforeMonitorShutdown(grace: real, s0: State, events: seq<Event>, t: nat)
    requires 0.0 <= grace && Init(s0) && Possible(grace, s0, events)
    requires var s := After(grace, s0, events); t < |s.threads| && s.threads[t].pc.Notifying?
    ensures var s := After(grace, s0, events);
            !s.g.callback && s.g.callbackRuns == 0 && s.threads[t].held.None? && s.g.first != Some(t)
  {
    RunKeepsInv(grace, s0, events);
  }

  /** The callback field on the monitor's way: as at the start until it is taken, then run if there was one. */
  predicate MonitorAt(g: Globals, pc: Pc, given: bool)
  {
    if pc.Watching? || pc.Failing? || pc.Dismissed? then g.callback == given && g.callbackRuns == 0
    else if pc.Notifying? then given && !g.callback && g.callbackRuns == 0
    else !g.callback && g.callbackRuns == if given then 1 else 0
  }

  ghost predicate MonitorInv(s: State, given: bool)
  {
    s.threads != [] && MonitorAt(s.g, s.threads[0].pc, given)
  }

  lemma {:induction false} RunKeepsMonitorInv(grace: real, s: State, events: seq<Event>, given: bool)
    requires 0.0 <= grace && Inv(grace, s) && MonitorInv(s, given) && Possible(grace, s, events)
    ensures MonitorInv(After(grace, s, events), given)
    decreases |events|
  {
    if events != [] {
      StepKeepsInv(grace, s, events[0]);
      StepKeepsMonitorInv(grace, s, events[0], given);
      RunKeepsMonitorInv(grace, Next(grace, s, events[0]), events[1..], given);
    }
  }

  lemma MonitorMoves(grace: real, g: Globals, th: Thread, m: Move, given: bool)
    requires CanMove(grace, g, th, m) && MonitorAt(g, th.pc, given)
    ensures var (g', th') := Moved(grace, g, 0, th, m); MonitorAt(g', th'.pc, given)
  {
  }

  lemma OthersLeaveCallback(grace: real, g: Globals, t: nat, th: Thread, m: Move)
    requires CanMove(grace, g, th, m) && OnItsPath(g, t, th) && t != 0
    ensures var g' := Moved(grace, g, t, th, m).0; g'.callback == g.callback && g'.callbackRuns == g.callbackRuns
  {
    match m
    case TakeCallback =>
    case RunCallback =>
    case _ =>
  }

  lemma StepKeepsMonitorInv(grace: real, s: State, e: Event, given: bool)
    requires Inv(grace, s) && MonitorInv(s, given) && Enabled(grace, s, e)
    ensures MonitorInv(Next(grace, s, e), given)
  {
    if e.By? {
      hide CanMove, Moved, OnItsPath, AtItsPoint;
      assert ThreadInv(grace, s.g, e.t, s.threads[e.t]);
      if e.t == 0 {
        MonitorMoves(grace, s.g, s.threads[0], e.move, given);
      } else {
        OthersLeaveCallback(grace, s.g, e.t, s.threads[e.t], e.move);
      }
    }
  }

  /** A monitor that has entered shutdown has cleared the callback, and run it once if there was one. */
  lemma MonitorShutdownAfterCallback(grace: real, s0: State, events: seq<Event>)
    requires 0.0 <= grace && Init(s0) && Possible(grace, s0, events)
    requires s0.threads != [] && s0.threads[0].pc.Watching?
    ensures var s := After(grace, s0, events);
            && s.threads != []
            && (s.threads[0].held.Some? ==> !s.g.callback && s.g.callbackRuns == if s0.g.callback then 1 else 0)
  {
    RunKeepsInv(grace, s0, events);
    RunKeepsMonitorInv(grace, s0, events, s0.g.callback);
    var s := After(grace, s0, events);
    assert ThreadInv(grace, s.g, 0, s.threads[0]);
  }

  /******* Can a waiter outrun the ladder? *******/

  /** A caller is through by timeout while the ladder it waited for, begun `delay` after its wait, still runs. */
  ghost predicate Outruns(grace: real, s: State, t: nat, delay: real)
  {
    && t < |s.threads| && s.threads[t].pc.Tail? && s.threads[t].pc.why.TimedOut?
    && s.g.ladder.Running? && s.g.ladder.start == s.threads[t].pc.why.since + delay
  }

  /** Not if the ladder began before the slack was used up. */
  lemma NoOutrunWithinSlack(grace: real, s0: State, events: seq<Event>, t: nat, delay: real)
    requires 0.0 <= grace && Init(s0) && Possible(grace, s0, events) && delay < JOIN_SLACK
    ensures !Outruns(grace, After(grace, s0, events), t, delay)
  {
    RunKeepsInv(grace, s0, events);
  }

  /** One event more. */
  lemma {:induction false} Then(grace: real, s: State, events: seq<Event>, e: Event) returns (more: seq<Event>)
    requires Possible(grace, s, events) && Enabled(grace, After(grace, s, events), e)
    ensures more == events + [e] && Possible(grace, s, more)
    ensures After(grace, s, more) == Next(grace, After(grace, s, events), e)
    decreases |events|
  {
    more := events + [e];
    if events == [] {
      assert more == [e] && [e][1..] == [];
    } else {
      var rest := Then(grace, Next(grace, s, events[0]), events[1..], e);
      assert more[0] == events[0] && more[1..] == rest;
    }
  }

  function TwoCallers(): State
  {
    State(Globals(0.0, true, false, None, 0, {}, None, false, false, false, false, NotStarted, true, 0),
          [Thread(Idle, None), Thread(Idle, None)])
  }

  /** The second caller waits from time 0. */
  lemma SecondWaits(grace: real) returns (events: seq<Event>)
    ensures Possible(grace, TwoCallers(), events)
    ensures var s := After(grace, TwoCallers(), events);
            && s.threads == [Thread(ClosingWriters, Some(0)), Thread(Waiting(0.0), Some(0))]
            && s.g == TwoCallers().g.(shuttingDown := true, terminated := Some(0), created := 1, first := Some(0))
  {
    var s := TwoCallers();
    events := Then(grace, s, [], By(0, Enter));
    events := Then(grace, s, events, By(1, Enter));
    events := Then(grace, s, events, By(1, Check));
  }

  /** The first is held up for `delay` before its ladder. */
  lemma LateLadder(grace: real, delay: real) returns (events: seq<Event>)
    requires 0.0 <= grace && 0.0 <= delay
    ensures Possible(grace, TwoCallers(), events)
    ensures var s := After(grace, TwoCallers(), events);
            && s.g.ladder == Running(delay) && s.g.now == delay && s.g.first == Some(0) && s.g.hasWorkers
            && s.threads == [Thread(InLadder, Some(0)), Thread(Waiting(0.0), Some(0))]
  {
    var s := TwoCallers();
    events := SecondWaits(grace);
    events := Then(grace, s, events, By(0, CloseWriters));
    events := Then(grace, s, events, By(0, MarkResponse));
    events := Then(grace, s, events, By(0, MarkWorkers));
    if delay > 0.0 { events := Then(grace, s, events, Tick(delay)); }
    events := Then(grace, s, events, By(0, StartLadder));
  }

  ghost predicate CanOutrun(grace: real, delay: real)
  {
    exists s0, events, t :: Init(s0) && Possible(grace, s0, events)
      && Outruns(grace, After(grace, s0, events), t, delay)
  }

  /**
   Exactly: a waiter can leave while the ladder runs when the ladder began the whole slack, or more, after its
   wait.
   */
  lemma CanOutrunIff(grace: real, delay: real)
    requires 0.0 <= grace
    ensures CanOutrun(grace, delay) <==> 5.0 <= delay
  {
    if delay < JOIN_SLACK {
      forall s0, events, t | Init(s0) && Possible(grace, s0, events)
        ensures !Outruns(grace, After(grace, s0, events), t, delay)
      {
        NoOutrunWithinSlack(grace, s0, events, t, delay);
      }
    } else {
      var s := TwoCallers();
      var events := LateLadder(grace, delay);
      if delay < JoinTimeout(grace) { events := Then(grace, s, events, Tick(JoinTimeout(grace) - delay)); }
      events := Then(grace, s, events, By(1, WakeTimeout));
      assert Outruns(grace, After(grace, s, events), 1, delay);
    }
  }

  /******* Can a later caller leave before the workers have ended? *******/

  /** The ladder has returned, so every worker has ended. One that raised says nothing about them. */
  predicate WorkersEnded(g: Globals) { !g.hasWorkers || (g.ladder.Ended? && !g.ladder.raised) }

  /** A later caller is through although the workers have not ended. */
  ghost predicate LeftUnended(s: State, t: nat)
  {
    t < |s.threads| && IsThrough(s.threads[t].pc) && !WorkersEnded(s.g)
  }

  predicate IsThrough(pc: Pc) { (pc.Tail? || pc.Done?) && !pc.why.AsFirst? }

  predicate BeforeItsLadder(pc: Pc)
  {
    pc.ClosingWriters? || pc.MarkingResponse? || pc.MarkingWorkers? || pc.BeforeLadder?
  }

  /** With workers to end, where the first caller stands and what has become of the ladder go together. */
  predicate FirstStands(g: Globals, pc: Pc)
  {
    || (g.ladder.NotStarted? && (BeforeItsLadder(pc) || pc.Raised?))
    || (g.ladder.Running? && pc.InLadder?)
    || (g.ladder.Ended? && if g.ladder.raised then pc.Raised? else pc == Tail(AsFirst) || pc == Done(AsFirst))
  }

  ghost predicate FirstInv(s: State)
  {
    s.g.first.Some? && s.g.hasWorkers ==>
      s.g.first.value < |s.threads| && FirstStands(s.g, s.threads[s.g.first.value].pc)
  }

  /** What a move does to the fields that say who is first and how far the ladder is. */
  lemma MoveFields(grace: real, g: Globals, t: nat, th: Thread, m: Move)
    requires CanMove(grace, g, th, m)
    ensures var g' := Moved(grace, g, t, th, m).0;
            && g'.hasWorkers == g.hasWorkers
            && g'.first == (if m.Enter? && !g.shuttingDown then Some(t) else g.first)
            && (!m.StartLadder? && !m.EndLadder? ==> g'.ladder == g.ladder)
            && (m.StartLadder? ==> g'.ladder == Running(g.now))
            && (m.EndLadder? ==> g'.ladder.Ended? && g'.ladder.raised == m.raises)
  {
    var g' := Moved(grace, g, t, th, m).0;
    match m
    case Enter =>
      assert g' == Entered(g, t).0;
    case StartLadder =>
    case EndLadder(raises) =>
      assert g'.ladder.Ended? && g'.ladder.raised == raises;
    case _ =>
      assert g'.ladder == g.ladder;
  }

  /** Where the first caller's own moves take it. */
  lemma FirstMoves(grace: real, g: Globals, t: nat, th: Thread, m: Move)
    requires CanMove(grace, g, th, m) && g.hasWorkers
    requires (g.first == Some(t) && FirstStands(g, th.pc)) || (m.Enter? && !g.shuttingDown && g.ladder.NotStarted?)
    ensures var (g', th') := Moved(grace, g, t, th, m); FirstStands(g', th'.pc)
  {
  }

  lemma StepKeepsFirstInv(grace: real, s: State, e: Event)
    requires Inv(grace, s) && FirstInv(s) && Enabled(grace, s, e)
    ensures FirstInv(Next(grace, s, e))
  {
    if e.By? {
      hide CanMove, Moved, FirstStands, AtItsPoint;
      var th := s.threads[e.t];
      assert ThreadInv(grace, s.g, e.t, th);
      MoveFields(grace, s.g, e.t, th, e.move);
      WhoMoves(grace, s.g, e.t, th, e.move);
      if s.g.hasWorkers && (s.g.first == Some(e.t) || (e.move.Enter? && !s.g.shuttingDown)) {
        FirstMoves(grace, s.g, e.t, th, e.move);
      } else if s.g.first.Some? && s.g.hasWorkers {
        SameLadderSameStand(s.g, Next(grace, s, e).g, s.threads[s.g.first.value].pc);
      }
    }
  }

  lemma SameLadderSameStand(g: Globals, g': Globals, pc: Pc)
    ensures g'.ladder == g.ladder ==> FirstStands(g', pc) == FirstStands(g, pc)
  {
  }

  /** A ladder that has ended stays as it ended; one that runs goes on, or ends. */
  lemma MoveKeepsLadder(grace: real, g: Globals, t: nat, th: Thread, m: Move)
    requires CanMove(grace, g, th, m) && AtItsPoint(grace, g, th)
    ensures LadderOnwards(g.ladder, Moved(grace, g, t, th, m).0.ladder, !(m.EndLadder? && m.raises))
  {
    hide Moved;
    MoveFields(grace, g, t, th, m);
  }

  predicate LadderOnwards(before: Ladder, after: Ladder, quiet: bool)
  {
    && (before.Ended? ==> after == before)
    && (before.Running? ==> after == before || (after.Ended? && (quiet ==> !after.raised)))
  }

  lemma {:induction false} RunKeepsFirstInv(grace: real, s: State, events: seq<Event>)
    requires 0.0 <= grace && Inv(grace, s) && FirstInv(s) && Possible(grace, s, events)
    ensures FirstInv(After(grace, s, events))
    decreases |events|
  {
    if events != [] {
      StepKeepsInv(grace, s, events[0]);
      StepKeepsFirstInv(grace, s, events[0]);
      RunKeepsFirstInv(grace, Next(grace, s, events[0]), events[1..]);
    }
  }

  /**
   The only causes: the first caller faulted before its ladder; the ladder raised; or the first caller is at the
   ladder, or short of it, 5 seconds late.
   */
  lemma LeftUnendedBecause(grace: real, s0: State, events: seq<Event>, t: nat)
    requires 0.0 <= grace && Init(s0) && Possible(grace, s0, events) && LeftUnended(After(grace, s0, events), t)
    ensures var s := After(grace, s0, events);
            && s.g.first.Some? && s.g.first.value < |s.threads|
            && var pc, why := s.threads[s.g.first.value].pc, s.threads[t].pc.why;
               || (pc.Raised? && s.g.ladder.NotStarted? && why.TimedOut?)
               || (pc.Raised? && s.g.ladder.Ended? && s.g.ladder.raised)
               || (pc.InLadder? && s.g.ladder.Running? && why.TimedOut? && why.since + 5.0 <= s.g.ladder.start)
               || (BeforeItsLadder(pc) && s.g.ladder.NotStarted? && why.TimedOut? && why.since + 5.0 <= s.g.now)
  {
    RunKeepsInv(grace, s0, events);
    RunKeepsFirstInv(grace, s0, events);
    var s := After(grace, s0, events);
    assert ThreadInv(grace, s.g, t, s.threads[t]);
  }

  /** No ladder raises among these events. */
  predicate Quiet(events: seq<Event>)
  {
    forall i | 0 <= i < |events| :: !RaisesLadder(events[i])
  }

  predicate RaisesLadder(e: Event) { e.By? && e.move.EndLadder? && e.move.raises }

  lemma {:induction false} LadderLasts(grace: real, s: State, events: seq<Event>)
    requires 0.0 <= grace && Inv(grace, s) && Possible(grace, s, events)
    ensures var s' := After(grace, s, events);
            s'.g.hasWorkers == s.g.hasWorkers && LadderOnwards(s.g.ladder, s'.g.ladder, Quiet(events))
    decreases |events|
  {
    if events != [] {
      hide GlobalInv, OnItsPath, AtItsPoint, CanMove, Moved;
      var e := events[0];
      StepKeepsInv(grace, s, e);
      if e.By? {
        assert ThreadInv(grace, s.g, e.t, s.threads[e.t]);
        MoveFields(grace, s.g, e.t, s.threads[e.t], e.move);
        MoveKeepsLadder(grace, s.g, e.t, s.threads[e.t], e.move);
      }
      LadderLasts(grace, Next(grace, s, e), events[1..]);
      assert Quiet(events) ==> Quiet(events[1..]) && !RaisesLadder(e);
    }
  }

  /** A waiter goes on waiting from the same moment, or gets through. */
  predicate FromWait(pc: Pc, since: real)
  {
    pc == Waiting(since) || ((pc.Tail? || pc.Done?) && (pc.why == EventSeen || pc.why == TimedOut(since)))
  }

  lemma {:induction false} WaiterStays(grace: real, s: State, events: seq<Event>, t: nat, since: real)
    requires Possible(grace, s, events) && t < |s.threads| && FromWait(s.threads[t].pc, since)
    ensures var s' := After(grace, s, events); t < |s'.threads| && FromWait(s'.threads[t].pc, since)
    decreases |events|
  {
    if events != [] { WaiterStays(grace, Next(grace, s, events[0]), events[1..], t, since); }
  }

  /** A run from here in which t leaves with the workers not ended, with or without a ladder that raises. */
  ghost predicate CanLeaveUnended(grace: real, s: State, t: nat, mayRaise: bool)
  {
    exists events ::
      Possible(grace, s, events) && (mayRaise || Quiet(events)) && LeftUnended(After(grace, s, events), t)
  }

  /** Nothing raising, what is left is lateness. */
  predicate LateOrOver(g: Globals, since: real)
  {
    !WorkersEnded(g) && (g.ladder.Running? ==> since + 5.0 <= g.ladder.start)
  }

  /**
   Exactly, in any state a run reaches. Unless the workers have ended, a waiter can still leave before they do: the
   ladder may raise. If no ladder raises from here on, it can exactly when the ladder has not begun, because the
   first caller faulted or is held up, began 5 seconds or more after the wait, or has raised already.
   */
  lemma CanLeaveUnendedIff(grace: real, s: State, t: nat, since: real)
    requires 0.0 <= grace && Inv(grace, s) && FirstInv(s) && t < |s.threads| && s.threads[t].pc == Waiting(since)
    ensures CanLeaveUnended(grace, s, t, true) <==> !WorkersEnded(s.g)
    ensures CanLeaveUnended(grace, s, t, false) <==> LateOrOver(s.g, since)
  {
    if LateOrOver(s.g, since) {
      var events := LeaveQuietly(grace, s, t, since);
      assert Quiet(events) && LeftUnended(After(grace, s, events), t);
    } else if !WorkersEnded(s.g) {
      var events := LeaveByRaise(grace, s, t, since);
      assert LeftUnended(After(grace, s, events), t);
    }
    forall events | Possible(grace, s, events) && LeftUnended(After(grace, s, events), t)
      ensures !WorkersEnded(s.g) && (Quiet(events) ==> LateOrOver(s.g, since))
    {
      LeftFrom(grace, s, events, t, since);
    }
  }

  lemma LeftFrom(grace: real, s: State, events: seq<Event>, t: nat, since: real)
    requires 0.0 <= grace && Inv(grace, s) && Possible(grace, s, events)
    requires t < |s.threads| && s.threads[t].pc == Waiting(since) && LeftUnended(After(grace, s, events), t)
    ensures !WorkersEnded(s.g) && (Quiet(events) ==> LateOrOver(s.g, since))
  {
    hide OnItsPath, CanMove, Moved;
    RunKeepsInv(grace, s, events);
    LadderLasts(grace, s, events);
    WaiterStays(grace, s, events, t, since);
    var s' := After(grace, s, events);
    assert ThreadInv(grace, s'.g, t, s'.threads[t]);
  }

  lemma LeaveQuietly(grace: real, s: State, t: nat, since: real) returns (events: seq<Event>)
    requires 0.0 <= grace && Inv(grace, s) && FirstInv(s) && t < |s.threads| && s.threads[t].pc == Waiting(since)
    requires LateOrOver(s.g, since)
    ensures Possible(grace, s, events) && Quiet(events) && LeftUnended(After(grace, s, events), t)
  {
    var deadline := since + JoinTimeout(grace);
    events := [];
    if s.g.now < deadline { events := Then(grace, s, events, Tick(deadline - s.g.now)); }
    events := Then(grace, s, events, By(t, WakeTimeout));
  }

  lemma LeaveByRaise(grace: real, s: State, t: nat, since: real) returns (events: seq<Event>)
    requires 0.0 <= grace && Inv(grace, s) && FirstInv(s) && t < |s.threads| && s.threads[t].pc == Waiting(since)
    requires s.g.ladder.Running?
    ensures Possible(grace, s, events) && LeftUnended(After(grace, s, events), t)
  {
    assert ThreadInv(grace, s.g, t, s.threads[t]);
    var first := s.g.first.value;
    assert ThreadInv(grace, s.g, first, s.threads[first]);
    events := Then(grace, s, [], By(first, EndLadder(true)));
    events := Then(grace, s, events, By(t, WakeSet));
  }

  /** A fault before the ladder: the second caller leaves after its timeout, and the workers are never ended. */
  lemma FaultLeavesWorkers(grace: real) returns (events: seq<Event>)
    requires 0.0 <= grace
    ensures Possible(grace, TwoCallers(), events)
    ensures var s := After(grace, TwoCallers(), events);
            && LeftUnended(s, 1) && s.threads[1].pc == Tail(TimedOut(0.0))
            && s.threads[0].pc == Raised && s.g.first == Some(0) && s.g.ladder == NotStarted
  {
    var s := TwoCallers();
    events := SecondWaits(grace);
    events := Then(grace, s, events, By(0, Fault));
    events := Then(grace, s, events, Tick(JoinTimeout(grace)));
    events := Then(grace, s, events, By(1, WakeTimeout));
  }

  /** A ladder that raises: its `finally` sets the event, and the second caller leaves at once. */
  lemma RaisingLadderLeavesWorkers(grace: real) returns (events: seq<Event>)
    requires 0.0 <= grace
    ensures Possible(grace, TwoCallers(), events)
    ensures var s := After(grace, TwoCallers(), events);
            && LeftUnended(s, 1) && s.threads[1].pc == Tail(EventSeen) && s.g.now == 0.0
            && s.threads[0].pc == Raised && s.g.first == Some(0) && s.g.ladder == Ended(0.0, 0.0, true)
  {
    var s := TwoCallers();
    events := LateLadder(grace, 0.0);
    events := Then(grace, s, events, By(0, EndLadder(true)));
    events := Then(grace, s, events, By(1, WakeSet));
  }

  /******* Everyone gets to an end *******/

  /** An upper bound on the moves a thread has left. */
  function ToGo(pc: Pc): nat
  {
    match pc
    case Watching => 10
    case Failing => 9
    case Notifying => 8
    case Idle => 7
    case ClosingWriters => 6
    case MarkingResponse => 5
    case MarkingWorkers => 4
    case BeforeLadder => 3
    case Checking => 3
    case InLadder => 2
    case WithoutWorkers => 2
    case Waiting(_) => 2
    case Tail(_) => 1
    case _ => 0
  }

  lemma MovesOnlyForward(grace: real, g: Globals, t: nat, th: Thread, m: Move)
    requires CanMove(grace, g, th, m)
    ensures ToGo(Moved(grace, g, t, th, m).1.pc) < ToGo(th.pc)
  {
  }

  /** The move a thread makes next, unless it is waiting on an unset event. */
  lemma OwnMove(grace: real, g: Globals, t: nat, th: Thread) returns (m: Move)
    requires ThreadInv(grace, g, t, th) && ToGo(th.pc) > 0
    requires th.pc.Waiting? ==> 0 in g.isSet || g.now >= th.pc.since + JoinTimeout(grace)
    ensures CanMove(grace, g, th, m)
  {
    match th.pc
    case Watching => m := WorkerDied;
    case Failing => m := TakeCallback;
    case Notifying => m := RunCallback;
    case Idle => m := Enter;
    case ClosingWriters => m := CloseWriters;
    case MarkingResponse => m := MarkResponse;
    case MarkingWorkers => m := MarkWorkers;
    case BeforeLadder => m := StartLadder;
    case Checking => m := Check;
    case InLadder => m := EndLadder(false);
    case WithoutWorkers => m := SetWithoutWorkers;
    case Waiting(_) => m := if 0 in g.isSet then WakeSet else WakeTimeout;
    case Tail(_) => m := Cleanup;
  }

  lemma {:induction false} RunsJoin(grace: real, s: State, a: seq<Event>, b: seq<Event>)
    requires Possible(grace, s, a) && Possible(grace, After(grace, s, a), b)
    ensures Possible(grace, s, a + b) && After(grace, s, a + b) == After(grace, After(grace, s, a), b)
    decreases |a|
  {
    if a == [] {
      assert a + b == b;
    } else {
      RunsJoin(grace, Next(grace, s, a[0]), a[1..], b);
      assert (a + b)[0] == a[0] && (a + b)[1..] == a[1..] + b;
    }
  }

  /** What it takes until a thread can make its own next move: nothing, the end of the ladder, or time. */
  lemma UntilOwnMove(grace: real, s: State, t: nat) returns (events: seq<Event>)
    requires 0.0 <= grace && Inv(grace, s) && FirstInv(s) && t < |s.threads|
    ensures Possible(grace, s, events)
    ensures var s' := After(grace, s, events);
            && |s'.threads| == |s.threads| && s'.threads[t] == s.threads[t]
            && (s.threads[t].pc.Waiting? ==>
                  0 in s'.g.isSet || s'.g.now >= s.threads[t].pc.since + JoinTimeout(grace))
  {
    var th := s.threads[t];
    assert ThreadInv(grace, s.g, t, th);
    events := [];
    if th.pc.Waiting? && 0 !in s.g.isSet && s.g.now < th.pc.since + JoinTimeout(grace) {
      if s.g.ladder.Running? {
        var first := s.g.first.value;
        assert ThreadInv(grace, s.g, first, s.threads[first]);
        events := Then(grace, s, [], By(first, EndLadder(false)));
      } else {
        events := Then(grace, s, [], Tick(th.pc.since + JoinTimeout(grace) - s.g.now));
      }
    }
  }

  /** From any state a run reaches, any thread can get to its end: nobody waits for ever. */
  lemma {:induction false} AnyoneCanFinish(grace: real, s: State, t: nat) returns (events: seq<Event>)
    requires 0.0 <= grace && Inv(grace, s) && FirstInv(s) && t < |s.threads|
    ensures Possible(grace, s, events)
    ensures var s' := After(grace, s, events); t < |s'.threads| && ToGo(s'.threads[t].pc) == 0
    decreases ToGo(s.threads[t].pc)
  {
    hide GlobalInv, OnItsPath, AtItsPoint, CanMove, Moved, FirstInv, ToGo;
    if ToGo(s.threads[t].pc) == 0 {
      events := [];
    } else {
      var wait := UntilOwnMove(grace, s, t);
      var s1 := After(grace, s, wait);
      RunKeepsInv(grace, s, wait);
      RunKeepsFirstInv(grace, s, wait);
      assert ThreadInv(grace, s1.g, t, s1.threads[t]);
      var m := OwnMove(grace, s1.g, t, s1.threads[t]);
      MovesOnlyForward(grace, s1.g, t, s1.threads[t], m);
      var e := By(t, m);
      StepKeepsInv(grace, s1, e);
      StepKeepsFirstInv(grace, s1, e);
      var s2 := Next(grace, s1, e);
      var rest := AnyoneCanFinish(grace, s2, t);
      var some := Then(grace, s, wait, e);
      RunsJoin(grace, s, some, rest);
      events := some + rest;
    }
  }

  /** A worker's death before any shutdown makes the monitor run the callback, if there is one, and shut down first. */
  lemma MonitorReacts(grace: real, s: State) returns (events: seq<Event>)
    requires 0.0 <= grace && Inv(grace, s) && s.threads != [] && s.threads[0].pc.Watching?
    ensures Possible(grace, s, events) && events != [] && events[0] == By(0, WorkerDied)
    ensures var s' := After(grace, s, events);
            && |s'.threads| == |s.threads|
            && if s.g.shuttingDown then s'.g == s.g && s'.threads[0].pc.Dismissed?
               else s'.g.shuttingDown && s'.g.first == Some(0) && !s'.g.callback
                    && s'.g.callbackRuns == if s.g.callback then 1 else 0
  {
    assert ThreadInv(grace, s.g, 0, s.threads[0]);
    events := Then(grace, s, [], By(0, WorkerDied));
    if !s.g.shuttingDown {
      events := Then(grace, s, events, By(0, TakeCallback));
      if s.g.callback { events := Then(grace, s, events, By(0, RunCallback)); }
      events := Then(grace, s, events, By(0, Enter));
    }
  }
}
