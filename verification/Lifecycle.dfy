/**
 Application startup and graceful shutdown, interleaved at their awaits. A step
 is what happens between two awaits; signals may arrive at any time. The process
 exit that may follow the shutdown only cuts a run short.
 */
module Lifecycle {
  datatype Life = Initializing | Ready | ShuttingDown | Terminated

  /** TimerSet: the cleanup timer is set and startup awaits the worker modules. */
  datatype Startup = NotStarted | Starting | TimerSet | Finished | Threw
  datatype Release = ClearTimers | StopOutbox | StopPayments | CloseHttp | CloseSockets | CloseAdapter | CloseWorkers | CloseQueues | CloseRedis | DisconnectDatabase

  /** What startup sets going in the background. */
  datatype Resource = CleanupTimer | DispatchTimer | OutboxLoop | PaymentLoop | QueueWorkers

  /** The shutdown body: not entered, `released` so far, all done, or given up on an error. */
  datatype Body = Idle | Releasing | Completed | Errored

  datatype State = State(life: Life, isShuttingDown: bool, startup: Startup, running: set<Resource>,
                         body: Body, plan: seq<Release>, released: seq<Release>, bodyRuns: nat)

  /** `started` is what startup gets going before it ends; outside production it goes on when that fails. */
  datatype Step =
    | BeginStartup
    | SetTimer
    | FinishStartup(started: set<Resource>)
    | FailStartup(begun: set<Resource>)
    | Signal(http: bool, sockets: bool)
    | ReleaseNext
    | ReleaseFails
    | FinishShutdown

  /** The release steps, in order; servers that were never registered are not closed. */
  function Plan(http: bool, sockets: bool): seq<Release> {
    [ClearTimers, StopOutbox, StopPayments] + (if http then [CloseHttp] else [])
    + (if sockets then [CloseSockets, CloseAdapter] else []) + [CloseWorkers, CloseQueues, CloseRedis, DisconnectDatabase]
  }

  function Freed(r: Release): set<Resource> {
    match r
    case ClearTimers => {CleanupTimer, DispatchTimer}
    case StopOutbox => {OutboxLoop}
    case StopPayments => {PaymentLoop}
    case CloseWorkers => {QueueWorkers}
    case _ => {}
  }

  const INITIAL := State(Initializing, false, NotStarted, {}, Idle, [], [], 0)

  predicate Enabled(s: State, step: Step) {
    match step
    case BeginStartup => s.startup.NotStarted?
    case SetTimer => s.startup.Starting?
    case FinishStartup(_) => s.startup.TimerSet?
    case FailStartup(begun) => s.startup.TimerSet? || (s.startup.Starting? && begun == {})
    case Signal(_, _) => true
    case ReleaseNext => s.body.Releasing? && |s.released| < |s.plan|
    case ReleaseFails => s.body.Releasing? && |s.released| < |s.plan|
    case FinishShutdown => s.body.Releasing? && |s.released| == |s.plan|
  }

  function Apply(s: State, step: Step): State
    requires Enabled(s, step)
  {
    match step
    case BeginStartup => s.(life := Initializing, startup := Starting)
    case SetTimer => s.(startup := TimerSet, running := s.running + {CleanupTimer})
    case FinishStartup(started) => s.(life := Ready, startup := Finished, running := s.running + started)
    case FailStartup(begun) => s.(startup := Threw, running := s.running + begun)
    case Signal(http, sockets) =>
      if s.isShuttingDown then s
      else s.(isShuttingDown := true, life := ShuttingDown, body := Releasing, plan := Plan(http, sockets), bodyRuns := s.bodyRuns + 1)
    case ReleaseNext =>
      var r := s.plan[|s.released|];
      s.(released := s.released + [r], running := s.running - Freed(r))
    case ReleaseFails => s.(body := Errored)
    case FinishShutdown => s.(life := Terminated, body := Completed)
  }

  predicate IsTrace(s: State, steps: seq<Step>)
    decreases |steps|
  {
    steps == [] || (Enabled(s, steps[0]) && IsTrace(Apply(s, steps[0]), steps[1..]))
  }

  function Exec(s: State, steps: seq<Step>): State
    requires IsTrace(s, steps)
    decreases |steps|
  {
    if steps == [] then s else Exec(Apply(s, steps[0]), steps[1..])
  }

  /** Startup has returned or thrown. */
  predicate Settled(s: State) {
    s.startup.Finished? || s.startup.Threw?
  }

  ghost predicate Inv(s: State) {
    && s.bodyRuns == (if s.isShuttingDown then 1 else 0)
    && (s.body.Idle? <==> !s.isShuttingDown)
    && s.released <= s.plan
    && (!s.isShuttingDown ==> s.released == [])
    && (s.isShuttingDown ==> exists http, sockets :: s.plan == Plan(http, sockets))
    && (s.body.Completed? ==> s.released == s.plan)
    && (s.life.Terminated? ==> s.body.Completed?)
  }

  lemma StepKeepsInv(s: State, step: Step)
    requires Inv(s) && Enabled(s, step)
    ensures Inv(Apply(s, step))
  {
    if step.Signal? && !s.isShuttingDown {
      assert Apply(s, step).plan == Plan(step.http, step.sockets);
    }
  }

  lemma {:induction false} RunKeepsInv(s: State, steps: seq<Step>)
    requires Inv(s) && IsTrace(s, steps)
    ensures Inv(Exec(s, steps))
    decreases |steps|
  {
    if steps != [] {
      StepKeepsInv(s, steps[0]);
      RunKeepsInv(Apply(s, steps[0]), steps[1..]);
    }
  }

  /**
   In every interleaving, signals during startup included, the shutdown body is entered at most
   once, and TERMINATED is reported only when every release step has run, in order.
   */
  lemma ShutdownRunsOnceAndInOrder(steps: seq<Step>)
    requires IsTrace(INITIAL, steps)
    ensures var t := Exec(INITIAL, steps);
      && t.bodyRuns <= 1
      && t.released <= t.plan
      && (t.life.Terminated? ==> t.released == t.plan && exists http, sockets :: t.plan == Plan(http, sockets))
  {
    RunKeepsInv(INITIAL, steps);
  }

  /** `user` is released before anything that follows at `i` or later. */
  predicate ReleasedBefore(released: seq<Release>, user: Release, i: nat) {
    exists j :: 0 <= j < i && j < |released| && released[j] == user
  }

  /** Requests and timers stop first, then the workers, and what they use after them; the database is last. */
  predicate UsersFirst(released: seq<Release>) {
    forall i :: 0 <= i < |released| ==>
      && (released[i] in {CloseHttp, CloseSockets, CloseWorkers, CloseQueues, CloseRedis, DisconnectDatabase} ==>
            ReleasedBefore(released, ClearTimers, i) && ReleasedBefore(released, StopOutbox, i) && ReleasedBefore(released, StopPayments, i))
      && (released[i] == CloseAdapter ==> ReleasedBefore(released, CloseSockets, i))
      && (released[i] in {CloseQueues, CloseRedis, DisconnectDatabase} ==> ReleasedBefore(released, CloseWorkers, i))
      && (released[i] in {CloseRedis, DisconnectDatabase} ==> ReleasedBefore(released, CloseQueues, i))
      && (released[i] == DisconnectDatabase ==> ReleasedBefore(released, CloseRedis, i))
      && (released[i] in {CloseHttp, CloseSockets, CloseAdapter} ==> !ReleasedBefore(released, CloseWorkers, i))
  }

  lemma PlanShape(http: bool, sockets: bool)
    ensures var p := Plan(http, sockets);
      var n := |p|;
      && n == 7 + (if http then 1 else 0) + (if sockets then 2 else 0)
      && p[0] == ClearTimers && p[1] == StopOutbox && p[2] == StopPayments
      && (http ==> p[3] == CloseHttp) && (sockets ==> p[n - 6] == CloseSockets && p[n - 5] == CloseAdapter)
      && p[n - 4] == CloseWorkers && p[n - 3] == CloseQueues && p[n - 2] == CloseRedis && p[n - 1] == DisconnectDatabase
  {
  }

  lemma PrefixIsUsersFirst(http: bool, sockets: bool, released: seq<Release>)
    requires released <= Plan(http, sockets)
    ensures UsersFirst(released)
  {
    PlanShape(http, sockets);
    var p := Plan(http, sockets);
    var n := |p|;
    forall i, r, k | 0 <= k < i < |released| && released[k] == r ensures ReleasedBefore(released, r, i) {
    }
    assert |released| > 0 ==> released[0] == ClearTimers;
    assert |released| > 1 ==> released[1] == StopOutbox;
    assert |released| > 2 ==> released[2] == StopPayments;
    assert |released| > n - 4 ==> released[n - 4] == CloseWorkers;
    assert |released| > n - 3 ==> released[n - 3] == CloseQueues;
    assert |released| > n - 2 ==> released[n - 2] == CloseRedis;
    assert sockets && |released| > n - 6 ==> released[n - 6] == CloseSockets;
    forall i | 0 <= i < |released| ensures released[i] == p[i] && (released[i] == CloseWorkers ==> i == n - 4) {
    }
  }

  /** In every interleaving, nothing is closed before those that use it. */
  lemma NothingClosesBeforeItsUsers(steps: seq<Step>)
    requires IsTrace(INITIAL, steps)
    ensures UsersFirst(Exec(INITIAL, steps).released)
  {
    RunKeepsInv(INITIAL, steps);
    var t := Exec(INITIAL, steps);
    if t.isShuttingDown {
      var http, sockets :| t.plan == Plan(http, sockets);
      PrefixIsUsersFirst(http, sockets, t.released);
    }
  }

  /** Once startup is settled and a signal has been taken, READY is never reported again. */
  lemma {:induction false} NeverReadyAgain(s: State, steps: seq<Step>)
    requires Inv(s) && Settled(s) && s.isShuttingDown && !s.life.Ready? && IsTrace(s, steps)
    ensures !Exec(s, steps).life.Ready?
    decreases |steps|
  {
    if steps != [] {
      StepKeepsInv(s, steps[0]);
      NeverReadyAgain(Apply(s, steps[0]), steps[1..]);
    }
  }

  // ------------------------------------------------------------ a signal during startup

  predicate Reaches(s: State, steps: seq<Step>, t: State) {
    IsTrace(s, steps) && Exec(s, steps) == t
  }

  lemma {:induction false} Extend(s: State, steps: seq<Step>, t: State, step: Step)
    requires Reaches(s, steps, t) && Enabled(t, step)
    ensures Reaches(s, steps + [step], Apply(t, step))
    decreases |steps|
  {
    var all := steps + [step];
    if steps == [] {
      assert all[1..] == [];
      assert IsTrace(Apply(s, step), []) && Exec(Apply(s, step), []) == Apply(s, step);
    } else {
      Extend(Apply(s, steps[0]), steps[1..], t, step);
      assert all[1..] == steps[1..] + [step];
    }
  }

  /** A startup that has not ended when `t` is reached still ends by writing READY, whatever it has started by then. */
  lemma StartupEnds(s: State, steps: seq<Step>, t: State, started: set<Resource>) returns (longer: seq<Step>, u: State)
    requires Reaches(s, steps, t) && !Settled(t)
    ensures Reaches(s, longer, u) && u.life.Ready? && started <= u.running
    ensures u == t.(life := Ready, startup := Finished, running := u.running)
  {
    longer, u := steps, t;
    if u.startup.NotStarted? {
      Extend(s, longer, u, BeginStartup);
      longer, u := longer + [BeginStartup], Apply(u, BeginStartup);
    }
    if u.startup.Starting? {
      Extend(s, longer, u, SetTimer);
      longer, u := longer + [SetTimer], Apply(u, SetTimer);
    }
    Extend(s, longer, u, FinishStartup(started));
    longer, u := longer + [FinishStartup(started)], Apply(u, FinishStartup(started));
  }

  /** The release steps that are left, one after the other. */
  lemma {:induction false} ReleasesEnd(s: State, steps: seq<Step>, t: State) returns (longer: seq<Step>, u: State)
    requires Reaches(s, steps, t) && t.body.Releasing? && |t.released| <= |t.plan|
    ensures Reaches(s, longer, u) && u.body.Releasing? && |u.released| == |u.plan| && u.startup == t.startup
    decreases |t.plan| - |t.released|
  {
    longer, u := steps, t;
    if |t.released| < |t.plan| {
      Extend(s, steps, t, ReleaseNext);
      longer, u := ReleasesEnd(s, steps + [ReleaseNext], Apply(t, ReleaseNext));
    }
  }

  /** The rest of the run `after` takes `s` to a state that reports READY. */
  ghost predicate ReachesReady(s: State, after: seq<Step>) {
    IsTrace(s, after) && Exec(s, after).life.Ready?
  }

  /**
   READY can be reported after the first signal if and only if startup had neither returned nor
   thrown when the signal came: its last write is not guarded by the shutdown flag.
   */
  lemma ReadyAfterSignalIff(before: seq<Step>, signal: Step)
    requires IsTrace(INITIAL, before) && signal.Signal? && !Exec(INITIAL, before).isShuttingDown
    ensures (exists after :: ReachesReady(Apply(Exec(INITIAL, before), signal), after))
            <==> !Settled(Exec(INITIAL, before))
  {
    var s := Exec(INITIAL, before);
    var t := Apply(s, signal);
    RunKeepsInv(INITIAL, before);
    StepKeepsInv(s, signal);
    if Settled(s) {
      forall after | IsTrace(t, after) ensures !ReachesReady(t, after) {
        NeverReadyAgain(t, after);
      }
    } else {
      assert Reaches(t, [], t);
      var after, u := StartupEnds(t, [], t, {});
      assert ReachesReady(t, after);
    }
  }

  function FreedBy(released: seq<Release>): set<Resource> {
    if released == [] then {} else FreedBy(released[..|released| - 1]) + Freed(released[|released| - 1])
  }

  lemma {:induction false} FreedByMember(released: seq<Release>, i: nat)
    requires i < |released|
    ensures Freed(released[i]) <= FreedBy(released)
    decreases |released|
  {
    if i < |released| - 1 {
      FreedByMember(released[..|released| - 1], i);
    }
  }

  lemma PlanFreesEverything(http: bool, sockets: bool, r: Resource)
    ensures r in FreedBy(Plan(http, sockets))
  {
    var plan := Plan(http, sockets);
    assert plan[0] == ClearTimers && plan[1] == StopOutbox && plan[2] == StopPayments && plan[|plan| - 4] == CloseWorkers;
    FreedByMember(plan, 0);
    FreedByMember(plan, 1);
    FreedByMember(plan, 2);
    FreedByMember(plan, |plan| - 4);
  }

  /** Once startup is settled, nothing that has been released runs again. */
  lemma {:induction false} ReleasedStaysReleased(s: State, steps: seq<Step>)
    requires Inv(s) && Settled(s) && s.isShuttingDown && s.running !! FreedBy(s.released) && IsTrace(s, steps)
    ensures Exec(s, steps).running !! FreedBy(Exec(s, steps).released) && Exec(s, steps).isShuttingDown
    decreases |steps|
  {
    if steps != [] {
      var t := Apply(s, steps[0]);
      StepKeepsInv(s, steps[0]);
      if steps[0].ReleaseNext? {
        assert t.released[..|t.released| - 1] == s.released;
      }
      ReleasedStaysReleased(t, steps[1..]);
    }
  }

  /** The rest of the run ends in TERMINATED with something still running. */
  ghost predicate Leaks(s: State, after: seq<Step>) {
    IsTrace(s, after) && Exec(s, after).life.Terminated? && Exec(s, after).running != {}
  }

  lemma SettledNeverLeaks(s: State, after: seq<Step>)
    requires Inv(s) && Settled(s) && s.isShuttingDown && s.released == [] && IsTrace(s, after)
    ensures !Leaks(s, after)
  {
    var t := Exec(s, after);
    RunKeepsInv(s, after);
    ReleasedStaysReleased(s, after);
    if t.life.Terminated? {
      var http, sockets :| t.plan == Plan(http, sockets);
      forall r | r in t.running ensures false {
        PlanFreesEverything(http, sockets, r);
      }
    }
  }

  /**
   TERMINATED can be reported with timers or workers still running if and only if startup had neither
   returned nor thrown when the first signal came: what it starts after the release steps is
   released by nobody.
   */
  lemma LeaksAfterSignalIff(before: seq<Step>, signal: Step)
    requires IsTrace(INITIAL, before) && signal.Signal? && !Exec(INITIAL, before).isShuttingDown
    ensures (exists after :: Leaks(Apply(Exec(INITIAL, before), signal), after)) <==> !Settled(Exec(INITIAL, before))
  {
    var s := Exec(INITIAL, before);
    var t := Apply(s, signal);
    RunKeepsInv(INITIAL, before);
    StepKeepsInv(s, signal);
    if Settled(s) {
      forall after | IsTrace(t, after) ensures !Leaks(t, after) {
        SettledNeverLeaks(t, after);
      }
    } else {
      assert Reaches(t, [], t);
      var after, u := ReleasesEnd(t, [], t);
      after, u := StartupEnds(t, after, u, {DispatchTimer});
      Extend(t, after, u, FinishShutdown);
      assert Leaks(t, after + [FinishShutdown]);
    }
  }

  /** The manager's fields and what its methods do to them between awaits. */
  class LifecycleManager {
    var state: Life
    var isShuttingDown: bool
    var httpServer: bool
    var io: bool

    // the timers it holds and the workers it has started
    var running: set<Resource>

    // where the two asynchronous methods are
    ghost var startup: Startup
    ghost var body: Body
    ghost var bodyRuns: nat
    var plan: seq<Release>
    var released: seq<Release>

    ghost function View(): State
      reads this
    {
      State(state, isShuttingDown, startup, running, body, plan, released, bodyRuns)
    }

    constructor ()
      ensures View() == INITIAL && !httpServer && !io
    {
      state, isShuttingDown, httpServer, io, running := Initializing, false, false, false, {};
      startup, body, bodyRuns, plan, released := NotStarted, Idle, 0, [], [];
    }

    method RegisterServers(http: bool, sockets: bool)
      modifies this
      ensures View() == old(View()) && httpServer == http && io == sockets
    {
      httpServer, io := http, sockets;
    }

    method BeginStartupCall()
      requires Enabled(View(), BeginStartup)
      modifies this
      ensures View() == Apply(old(View()), BeginStartup)
    {
      state := Initializing;
      startup := Starting;
    }

    method SetCleanupTimer()
      requires Enabled(View(), SetTimer)
      modifies this
      ensures View() == Apply(old(View()), SetTimer)
    {
      running := running + {CleanupTimer};
      startup := TimerSet;
    }

    /** The last writes of startup; they do not look at isShuttingDown. */
    method FinishStartupCall(workers: bool)
      requires Enabled(View(), FinishStartup({}))
      modifies this
      ensures View() == Apply(old(View()), FinishStartup(if workers then {QueueWorkers, OutboxLoop, PaymentLoop, DispatchTimer} else {}))
    {
      if workers {
        running := running + {QueueWorkers, OutboxLoop, PaymentLoop};
        running := running + {DispatchTimer};
      }
      state := Ready;
      startup := Finished;
      assert workers ==> running == old(running) + {QueueWorkers, OutboxLoop, PaymentLoop, DispatchTimer};
    }

    /** The entry of shutdown, up to its first await; false when a shutdown is already in progress. */
    method BeginShutdown() returns (entered: bool)
      modifies this
      ensures View() == Apply(old(View()), Signal(old(httpServer), old(io)))
      ensures entered <==> !old(isShuttingDown)
      ensures entered ==> state.ShuttingDown? && isShuttingDown && released == old(released) && running == old(running)
      ensures !entered ==> View() == old(View())
    {
      if isShuttingDown {
        return false;
      }
      isShuttingDown := true;
      state := ShuttingDown;
      plan := Plan(httpServer, io);
      body := Releasing;
      bodyRuns := bodyRuns + 1;
      entered := true;
    }

    method ReleaseNextResource() returns (resource: Release)
      requires Enabled(View(), ReleaseNext)
      modifies this
      ensures View() == Apply(old(View()), ReleaseNext) && resource == old(plan)[|old(released)|]
      ensures running !! Freed(resource)
    {
      resource := plan[|released|];
      running := running - Freed(resource);
      released := released + [resource];
    }

    method FinishShutdownCall()
      requires Enabled(View(), FinishShutdown)
      modifies this
      ensures View() == Apply(old(View()), FinishShutdown)
    {
      state := Terminated;
      body := Completed;
    }
  }
}
