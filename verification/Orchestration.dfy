/**
 * Concurrent runs of a Manager: any number of callers of Register, Start and Stop, one step per critical section or
 * module call.
 */
module Orchestration {
  import opened Basics
  import opened Graphs
  import opened Planning
  import opened Teardown
  import opened Management

  type Thread = nat

  /** What the modules observe of a run. */
  datatype Event =
    | InitBegun(name: Name)
    | InitDone(name: Name, ok: bool)
    | DestroyBegun(name: Name)
    | DestroyDone(name: Name, ok: bool)

  /** A module as the manager has left it; Down means no Init has succeeded since the last Destroy returned. */
  datatype Status = Down | Rising | Up | Falling

  /** A goroutine of startLayer or stopLayer: its module call, then its critical section. */
  datatype Task = Spawned | Calling | Answered(ok: bool) | Retired(ok: bool)

  /** Where a call of Start or Stop stands. */
  datatype Pc =
    | Claimed
    | PlanFailed
    | Raising(rest: seq<seq<Name>>)
    | RaisingLayer(tasks: map<Name, Task>, rest: seq<seq<Name>>)
    | Aborting
    | Stopping(snapshot: seq<Name>, rollback: bool)
    | Lowering(rest: seq<seq<Name>>, rollback: bool)
    | LoweringLayer(tasks: map<Name, Task>, rest: seq<seq<Name>>, rollback: bool)
    | Returned

  datatype State = State(nodes: Graph, started: seq<Name>, mode: ManagerState, threads: map<Thread, Pc>,
    log: seq<Event>)

  datatype Action =
    | Register(name: Name, deps: seq<Name>)
    | CallStart(t: Thread)
    | TakePlan(t: Thread)
    | ResetMode(t: Thread)
    | NextLayer(t: Thread, cancelled: bool)
    | BeginInit(t: Thread, n: Name)
    | EndInit(t: Thread, n: Name, ok: bool)
    | Append(t: Thread, n: Name)
    | JoinStart(t: Thread)
    | CallStop(t: Thread)
    | EnterStop(t: Thread)
    | TakeStopLayers(t: Thread)
    | NextTeardown(t: Thread, cancelled: bool)
    | BeginDestroy(t: Thread, n: Name)
    | EndDestroy(t: Thread, n: Name, ok: bool)
    | Drop(t: Thread, n: Name)
    | JoinStop(t: Thread)

  const Initial := State(map[], [], Created, map[], [])

  // ----- the log ------------------------------------------------------------------------------

  function Next(e: Event): Status {
    match e
    case InitBegun(_) => Rising
    case InitDone(_, ok) => if ok then Up else Down
    case DestroyBegun(_) => Falling
    case DestroyDone(_, _) => Down
  }

  function StatusOf(log: seq<Event>, n: Name): Status {
    if log == [] then Down
    else if log[|log| - 1].name == n then Next(log[|log| - 1])
    else StatusOf(log[..|log| - 1], n)
  }

  lemma StatusSnoc(log: seq<Event>, e: Event, n: Name)
    ensures StatusOf(log + [e], n) == if n == e.name then Next(e) else StatusOf(log, n)
  {
  }

  /** Calls into one module alternate: Init from rest, Destroy only of what came up, each answered before the next. */
  predicate Legal(now: Status, e: Event) {
    match e
    case InitBegun(_) => now == Down
    case InitDone(_, _) => now == Rising
    case DestroyBegun(_) => now == Up
    case DestroyDone(_, _) => now == Falling
  }

  /** Whatever is not at rest has all its dependencies up. */
  ghost predicate Coherent(g: Graph, log: seq<Event>) {
    forall m, d :: DependsOn(g, m, d) && StatusOf(log, m) != Down ==> StatusOf(log, d) == Up
  }

  ghost predicate Orderly(g: Graph, log: seq<Event>) {
    && (forall k :: 0 <= k <= |log| ==> Coherent(g, log[..k]))
    && (forall k :: 0 <= k < |log| ==> log[k].name in g && Legal(StatusOf(log[..k], log[k].name), log[k]))
  }

  // ----- steps --------------------------------------------------------------------------------

  predicate MayStart(s: State) {
    Claimable(s.mode, s.started)
  }

  predicate AllRetired(tasks: map<Name, Task>) {
    forall n :: n in tasks ==> tasks[n].Retired?
  }

  predicate Enabled(s: State, a: Action) {
    match a
    case Register(name, _) => name.text != "" && name !in s.nodes
    case CallStart(t) => t !in s.threads
    case CallStop(t) => t !in s.threads
    case TakePlan(t) => t in s.threads && s.threads[t].Claimed?
    case ResetMode(t) => t in s.threads && s.threads[t].PlanFailed?
    case NextLayer(t, _) => t in s.threads && s.threads[t].Raising?
    case BeginInit(t, n) => InTask(s, t, n) && s.threads[t].RaisingLayer? && s.threads[t].tasks[n].Spawned?
    case EndInit(t, n, _) => InTask(s, t, n) && s.threads[t].RaisingLayer? && s.threads[t].tasks[n].Calling?
    case Append(t, n) => InTask(s, t, n) && s.threads[t].RaisingLayer? && s.threads[t].tasks[n].Answered?
    case JoinStart(t) => t in s.threads && s.threads[t].RaisingLayer? && AllRetired(s.threads[t].tasks)
    case EnterStop(t) => t in s.threads && s.threads[t].Aborting?
    case TakeStopLayers(t) => t in s.threads && s.threads[t].Stopping?
    case NextTeardown(t, cancelled) =>
      t in s.threads && s.threads[t].Lowering? && (s.threads[t].rollback ==> !cancelled)
    case BeginDestroy(t, n) => InTask(s, t, n) && s.threads[t].LoweringLayer? && s.threads[t].tasks[n].Spawned?
    case EndDestroy(t, n, _) => InTask(s, t, n) && s.threads[t].LoweringLayer? && s.threads[t].tasks[n].Calling?
    case Drop(t, n) => InTask(s, t, n) && s.threads[t].LoweringLayer? && s.threads[t].tasks[n].Answered?
    case JoinStop(t) => t in s.threads && s.threads[t].LoweringLayer? && AllRetired(s.threads[t].tasks)
  }

  predicate InTask(s: State, t: Thread, n: Name) {
    t in s.threads && (s.threads[t].RaisingLayer? || s.threads[t].LoweringLayer?) && n in s.threads[t].tasks
  }

  function Goto(s: State, t: Thread, pc: Pc): State {
    s.(threads := s.threads[t := pc])
  }

  function WithTask(s: State, t: Thread, n: Name, task: Task): State
    requires InTask(s, t, n)
  {
    Goto(s, t, s.threads[t].(tasks := s.threads[t].tasks[n := task]))
  }

  /** Stop's critical section: snapshot, then the state is overwritten whatever it was. */
  function StopSection(s: State, t: Thread, rollback: bool): State {
    Goto(s.(mode := Stopped), t, if s.started == [] then Returned else Stopping(s.started, rollback))
  }

  function Spawn(names: set<Name>): map<Name, Task> {
    map n | n in names :: Spawned
  }

  ghost function Apply(s: State, a: Action): State
    requires Enabled(s, a)
  {
    match a
    case Register(name, deps) => s.(nodes := s.nodes[name := deps])
    case CallStart(t) => if MayStart(s) then Goto(s.(mode := Starting), t, Claimed) else Goto(s, t, Returned)
    case TakePlan(t) =>
      var plan := PlanOf(s.nodes);
      Goto(s, t, if plan.Layers? then Raising(plan.layers) else PlanFailed)
    case ResetMode(t) => Goto(s.(mode := Stopped), t, Returned)
    case NextLayer(t, cancelled) =>
      var rest := s.threads[t].rest;
      if rest == [] then Goto(s.(mode := Running), t, Returned)
      else if cancelled then Goto(s, t, Aborting)
      else Goto(s, t, RaisingLayer(Spawn(Elements(rest[0])), rest[1..]))
    case BeginInit(t, n) => WithTask(s.(log := s.log + [InitBegun(n)]), t, n, Calling)
    case EndInit(t, n, ok) => WithTask(s.(log := s.log + [InitDone(n, ok)]), t, n, Answered(ok))
    case Append(t, n) =>
      var ok := s.threads[t].tasks[n].ok;
      WithTask(if ok then s.(started := s.started + [n]) else s, t, n, Retired(ok))
    case JoinStart(t) =>
      var tasks := s.threads[t].tasks;
      Goto(s, t, if exists n :: n in tasks && tasks[n] == Retired(false) then Aborting else Raising(s.threads[t].rest))
    case CallStop(t) => StopSection(s, t, false)
    case EnterStop(t) => StopSection(s, t, true)
    case TakeStopLayers(t) =>
      Goto(s, t, Lowering(StopLayersOf(s.nodes, s.threads[t].snapshot), s.threads[t].rollback))
    case NextTeardown(t, cancelled) =>
      var pc := s.threads[t];
      if pc.rest == [] || cancelled then Goto(s, t, Returned)
      else Goto(s, t, LoweringLayer(Spawn(Elements(pc.rest[0]) * s.nodes.Keys), pc.rest[1..], pc.rollback))
    case BeginDestroy(t, n) => WithTask(s.(log := s.log + [DestroyBegun(n)]), t, n, Calling)
    case EndDestroy(t, n, ok) => WithTask(s.(log := s.log + [DestroyDone(n, ok)]), t, n, Answered(ok))
    case Drop(t, n) => WithTask(s.(started := Without(s.started, {n})), t, n, Retired(s.threads[t].tasks[n].ok))
    case JoinStop(t) => Goto(s, t, Lowering(s.threads[t].rest, s.threads[t].rollback))
  }

  /** Calls that have nothing left to do but return. */
  predicate Spent(pc: Pc) {
    match pc
    case Returned => true
    case Lowering(rest, _) => rest == []
    case LoweringLayer(tasks, rest, _) => rest == [] && AllRetired(tasks)
    case _ => false
  }

  /** Callers enter Stop only when no Start or Stop has anything left to do; everything else may happen at any time. */
  predicate Disciplined(s: State, a: Action) {
    a.CallStop? ==> forall t :: t in s.threads ==> Spent(s.threads[t])
  }

  /** acts leads from s to s', with or without the discipline on Stop. */
  ghost predicate Leads(s: State, acts: seq<Action>, s': State, disciplined: bool)
    decreases |acts|
  {
    if acts == [] then s' == s
    else
      && Enabled(s, acts[0]) && (disciplined ==> Disciplined(s, acts[0]))
      && Leads(Apply(s, acts[0]), acts[1..], s', disciplined)
  }

  /** Some disciplined run leads from s to s'. */
  ghost predicate Continues(s: State, s': State) {
    exists acts :: Leads(s, acts, s', true)
  }

  ghost predicate Reachable(s: State) {
    Continues(Initial, s)
  }

  /** Callers come in at any time; only entering Stop needs discipline. */
  lemma NewcomersEnter(s: State, t: Thread)
    ensures forall name: Name, deps :: name.text != "" && name !in s.nodes ==>
      Enabled(s, Register(name, deps)) && Apply(s, Register(name, deps)) == s.(nodes := s.nodes[name := deps])
    ensures t !in s.threads ==> Enabled(s, CallStart(t)) && Enabled(s, CallStop(t))
    ensures forall a :: Enabled(s, a) && !a.CallStop? ==> Disciplined(s, a)
  {
  }

  /** A call has a next step until it returns, and so has each goroutine of a layer, wherever the others are. */
  lemma NobodyWaits(s: State, t: Thread)
    ensures t in s.threads ==>
      match s.threads[t]
      case Claimed => Enabled(s, TakePlan(t))
      case PlanFailed => Enabled(s, ResetMode(t))
      case Raising(_) => Enabled(s, NextLayer(t, false)) && Enabled(s, NextLayer(t, true))
      case RaisingLayer(tasks, _) =>
        && (forall n :: n in tasks ==>
              match tasks[n]
              case Spawned => Enabled(s, BeginInit(t, n))
              case Calling => Enabled(s, EndInit(t, n, true)) && Enabled(s, EndInit(t, n, false))
              case Answered(_) => Enabled(s, Append(t, n))
              case Retired(_) => true)
        && (Enabled(s, JoinStart(t)) <==> forall n :: n in tasks ==> tasks[n].Retired?)
      case Aborting => Enabled(s, EnterStop(t))
      case Stopping(_, _) => Enabled(s, TakeStopLayers(t))
      case Lowering(_, rollback) =>
        Enabled(s, NextTeardown(t, false)) && (Enabled(s, NextTeardown(t, true)) <==> !rollback)
      case LoweringLayer(tasks, _, _) =>
        && (forall n :: n in tasks ==>
              match tasks[n]
              case Spawned => Enabled(s, BeginDestroy(t, n))
              case Calling => Enabled(s, EndDestroy(t, n, true)) && Enabled(s, EndDestroy(t, n, false))
              case Answered(_) => Enabled(s, Drop(t, n))
              case Retired(_) => true)
        && (Enabled(s, JoinStop(t)) <==> forall n :: n in tasks ==> tasks[n].Retired?)
      case Returned => forall a: Action :: !a.Register? && a.t == t ==> !Enabled(s, a)
  {
  }

  // ----- the invariant ------------------------------------------------------------------------

  function AtRest(started: seq<Name>, n: Name): Status {
    if n in started then Up else Down
  }

  function RisingStatus(task: Task): Status {
    match task
    case Spawned => Down
    case Calling => Rising
    case Answered(ok) => if ok then Up else Down
    case Retired(ok) => if ok then Up else Down
  }

  function FallingStatus(task: Task): Status {
    match task
    case Spawned => Up
    case Calling => Falling
    case Answered(_) => Down
    case Retired(_) => Down
  }

  ghost predicate Settled(started: seq<Name>, log: seq<Event>) {
    forall n :: StatusOf(log, n) == AtRest(started, n)
  }

  ghost predicate RisingLog(started: seq<Name>, log: seq<Event>, tasks: map<Name, Task>) {
    forall n :: StatusOf(log, n) == if n in tasks then RisingStatus(tasks[n]) else AtRest(started, n)
  }

  ghost predicate FallingLog(started: seq<Name>, log: seq<Event>, tasks: map<Name, Task>) {
    forall n :: StatusOf(log, n) == if n in tasks then FallingStatus(tasks[n]) else AtRest(started, n)
  }

  /**
   * A layer on its way up: its dependencies are up and outside it, and a module is listed once it has been appended.
   */
  ghost predicate OnTop(g: Graph, started: seq<Name>, tasks: map<Name, Task>) {
    && (forall n :: n in tasks ==> n in g && (n in started <==> tasks[n] == Retired(true)))
    && (forall n, d :: n in tasks && n in g && d in g[n] ==> d in started && d !in tasks)
  }

  ghost predicate LayerRises(g: Graph, started: seq<Name>, log: seq<Event>, tasks: map<Name, Task>,
                             rest: seq<seq<Name>>) {
    OnTop(g, started, tasks) && Rises(g, Elements(started) + tasks.Keys, rest) && RisingLog(started, log, tasks)
  }

  /** A layer on its way down: what is still listed is the rest of the teardown and the modules not yet dropped. */
  ghost predicate Above(g: Graph, started: seq<Name>, tasks: map<Name, Task>, rest: seq<seq<Name>>) {
    && (forall n :: n in started <==> n in Names(rest) || (n in tasks && !tasks[n].Retired?))
    && (forall n :: n in tasks ==> n in g && n !in Names(rest))
    && (forall n, d :: n in tasks && n in g && d in g[n] ==> d in Names(rest))
  }

  ghost predicate LayerFalls(g: Graph, started: seq<Name>, log: seq<Event>, tasks: map<Name, Task>,
                             rest: seq<seq<Name>>) {
    Above(g, started, tasks, rest) && Falls(g, rest) && FallingLog(started, log, tasks)
  }

  /** What the one call that is not spent may rely on. */
  ghost predicate Owns(s: State, pc: Pc) {
    match pc
    case Claimed => s.mode == Starting && s.started == [] && Settled(s.started, s.log)
    case PlanFailed => s.mode == Starting && s.started == [] && Settled(s.started, s.log)
    case Raising(rest) => s.mode == Starting && Settled(s.started, s.log) && Rises(s.nodes, Elements(s.started), rest)
    case RaisingLayer(tasks, rest) => s.mode == Starting && LayerRises(s.nodes, s.started, s.log, tasks, rest)
    case Aborting => s.mode == Starting && Settled(s.started, s.log)
    case Stopping(snapshot, _) => s.mode == Stopped && Settled(s.started, s.log) && snapshot == s.started
      && s.started != []
    case Lowering(rest, _) =>
      s.mode == Stopped && Settled(s.started, s.log) && Falls(s.nodes, rest) && Names(rest) == Elements(s.started)
    case LoweringLayer(tasks, rest, _) => s.mode == Stopped && LayerFalls(s.nodes, s.started, s.log, tasks, rest)
    case Returned => false
  }

  /** owner is the one call in progress, if any. */
  ghost predicate Core(s: State, owner: Option<Thread>) {
    && Sound(s.nodes, s.started)
    && (forall t :: t in s.threads && owner != Some(t) ==> Spent(s.threads[t]))
    && match owner
       case None => s.mode != Starting && Settled(s.started, s.log)
       case Some(t) => t in s.threads && !Spent(s.threads[t]) && Owns(s, s.threads[t])
  }

  /** The modules' view never runs ahead of the list: what is not at rest has its dependencies up. */
  lemma CoreCoherent(s: State, owner: Option<Thread>)
    requires Core(s, owner)
    ensures Coherent(s.nodes, s.log)
  {
    SoundRegistered(s.nodes, s.started);
    forall m, d | DependsOn(s.nodes, m, d) && StatusOf(s.log, m) != Down ensures StatusOf(s.log, d) == Up {
      if owner.Some? && s.threads[owner.value].LoweringLayer? {
        var pc := s.threads[owner.value];
        if m !in pc.tasks {
          FallsClosed(s.nodes, pc.rest, m, d);
        }
        assert d in Names(pc.rest);
      } else if owner.Some? && s.threads[owner.value].RaisingLayer? {
        var pc := s.threads[owner.value];
        if m !in pc.tasks {
          assert m in s.started;
        }
        assert d in s.started;
      } else {
        assert m in s.started;
      }
    }
  }

  lemma FallsClosed(g: Graph, layers: seq<seq<Name>>, m: Name, d: Name)
    requires Falls(g, layers) && m in Names(layers) && DependsOn(g, m, d)
    ensures d in Names(layers)
  {
  }

  // ----- every step keeps the invariant -------------------------------------------------------

  /** The call in progress moves on. */
  lemma MovesOn(s: State, s': State, t: Thread, pc: Pc)
    requires Core(s, Some(t)) && s'.threads == s.threads[t := pc]
    requires Sound(s'.nodes, s'.started) && !Spent(pc) && Owns(s', pc)
    ensures Core(s', Some(t))
  {
  }

  /** The call in progress has nothing left to do. */
  lemma Finishes(s: State, s': State, t: Thread, pc: Pc)
    requires Core(s, Some(t)) && s'.threads == s.threads[t := pc]
    requires Sound(s'.nodes, s'.started) && Spent(pc) && s'.mode != Starting && Settled(s'.started, s'.log)
    ensures Core(s', None)
  {
  }

  /** Who is in progress after a step. */
  ghost function OwnerAfter(s: State, owner: Option<Thread>, a: Action): Option<Thread>
    requires Enabled(s, a)
  {
    var s' := Apply(s, a);
    match owner
    case Some(t) => if t in s'.threads && !Spent(s'.threads[t]) then owner else None
    case None =>
      if (a.CallStart? || a.CallStop?) && !Spent(s'.threads[a.t]) then Some(a.t) else None
  }

  lemma RegisterKeeps(s: State, owner: Option<Thread>, name: Name, deps: seq<Name>)
    requires Core(s, owner) && name !in s.nodes
    ensures Core(s.(nodes := s.nodes[name := deps]), owner)
  {
    var s' := s.(nodes := s.nodes[name := deps]);
    SoundStable(s.nodes, s'.nodes, s.started);
    if owner.Some? {
      match s.threads[owner.value]
      case Raising(rest) => RisesStable(s.nodes, s'.nodes, Elements(s.started), rest);
      case RaisingLayer(tasks, rest) => RisesStable(s.nodes, s'.nodes, Elements(s.started) + tasks.Keys, rest);
      case Lowering(rest, _) => FallsStable(s.nodes, s'.nodes, rest);
      case LoweringLayer(tasks, rest, _) => FallsStable(s.nodes, s'.nodes, rest);
      case _ =>
    }
  }

  /** started is empty only when no call has work left. */
  lemma EmptyMeansIdle(s: State, owner: Option<Thread>)
    requires Core(s, owner) && s.mode != Starting && s.started == []
    ensures owner.None?
  {
    if owner.Some? {
      match s.threads[owner.value]
      case Lowering(rest, _) => FallsInhabited(s.nodes, rest);
      case LoweringLayer(tasks, rest, _) => FallsInhabited(s.nodes, rest);
      case _ =>
    }
  }

  lemma CallStartKeeps(s: State, owner: Option<Thread>, t: Thread)
    requires Core(s, owner) && t !in s.threads
    ensures Core(Apply(s, CallStart(t)), OwnerAfter(s, owner, CallStart(t)))
  {
    if MayStart(s) {
      EmptyMeansIdle(s, owner);
    }
  }

  lemma TakePlanKeeps(s: State, t: Thread)
    requires Core(s, Some(t)) && s.threads[t].Claimed?
    ensures Core(Apply(s, TakePlan(t)), Some(t))
  {
    if PlanOf(s.nodes).Layers? {
      PlanRises(s.nodes);
      assert Elements(s.started) == {};
    }
  }

  lemma NextLayerKeeps(s: State, t: Thread, cancelled: bool)
    requires Core(s, Some(t)) && s.threads[t].Raising?
    ensures Core(Apply(s, NextLayer(t, cancelled)), OwnerAfter(s, Some(t), NextLayer(t, cancelled)))
  {
    var rest := s.threads[t].rest;
    if rest != [] && !cancelled {
      var s' := Apply(s, NextLayer(t, cancelled));
      var tasks := s'.threads[t].tasks;
      assert tasks.Keys == Elements(rest[0]);
      assert LayerRises(s'.nodes, s'.started, s'.log, tasks, rest[1..]);
    }
  }

  lemma LayerUp(g: Graph, started: seq<Name>, log: seq<Event>, tasks: map<Name, Task>, rest: seq<seq<Name>>)
    requires LayerRises(g, started, log, tasks, rest) && AllRetired(tasks)
    ensures Settled(started, log)
    ensures (forall n :: n in tasks ==> tasks[n] != Retired(false)) ==> tasks.Keys <= Elements(started)
  {
  }

  lemma JoinStartKeeps(s: State, t: Thread)
    requires Core(s, Some(t)) && s.threads[t].RaisingLayer? && AllRetired(s.threads[t].tasks)
    ensures Core(Apply(s, JoinStart(t)), Some(t))
  {
    var tasks, rest := s.threads[t].tasks, s.threads[t].rest;
    LayerUp(s.nodes, s.started, s.log, tasks, rest);
    if !exists n :: n in tasks && tasks[n] == Retired(false) {
      assert Elements(s.started) + tasks.Keys == Elements(s.started);
    }
  }

  lemma RisingLogCall(started: seq<Name>, log: seq<Event>, tasks: map<Name, Task>, e: Event, task: Task)
    requires RisingLog(started, log, tasks) && e.name in tasks && Next(e) == RisingStatus(task)
    ensures RisingLog(started, log + [e], tasks[e.name := task])
  {
  }

  /** A module call inside a rising layer changes one task and that module's status together. */
  lemma RisingCallKeeps(s: State, t: Thread, n: Name, e: Event, task: Task)
    requires Core(s, Some(t)) && s.threads[t].RaisingLayer? && n in s.threads[t].tasks
    requires e.name == n && Next(e) == RisingStatus(task)
    requires !s.threads[t].tasks[n].Retired? && !task.Retired?
    ensures Core(WithTask(s.(log := s.log + [e]), t, n, task), Some(t))
  {
    var pc := s.threads[t];
    var s' := WithTask(s.(log := s.log + [e]), t, n, task);
    RisingLogCall(s.started, s.log, pc.tasks, e, task);
    assert pc.tasks[n := task].Keys == pc.tasks.Keys;
    assert pc.tasks[n := task][n] == task;
    MovesOn(s, s', t, RaisingLayer(pc.tasks[n := task], pc.rest));
  }

  lemma RisingLogAppend(started: seq<Name>, log: seq<Event>, tasks: map<Name, Task>, n: Name)
    requires RisingLog(started, log, tasks) && n in tasks && tasks[n] == Answered(true)
    ensures RisingLog(started + [n], log, tasks[n := Retired(true)])
  {
  }

  lemma OnTopAppend(g: Graph, started: seq<Name>, tasks: map<Name, Task>, n: Name)
    requires OnTop(g, started, tasks) && n in tasks && tasks[n] == Answered(true)
    ensures OnTop(g, started + [n], tasks[n := Retired(true)])
  {
  }

  lemma LayerAppend(g: Graph, started: seq<Name>, log: seq<Event>, tasks: map<Name, Task>, rest: seq<seq<Name>>,
                    n: Name)
    requires LayerRises(g, started, log, tasks, rest) && Sound(g, started)
    requires n in tasks && tasks[n] == Answered(true)
    ensures LayerRises(g, started + [n], log, tasks[n := Retired(true)], rest) && Sound(g, started + [n])
  {
    SoundAppend(g, started, n);
    OnTopAppend(g, started, tasks, n);
    RisingLogAppend(started, log, tasks, n);
    assert Elements(started + [n]) + tasks[n := Retired(true)].Keys == Elements(started) + tasks.Keys;
  }

  lemma LayerReject(g: Graph, started: seq<Name>, log: seq<Event>, tasks: map<Name, Task>, rest: seq<seq<Name>>,
                    n: Name)
    requires LayerRises(g, started, log, tasks, rest)
    requires n in tasks && tasks[n] == Answered(false)
    ensures LayerRises(g, started, log, tasks[n := Retired(false)], rest)
  {
    assert tasks[n := Retired(false)].Keys == tasks.Keys;
  }

  lemma AppendKeeps(s: State, t: Thread, n: Name)
    requires Core(s, Some(t)) && Enabled(s, Append(t, n))
    ensures Core(Apply(s, Append(t, n)), Some(t))
  {
    var pc := s.threads[t];
    var ok := pc.tasks[n].ok;
    var s' := Apply(s, Append(t, n));
    assert s'.started == if ok then s.started + [n] else s.started;
    if ok {
      LayerAppend(s.nodes, s.started, s.log, pc.tasks, pc.rest, n);
    } else {
      LayerReject(s.nodes, s.started, s.log, pc.tasks, pc.rest, n);
    }
    MovesOn(s, s', t, RaisingLayer(pc.tasks[n := Retired(ok)], pc.rest));
  }

  lemma StopSectionKeeps(s: State, owner: Option<Thread>, t: Thread, rollback: bool)
    requires Sound(s.nodes, s.started) && Settled(s.started, s.log)
    requires forall u :: u in s.threads && u != t ==> Spent(s.threads[u])
    ensures Core(StopSection(s, t, rollback), if s.started == [] then None else Some(t))
  {
  }

  lemma TakeStopLayersKeeps(s: State, t: Thread)
    requires Core(s, Some(t)) && s.threads[t].Stopping?
    ensures Core(Apply(s, TakeStopLayers(t)), Some(t))
  {
    var rest := StopLayersInhabited(s.nodes, s.started);
    MovesOn(s, Apply(s, TakeStopLayers(t)), t, Lowering(rest, s.threads[t].rollback));
  }

  lemma StopLayersInhabited(g: Graph, started: seq<Name>) returns (layers: seq<seq<Name>>)
    requires Sound(g, started) && started != []
    ensures layers == StopLayersOf(g, started) && layers != [] && Falls(g, layers) && Names(layers) == Elements(started)
  {
    layers := StopLayersOf(g, started);
    StopLayersSafe(g, started);
    Inhabited(started);
    assert started[0] in Names(layers);
  }

  lemma NextTeardownKeeps(s: State, t: Thread, cancelled: bool)
    requires Core(s, Some(t)) && Enabled(s, NextTeardown(t, cancelled))
    ensures Core(Apply(s, NextTeardown(t, cancelled)), OwnerAfter(s, Some(t), NextTeardown(t, cancelled)))
  {
    var pc := s.threads[t];
    var s' := Apply(s, NextTeardown(t, cancelled));
    if cancelled {
      Finishes(s, s', t, Returned);
    } else {
      var tasks := Spawn(Elements(pc.rest[0]) * s.nodes.Keys);
      TeardownLayerKnown(s.nodes, pc.rest);
      assert tasks.Keys == Elements(pc.rest[0]);
      Inhabited(pc.rest[0]);
      assert tasks[pc.rest[0][0]] == Spawned;
      LayerDescends(s.nodes, s.started, s.log, pc.rest);
      MovesOn(s, s', t, LoweringLayer(tasks, pc.rest[1..], pc.rollback));
    }
  }

  lemma LayerDescends(g: Graph, started: seq<Name>, log: seq<Event>, rest: seq<seq<Name>>)
    requires rest != [] && Falls(g, rest) && Names(rest) == Elements(started) && Settled(started, log)
    ensures LayerFalls(g, started, log, Spawn(Elements(rest[0]) * g.Keys), rest[1..])
  {
  }

  /** Every module of a teardown layer has a node: the nil-node branch of stopLayer is never taken. */
  lemma TeardownLayerKnown(g: Graph, layers: seq<seq<Name>>)
    requires Falls(g, layers) && layers != []
    ensures Elements(layers[0]) * g.Keys == Elements(layers[0])
  {
  }

  lemma FallingLogCall(started: seq<Name>, log: seq<Event>, tasks: map<Name, Task>, e: Event, task: Task)
    requires FallingLog(started, log, tasks) && e.name in tasks && Next(e) == FallingStatus(task)
    ensures FallingLog(started, log + [e], tasks[e.name := task])
  {
  }

  lemma FallingCallKeeps(s: State, t: Thread, n: Name, e: Event, task: Task)
    requires Core(s, Some(t)) && s.threads[t].LoweringLayer? && n in s.threads[t].tasks
    requires e.name == n && Next(e) == FallingStatus(task)
    requires !s.threads[t].tasks[n].Retired? && !task.Retired?
    ensures Core(WithTask(s.(log := s.log + [e]), t, n, task), Some(t))
  {
    var pc := s.threads[t];
    var s' := WithTask(s.(log := s.log + [e]), t, n, task);
    var tasks := pc.tasks[n := task];
    FallingLogCall(s.started, s.log, pc.tasks, e, task);
    assert n in tasks && !tasks[n].Retired?;
    MovesOn(s, s', t, LoweringLayer(tasks, pc.rest, pc.rollback));
  }

  lemma FallingLogDrop(started: seq<Name>, log: seq<Event>, tasks: map<Name, Task>, n: Name, ok: bool)
    requires FallingLog(started, log, tasks) && n in tasks && tasks[n] == Answered(ok)
    ensures FallingLog(Without(started, {n}), log, tasks[n := Retired(ok)])
  {
    WithoutElements(started, {n});
  }

  lemma AboveDrop(g: Graph, started: seq<Name>, tasks: map<Name, Task>, rest: seq<seq<Name>>, n: Name, ok: bool)
    requires Above(g, started, tasks, rest) && n in tasks && tasks[n] == Answered(ok)
    ensures Above(g, Without(started, {n}), tasks[n := Retired(ok)], rest)
  {
    WithoutElements(started, {n});
  }

  lemma LayerDrop(g: Graph, started: seq<Name>, log: seq<Event>, tasks: map<Name, Task>, rest: seq<seq<Name>>,
                  n: Name, ok: bool)
    requires LayerFalls(g, started, log, tasks, rest) && Sound(g, started)
    requires n in tasks && tasks[n] == Answered(ok)
    ensures LayerFalls(g, Without(started, {n}), log, tasks[n := Retired(ok)], rest) && Sound(g, Without(started, {n}))
  {
    forall m, d | m in started && m in g && d in g[m] ensures d != n {
      if m !in tasks {
        FallsClosed(g, rest, m, d);
      }
    }
    SoundWithout(g, started, {n});
    FallingLogDrop(started, log, tasks, n, ok);
    AboveDrop(g, started, tasks, rest, n, ok);
  }

  lemma LayerDown(g: Graph, started: seq<Name>, log: seq<Event>, tasks: map<Name, Task>, rest: seq<seq<Name>>)
    requires LayerFalls(g, started, log, tasks, rest) && AllRetired(tasks)
    ensures Settled(started, log) && Names(rest) == Elements(started)
  {
  }

  lemma DropKeeps(s: State, t: Thread, n: Name)
    requires Core(s, Some(t)) && Enabled(s, Drop(t, n))
    ensures Core(Apply(s, Drop(t, n)), OwnerAfter(s, Some(t), Drop(t, n)))
  {
    var pc := s.threads[t];
    var tasks := pc.tasks[n := Retired(pc.tasks[n].ok)];
    var s' := Apply(s, Drop(t, n));
    assert s' == Goto(s.(started := Without(s.started, {n})), t, LoweringLayer(tasks, pc.rest, pc.rollback));
    LayerDrop(s.nodes, s.started, s.log, pc.tasks, pc.rest, n, pc.tasks[n].ok);
    if AllRetired(tasks) && pc.rest == [] {
      LayerDown(s.nodes, s'.started, s.log, tasks, pc.rest);
      Finishes(s, s', t, LoweringLayer(tasks, pc.rest, pc.rollback));
    } else {
      MovesOn(s, s', t, LoweringLayer(tasks, pc.rest, pc.rollback));
    }
  }

  lemma JoinStopKeeps(s: State, t: Thread)
    requires Core(s, Some(t)) && s.threads[t].LoweringLayer? && AllRetired(s.threads[t].tasks)
    ensures Core(Apply(s, JoinStop(t)), Some(t))
  {
    LayerDown(s.nodes, s.started, s.log, s.threads[t].tasks, s.threads[t].rest);
  }

  /** The calls that act are the owner, newcomers, and spent calls on their way out. */
  lemma SpentKeeps(s: State, owner: Option<Thread>, a: Action)
    requires Core(s, owner) && Enabled(s, a) && !a.Register? && !a.CallStart? && !a.CallStop?
    requires owner != Some(a.t)
    ensures Core(Apply(s, a), OwnerAfter(s, owner, a))
  {
    assert Spent(s.threads[a.t]);
  }

  lemma StartStepKeeps(s: State, t: Thread, a: Action)
    requires Core(s, Some(t)) && Enabled(s, a)
    requires a == TakePlan(t) || a == ResetMode(t) || a.NextLayer? || a.BeginInit? || a.EndInit? || a.Append?
      || a.JoinStart?
    requires a.t == t
    ensures Core(Apply(s, a), OwnerAfter(s, Some(t), a))
  {
    match a
    case TakePlan(_) => TakePlanKeeps(s, t);
    case ResetMode(_) =>
    case NextLayer(_, cancelled) => NextLayerKeeps(s, t, cancelled);
    case BeginInit(_, n) => RisingCallKeeps(s, t, n, InitBegun(n), Calling);
    case EndInit(_, n, ok) => RisingCallKeeps(s, t, n, InitDone(n, ok), Answered(ok));
    case Append(_, n) => AppendKeeps(s, t, n);
    case JoinStart(_) => JoinStartKeeps(s, t);
  }

  lemma StopStepKeeps(s: State, t: Thread, a: Action)
    requires Core(s, Some(t)) && Enabled(s, a)
    requires a == EnterStop(t) || a == TakeStopLayers(t) || a.NextTeardown? || a.BeginDestroy? || a.EndDestroy?
      || a.Drop? || a.JoinStop?
    requires a.t == t
    ensures Core(Apply(s, a), OwnerAfter(s, Some(t), a))
  {
    match a
    case EnterStop(_) => StopSectionKeeps(s, Some(t), t, true);
    case TakeStopLayers(_) => TakeStopLayersKeeps(s, t);
    case NextTeardown(_, cancelled) => NextTeardownKeeps(s, t, cancelled);
    case BeginDestroy(_, n) => FallingCallKeeps(s, t, n, DestroyBegun(n), Calling);
    case EndDestroy(_, n, ok) => FallingCallKeeps(s, t, n, DestroyDone(n, ok), Answered(ok));
    case Drop(_, n) => DropKeeps(s, t, n);
    case JoinStop(_) => JoinStopKeeps(s, t);
  }

  lemma CallStopKeeps(s: State, owner: Option<Thread>, t: Thread)
    requires Core(s, owner) && t !in s.threads && Disciplined(s, CallStop(t))
    ensures Core(Apply(s, CallStop(t)), OwnerAfter(s, owner, CallStop(t)))
  {
    StopSectionKeeps(s, owner, t, false);
  }

  lemma StepKeeps(s: State, owner: Option<Thread>, a: Action)
    requires Core(s, owner) && Enabled(s, a) && Disciplined(s, a)
    ensures Core(Apply(s, a), OwnerAfter(s, owner, a))
  {
    match a
    case Register(name, deps) => RegisterKeeps(s, owner, name, deps);
    case CallStart(t) => CallStartKeeps(s, owner, t);
    case CallStop(t) => CallStopKeeps(s, owner, t);
    case _ => OwnStepKeeps(s, owner, a, a.t);
  }

  lemma OwnStepKeeps(s: State, owner: Option<Thread>, a: Action, t: Thread)
    requires Core(s, owner) && Enabled(s, a) && !a.Register? && !a.CallStart? && !a.CallStop? && a.t == t
    ensures Core(Apply(s, a), OwnerAfter(s, owner, a))
  {
    if owner != Some(t) {
      SpentKeeps(s, owner, a);
    } else if a.TakePlan? || a.ResetMode? || a.NextLayer? || a.BeginInit? || a.EndInit? || a.Append? || a.JoinStart? {
      StartStepKeeps(s, t, a);
    } else {
      StopStepKeeps(s, t, a);
    }
  }

  // ----- putting runs together ----------------------------------------------------------------

  lemma {:induction false} LeadsOn(s: State, acts: seq<Action>, mid: State, a: Action)
    requires Leads(s, acts, mid, true) && Enabled(mid, a) && Disciplined(mid, a)
    ensures Leads(s, acts + [a], Apply(mid, a), true)
    decreases |acts|
  {
    if acts == [] {
      assert [] + [a] == [a];
      assert Leads(Apply(s, a), [], Apply(s, a), true);
    } else {
      LeadsOn(Apply(s, acts[0]), acts[1..], mid, a);
      assert (acts + [a])[1..] == acts[1..] + [a];
    }
  }

  lemma Stays(s: State)
    ensures Continues(s, s)
  {
    assert Leads(s, [], s, true);
  }

  /** One more disciplined step. */
  lemma Moves(base: State, s: State, a: Action, s': State)
    requires Continues(base, s) && Enabled(s, a) && Disciplined(s, a) && Apply(s, a) == s'
    ensures Continues(base, s')
  {
    var acts :| Leads(base, acts, s, true);
    LeadsOn(base, acts, s, a);
  }
}
