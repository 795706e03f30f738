/** Concurrent runs of one BaseAppModule: any number of callers of Init, Destroy, AddHook, RemoveHook and AddCleanup. */
module Lifecycle {
  import opened Basics
  import opened Hooks
  import opened BaseModule

  type Thread = nat

  /** Something a start hook acquires and a cleanup releases. */
  type Resource = nat

  datatype Lists = Lists(beforeStart: seq<Hook>, afterStart: seq<Hook>, beforeDestroy: seq<Hook>,
    afterDestroy: seq<Hook>)

  function Hooked(lists: Lists, phase: Phase): seq<Hook> {
    match phase
    case BeforeStart => lists.beforeStart
    case AfterStart => lists.afterStart
    case BeforeDestroy => lists.beforeDestroy
    case AfterDestroy => lists.afterDestroy
  }

  function Rehooked(lists: Lists, phase: Phase, hooks: seq<Hook>): Lists {
    match phase
    case BeforeStart => lists.(beforeStart := hooks)
    case AfterStart => lists.(afterStart := hooks)
    case BeforeDestroy => lists.(beforeDestroy := hooks)
    case AfterDestroy => lists.(afterDestroy := hooks)
  }

  /**
   * Where a call of Init or Destroy stands; destroying tells Destroy's unwinding from a failed Init's. Started is an
   * Init that has answered nil, Finished any other call that has returned.
   */
  datatype Pc =
    | InPhase(phase: Phase, todo: seq<Hook>, running: bool)
    | BetweenPhases
    | InitRejected
    | Taking(destroying: bool)
    | Unwinding(batch: seq<nat>, left: nat, destroying: bool)
    | DestroyRejected
    | Started
    | Finished
  {
    predicate Over() {
      Started? || Finished?
    }
  }

  /** registered lists every cleanup ever added, by number, with the resource it releases if it releases one. */
  datatype State = State(
    state: ModuleState, lists: Lists, cleanups: seq<nat>, threads: map<Thread, Pc>,
    registered: seq<Option<Resource>>, executed: seq<nat>, acquiring: set<Resource>, held: set<Resource>,
    history: seq<ModuleState>)

  datatype Action =
    | AddHook(phase: Phase, hook: Hook)
    | RemoveHook(phase: Phase, name: string)
    | AddCleanup
    | Acquire(t: Thread, r: Resource)
    | AddRelease(t: Thread, r: Resource)
    | CallInit(t: Thread)
    | CallDestroy(t: Thread)
    | SeeCancelled(t: Thread)
    | SkipHook(t: Thread)
    | BeginHook(t: Thread)
    | EndHook(t: Thread, ok: bool)
    | EndPhase(t: Thread)
    | TakeAfterStart(t: Thread)
    | MarkDestroying(t: Thread)
    | TakeBatch(t: Thread)
    | RunCleanup(t: Thread, ok: bool)
    | EndUnwinding(t: Thread)
    | BackToRunning(t: Thread)

  const Initial := State(Created, Lists([], [], [], []), [], map[], [], [], {}, {}, [Created])

  // ----- steps --------------------------------------------------------------------------------

  predicate StartPhase(phase: Phase) {
    phase == BeforeStart || phase == AfterStart
  }

  predicate At(s: State, t: Thread, pc: Pc) {
    t in s.threads && s.threads[t] == pc
  }

  predicate InsideStartHook(s: State, t: Thread) {
    t in s.threads && s.threads[t].InPhase? && StartPhase(s.threads[t].phase) && s.threads[t].running
  }

  predicate BetweenHooks(s: State, t: Thread) {
    t in s.threads && s.threads[t].InPhase? && !s.threads[t].running
  }

  /** A start hook that returns, with whatever outcome, has registered a release for all it acquired. */
  predicate Enabled(s: State, a: Action) {
    match a
    case AddHook(_, _) => true
    case RemoveHook(_, _) => true
    case AddCleanup => true
    case Acquire(t, r) => InsideStartHook(s, t) && r !in s.held
    case AddRelease(t, r) => InsideStartHook(s, t) && r in s.acquiring
    case CallInit(t) => t !in s.threads
    case CallDestroy(t) => t !in s.threads
    case SeeCancelled(t) => BetweenHooks(s, t) && s.threads[t].todo != []
    case SkipHook(t) => BetweenHooks(s, t) && s.threads[t].todo != [] && s.threads[t].todo[0].run.None?
    case BeginHook(t) => BetweenHooks(s, t) && s.threads[t].todo != [] && s.threads[t].todo[0].run.Some?
    case EndHook(t, _) =>
      && t in s.threads && s.threads[t].InPhase? && s.threads[t].running && s.threads[t].todo != []
      && (StartPhase(s.threads[t].phase) ==> s.acquiring == {})
    case EndPhase(t) => BetweenHooks(s, t) && s.threads[t].todo == []
    case TakeAfterStart(t) => At(s, t, BetweenPhases)
    case MarkDestroying(t) => At(s, t, InitRejected)
    case TakeBatch(t) => t in s.threads && s.threads[t].Taking?
    case RunCleanup(t, _) => t in s.threads && s.threads[t].Unwinding? && 0 < s.threads[t].left <= |s.threads[t].batch|
    case EndUnwinding(t) => t in s.threads && s.threads[t].Unwinding? && s.threads[t].left == 0
    case BackToRunning(t) => At(s, t, DestroyRejected)
  }

  function Goto(s: State, t: Thread, pc: Pc): State {
    s.(threads := s.threads[t := pc])
  }

  function Write(s: State, state: ModuleState): State {
    s.(state := state, history := s.history + [state])
  }

  function Snapshot(s: State, phase: Phase): Pc {
    InPhase(phase, OrderHooks(Hooked(s.lists, phase)), false)
  }

  /** Where a phase goes when it fails. */
  function Rejection(phase: Phase): Pc {
    match phase
    case BeforeStart => InitRejected
    case AfterStart => InitRejected
    case BeforeDestroy => DestroyRejected
    case AfterDestroy => Finished
  }

  function Released(s: State, k: nat): set<Resource> {
    if k < |s.registered| && s.registered[k].Some? then {s.registered[k].value} else {}
  }

  function Apply(s: State, a: Action): State
    requires Enabled(s, a)
  {
    match a
    case AddHook(phase, hook) => s.(lists := Rehooked(s.lists, phase, Hooked(s.lists, phase) + [hook]))
    case RemoveHook(phase, name) => s.(lists := Rehooked(s.lists, phase, Remove(Hooked(s.lists, phase), name)))
    case AddCleanup => s.(cleanups := s.cleanups + [|s.registered|], registered := s.registered + [None])
    case Acquire(t, r) => s.(acquiring := s.acquiring + {r}, held := s.held + {r})
    case AddRelease(t, r) =>
      s.(cleanups := s.cleanups + [|s.registered|], registered := s.registered + [Some(r)],
        acquiring := s.acquiring - {r})
    case CallInit(t) =>
      if MayInit(s.state) then Goto(Write(s, Initializing), t, Snapshot(s, BeforeStart)) else Goto(s, t, Finished)
    case CallDestroy(t) =>
      if s.state == Running then Goto(Write(s, Destroying), t, Snapshot(s, BeforeDestroy)) else Goto(s, t, Finished)
    case SeeCancelled(t) => Goto(s, t, Rejection(s.threads[t].phase))
    case SkipHook(t) => Goto(s, t, InPhase(s.threads[t].phase, s.threads[t].todo[1..], false))
    case BeginHook(t) => Goto(s, t, InPhase(s.threads[t].phase, s.threads[t].todo, true))
    case EndHook(t, ok) =>
      Goto(s, t, if ok then InPhase(s.threads[t].phase, s.threads[t].todo[1..], false)
        else Rejection(s.threads[t].phase))
    case EndPhase(t) =>
      (match s.threads[t].phase
       case BeforeStart => Goto(s, t, BetweenPhases)
       case AfterStart => Goto(Write(s, Running), t, Started)
       case BeforeDestroy => Goto(s, t, Taking(true))
       case AfterDestroy => Goto(s, t, Finished))
    case TakeAfterStart(t) => Goto(s, t, Snapshot(s, AfterStart))
    case MarkDestroying(t) => Goto(Write(s, Destroying), t, Taking(false))
    case TakeBatch(t) => Goto(s.(cleanups := []), t, Unwinding(s.cleanups, |s.cleanups|, s.threads[t].destroying))
    case RunCleanup(t, _) =>
      var pc := s.threads[t];
      var k := pc.batch[pc.left - 1];
      Goto(s.(executed := s.executed + [k], held := s.held - Released(s, k)), t,
        Unwinding(pc.batch, pc.left - 1, pc.destroying))
    case EndUnwinding(t) =>
      if s.threads[t].destroying then Goto(Write(s, Destroyed), t, Snapshot(s, AfterDestroy))
      else Goto(Write(s, Failed), t, Finished)
    case BackToRunning(t) => Goto(Write(s, Running), t, Finished)
  }

  ghost predicate Leads(s: State, acts: seq<Action>, s': State)
    decreases |acts|
  {
    if acts == [] then s' == s else Enabled(s, acts[0]) && Leads(Apply(s, acts[0]), acts[1..], s')
  }

  ghost predicate Reachable(s: State) {
    exists acts :: Leads(Initial, acts, s)
  }

  // ----- the invariant ------------------------------------------------------------------------

  /** The calls that own the transition in progress. AfterDestroy comes after the transition has been published. */
  predicate Owning(pc: Pc) {
    !pc.Over() && !(pc.InPhase? && pc.phase == AfterDestroy)
  }

  predicate InTransition(state: ModuleState) {
    state == Initializing || state == Destroying
  }

  /** The state an owner has published, and the one before it. */
  predicate Published(pc: Pc, state: ModuleState, prior: ModuleState) {
    match pc
    case InPhase(phase, _, _) =>
      if StartPhase(phase) then state == Initializing else state == Destroying && prior == Running
    case BetweenPhases => state == Initializing
    case InitRejected => state == Initializing
    case Taking(destroying) => state == Destroying && prior == if destroying then Running else Initializing
    case Unwinding(_, _, destroying) => state == Destroying && prior == if destroying then Running else Initializing
    case DestroyRejected => state == Destroying && prior == Running
    case Started => false
    case Finished => false
  }

  predicate Edge(a: ModuleState, b: ModuleState) {
    match a
    case Created => b == Initializing
    case Initializing => b == Running || b == Destroying
    case Running => b == Destroying
    case Destroying => b == Running || b == Destroyed || b == Failed
    case Destroyed => b == Initializing
    case Failed => b == Initializing
  }

  /** A failed start passes through Destroying to Failed; a teardown ends Destroyed or back in Running. */
  predicate Fork(a: ModuleState, b: ModuleState, c: ModuleState) {
    b == Destroying ==> if a == Initializing then c == Failed else c == Running || c == Destroyed
  }

  ghost predicate Lawful(history: seq<ModuleState>) {
    && history != [] && history[0] == Created
    && (forall i :: 0 <= i < |history| - 1 ==> Edge(history[i], history[i + 1]))
    && (forall i :: 0 <= i < |history| - 2 ==> Fork(history[i], history[i + 1], history[i + 2]))
  }

  ghost predicate Exclusive(s: State, owner: Option<Thread>) {
    && Lawful(s.history) && s.history[|s.history| - 1] == s.state
    && (forall t :: t in s.threads && owner != Some(t) ==> !Owning(s.threads[t]))
    && match owner
       case None => !InTransition(s.state)
       case Some(t) =>
         && t in s.threads && Owning(s.threads[t]) && |s.history| >= 2
         && Published(s.threads[t], s.state, s.history[|s.history| - 2])
  }

  lemma LawfulOn(history: seq<ModuleState>, state: ModuleState)
    requires Lawful(history) && Edge(history[|history| - 1], state)
    requires |history| >= 2 ==> Fork(history[|history| - 2], history[|history| - 1], state)
    ensures Lawful(history + [state])
  {
  }

  /** Who owns the transition after a step. */
  function OwnerAfter(s: State, owner: Option<Thread>, a: Action): Option<Thread>
    requires Enabled(s, a)
  {
    var s' := Apply(s, a);
    match owner
    case Some(t) => if t in s'.threads && Owning(s'.threads[t]) then owner else None
    case None => if (a.CallInit? || a.CallDestroy?) && Owning(s'.threads[a.t]) then Some(a.t) else None
  }

  predicate Writes(s: State, a: Action) {
    match a
    case CallInit(_) => MayInit(s.state)
    case CallDestroy(_) => s.state == Running
    case EndPhase(t) => t in s.threads && s.threads[t].InPhase? && s.threads[t].phase == AfterStart
    case MarkDestroying(_) => true
    case EndUnwinding(_) => true
    case BackToRunning(_) => true
    case _ => false
  }

  lemma WritingKeepsExclusive(s: State, owner: Option<Thread>, a: Action)
    requires Exclusive(s, owner) && Enabled(s, a) && Writes(s, a)
    ensures Exclusive(Apply(s, a), OwnerAfter(s, owner, a))
  {
    if a.CallInit? || a.CallDestroy? {
      ClaimingKeepsExclusive(s, owner, a);
    } else {
      PublishingKeepsExclusive(s, owner, a);
    }
  }

  lemma ClaimingKeepsExclusive(s: State, owner: Option<Thread>, a: Action)
    requires Exclusive(s, owner) && Enabled(s, a) && Writes(s, a) && (a.CallInit? || a.CallDestroy?)
    ensures Exclusive(Apply(s, a), OwnerAfter(s, owner, a))
  {
    LawfulOn(s.history, Apply(s, a).state);
  }

  lemma PublishingKeepsExclusive(s: State, owner: Option<Thread>, a: Action)
    requires Exclusive(s, owner) && Enabled(s, a) && Writes(s, a) && !a.CallInit? && !a.CallDestroy?
    ensures Exclusive(Apply(s, a), OwnerAfter(s, owner, a))
  {
    LawfulOn(s.history, Apply(s, a).state);
  }

  lemma QuietKeepsExclusive(s: State, owner: Option<Thread>, a: Action)
    requires Exclusive(s, owner) && Enabled(s, a) && !Writes(s, a)
    ensures Exclusive(Apply(s, a), OwnerAfter(s, owner, a))
  {
    assert Apply(s, a).history == s.history && Apply(s, a).state == s.state;
  }
}
