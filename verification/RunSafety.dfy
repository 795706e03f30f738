/** What holds in every disciplined run of a Manager. */
module RunSafety {
  import opened Basics
  import opened Graphs
  import opened Teardown
  import opened Orchestration

  // ----- the log stays orderly ----------------------------------------------------------------

  lemma OrderlySnoc(g: Graph, log: seq<Event>, e: Event)
    requires Orderly(g, log) && Coherent(g, log + [e])
    requires e.name in g && Legal(StatusOf(log, e.name), e)
    ensures Orderly(g, log + [e])
  {
    var more := log + [e];
    forall k | 0 <= k <= |more| ensures Coherent(g, more[..k]) {
      if k <= |log| {
        assert more[..k] == log[..k];
      } else {
        assert more[..k] == more;
      }
    }
    forall k | 0 <= k < |more| ensures more[k].name in g && Legal(StatusOf(more[..k], more[k].name), more[k]) {
      if k < |log| {
        assert more[..k] == log[..k];
      } else {
        assert more[..k] == log;
      }
    }
  }

  lemma OrderlyRegister(g: Graph, log: seq<Event>, name: Name, deps: seq<Name>)
    requires Orderly(g, log) && name !in g
    ensures Orderly(g[name := deps], log)
  {
    var g' := g[name := deps];
    forall k | 0 <= k <= |log| ensures Coherent(g', log[..k]) {
      assert Unmentioned(log[..k], name);
      StatusMeans(log[..k], name);
      assert Coherent(g, log[..k]);
      forall m, d | DependsOn(g', m, d) && StatusOf(log[..k], m) != Down ensures StatusOf(log[..k], d) == Up {
        assert DependsOn(g, m, d);
      }
    }
  }

  ghost predicate IsCall(a: Action) {
    a.BeginInit? || a.EndInit? || a.BeginDestroy? || a.EndDestroy?
  }

  function EventOf(a: Action): Event
    requires IsCall(a)
  {
    match a
    case BeginInit(_, n) => InitBegun(n)
    case EndInit(_, n, ok) => InitDone(n, ok)
    case BeginDestroy(_, n) => DestroyBegun(n)
    case EndDestroy(_, n, ok) => DestroyDone(n, ok)
  }

  /** Only the call in progress calls modules, and it calls them in turn. */
  lemma CallsAreLegal(s: State, owner: Option<Thread>, a: Action)
    requires Core(s, owner) && Enabled(s, a) && IsCall(a)
    ensures EventOf(a).name in s.nodes && Legal(StatusOf(s.log, EventOf(a).name), EventOf(a))
    ensures Apply(s, a).log == s.log + [EventOf(a)] && Apply(s, a).nodes == s.nodes
  {
    assert !s.threads[a.t].tasks[a.n].Retired?;
    assert !Spent(s.threads[a.t]);
    assert owner == Some(a.t);
  }

  lemma LogKeeps(s: State, owner: Option<Thread>, a: Action)
    requires Core(s, owner) && Orderly(s.nodes, s.log) && Enabled(s, a) && Disciplined(s, a)
    ensures Orderly(Apply(s, a).nodes, Apply(s, a).log)
  {
    if a.Register? {
      OrderlyRegister(s.nodes, s.log, a.name, a.deps);
    } else if IsCall(a) {
      CallsAreLegal(s, owner, a);
      StepKeeps(s, owner, a);
      CoreCoherent(Apply(s, a), OwnerAfter(s, owner, a));
      OrderlySnoc(s.nodes, s.log, EventOf(a));
    } else {
      LogUntouched(s, a);
    }
  }

  lemma LogUntouched(s: State, a: Action)
    requires Enabled(s, a) && !a.Register? && !IsCall(a)
    ensures Apply(s, a).log == s.log && Apply(s, a).nodes == s.nodes
  {
  }

  lemma {:induction false} RunKeeps(s: State, owner: Option<Thread>, acts: seq<Action>, s': State)
    returns (owner': Option<Thread>)
    requires Core(s, owner) && Orderly(s.nodes, s.log) && Leads(s, acts, s', true)
    ensures Core(s', owner') && Orderly(s'.nodes, s'.log)
    decreases |acts|
  {
    if acts == [] {
      owner' := owner;
    } else {
      StepKeeps(s, owner, acts[0]);
      LogKeeps(s, owner, acts[0]);
      owner' := RunKeeps(Apply(s, acts[0]), OwnerAfter(s, owner, acts[0]), acts[1..], s');
    }
  }

  lemma ReachableCore(s: State) returns (owner: Option<Thread>)
    requires Reachable(s)
    ensures Core(s, owner) && Orderly(s.nodes, s.log)
  {
    var acts :| Leads(Initial, acts, s, true);
    forall n ensures StatusOf([], n) == AtRest([], n) {
    }
    assert Core(Initial, None);
    assert Orderly(Initial.nodes, Initial.log);
    owner := RunKeeps(Initial, None, acts, s);
  }

  // ----- ordering over whole runs -------------------------------------------------------------

  /** The latest event of n in log is the one at j. */
  ghost predicate LatestOf(log: seq<Event>, n: Name, j: int) {
    0 <= j < |log| && log[j].name == n && forall k :: j < k < |log| ==> log[k].name != n
  }

  ghost predicate Unmentioned(log: seq<Event>, n: Name) {
    forall k :: 0 <= k < |log| ==> log[k].name != n
  }

  /** A status is nothing but the latest event. */
  lemma {:induction false} StatusMeans(log: seq<Event>, n: Name)
    ensures Unmentioned(log, n) ==> StatusOf(log, n) == Down
    ensures !Unmentioned(log, n) ==> exists j :: LatestOf(log, n, j) && StatusOf(log, n) == Next(log[j])
  {
    if log != [] {
      var last, init := |log| - 1, log[..|log| - 1];
      StatusMeans(init, n);
      if log[last].name == n {
        assert LatestOf(log, n, last);
      } else if !Unmentioned(init, n) {
        var j :| LatestOf(init, n, j) && StatusOf(init, n) == Next(init[j]);
        assert LatestOf(log, n, j) && log[j] == init[j];
      }
    }
  }

  /** Coherence climbs chains: nothing is away from rest unless everything it reaches is up. */
  lemma CoherentReaches(g: Graph, log: seq<Event>, m: Name, d: Name)
    requires Coherent(g, log) && Reaches(g, m, d) && StatusOf(log, m) != Down
    ensures StatusOf(log, d) == Up
  {
    var p :| ChainFrom(g, m, p) && |p| >= 2 && p[|p| - 1] == d;
    ClimbChain(g, log, p);
  }

  lemma {:induction false} ClimbChain(g: Graph, log: seq<Event>, p: seq<Name>)
    requires Coherent(g, log) && Chain(g, p) && |p| >= 2 && StatusOf(log, p[0]) != Down
    ensures StatusOf(log, p[|p| - 1]) == Up
  {
    assert DependsOn(g, p[0], p[0 + 1]);
    if |p| > 2 {
      ChainSuffix(g, p, 1);
      ClimbChain(g, log, p[1..]);
    }
  }

  /** The log just before and just after an event agree on all other modules, and both are coherent. */
  lemma AroundEvent(g: Graph, log: seq<Event>, i: nat, m: Name)
    requires Orderly(g, log) && i < |log|
    ensures Coherent(g, log[..i] + [log[i]])
    ensures StatusOf(log[..i] + [log[i]], m) == if m == log[i].name then Next(log[i]) else StatusOf(log[..i], m)
  {
    assert log[..i + 1] == log[..i] + [log[i]];
    StatusSnoc(log[..i], log[i], m);
  }

  lemma UpBeforeInit(g: Graph, log: seq<Event>, i: nat, d: Name)
    requires Orderly(g, log) && i < |log| && log[i].InitBegun? && Reaches(g, log[i].name, d)
    ensures StatusOf(log[..i], d) == Up
  {
    AroundEvent(g, log, i, log[i].name);
    AroundEvent(g, log, i, d);
    CoherentReaches(g, log[..i] + [log[i]], log[i].name, d);
  }

  lemma DownBeforeDestroy(g: Graph, log: seq<Event>, i: nat, m: Name)
    requires Orderly(g, log) && i < |log| && log[i].DestroyBegun? && Reaches(g, m, log[i].name)
    ensures StatusOf(log[..i], m) == Down
  {
    AroundEvent(g, log, i, log[i].name);
    AroundEvent(g, log, i, m);
    if StatusOf(log[..i] + [log[i]], m) != Down {
      CoherentReaches(g, log[..i] + [log[i]], m, log[i].name);
    }
  }

  /** Init begins only when every module it depends on, however indirectly, was last seen to come up. */
  lemma InitAfterDependencies(s: State, i: nat, d: Name)
    requires Reachable(s) && i < |s.log| && s.log[i].InitBegun?
    requires Reaches(s.nodes, s.log[i].name, d)
    ensures exists j :: 0 <= j < i && s.log[j] == InitDone(d, true) && forall k :: j < k < i ==> s.log[k].name != d
  {
    var owner := ReachableCore(s);
    UpBeforeInit(s.nodes, s.log, i, d);
    var before := s.log[..i];
    StatusMeans(before, d);
    var j :| LatestOf(before, d, j) && StatusOf(before, d) == Next(before[j]);
    assert s.log[j] == before[j] && forall k :: j < k < i ==> s.log[k] == before[k];
  }

  /**
   * Destroy begins only when every module that depends on it, however indirectly, never ran, failed to start or has
   * been destroyed.
   */
  lemma DestroyAfterDependents(s: State, i: nat, m: Name)
    requires Reachable(s) && i < |s.log| && s.log[i].DestroyBegun?
    requires Reaches(s.nodes, m, s.log[i].name)
    ensures (forall k :: 0 <= k < i ==> s.log[k].name != m)
      || exists j :: 0 <= j < i && s.log[j].name == m && (s.log[j].DestroyDone? || s.log[j] == InitDone(m, false))
           && forall k :: j < k < i ==> s.log[k].name != m
  {
    var owner := ReachableCore(s);
    DownBeforeDestroy(s.nodes, s.log, i, m);
    LatestBefore(s.log, i, m);
  }

  /** What the status before position i says about the events up to there. */
  lemma LatestBefore(log: seq<Event>, i: nat, m: Name)
    requires i <= |log|
    ensures (StatusOf(log[..i], m) == Down && forall k :: 0 <= k < i ==> log[k].name != m)
      || exists j :: 0 <= j < i && log[j].name == m && StatusOf(log[..i], m) == Next(log[j])
           && forall k :: j < k < i ==> log[k].name != m
  {
    var before := log[..i];
    StatusMeans(before, m);
    assert forall k :: 0 <= k < i ==> log[k] == before[k];
    if !Unmentioned(before, m) {
      var j :| LatestOf(before, m, j) && StatusOf(before, m) == Next(before[j]);
      assert log[j] == before[j];
    }
  }

  /**
   * Calls into one module alternate: exactly one Destroy between a successful Init and the next Init, none otherwise.
   */
  lemma CallsAlternate(s: State, i: nat)
    requires Reachable(s) && i < |s.log|
    ensures var n := s.log[i].name;
      (s.log[i].InitBegun? && forall k :: 0 <= k < i ==> s.log[k].name != n)
      || exists j :: 0 <= j < i && s.log[j].name == n && (forall k :: j < k < i ==> s.log[k].name != n)
           && match s.log[i]
              case InitBegun(_) => s.log[j].DestroyDone? || s.log[j] == InitDone(n, false)
              case InitDone(_, _) => s.log[j].InitBegun?
              case DestroyBegun(_) => s.log[j] == InitDone(n, true)
              case DestroyDone(_, _) => s.log[j].DestroyBegun?
  {
    var owner := ReachableCore(s);
    assert Legal(StatusOf(s.log[..i], s.log[i].name), s.log[i]);
    LatestBefore(s.log, i, s.log[i].name);
  }

  // ----- started, and who may act -------------------------------------------------------------

  /** In every reachable state started is duplicate-free, registered, dependency-closed and topologically ordered. */
  lemma StartedStaysSound(s: State)
    requires Reachable(s)
    ensures forall i, j :: 0 <= i < j < |s.started| ==> s.started[i] != s.started[j]
    ensures forall i :: 0 <= i < |s.started| ==>
      && s.started[i] in s.nodes
      && forall d :: d in s.nodes[s.started[i]] ==> exists j :: 0 <= j < i && s.started[j] == d
  {
    var owner := ReachableCore(s);
    SoundMeans(s.nodes, s.started);
    forall i, d | 0 <= i < |s.started| && d in s.nodes[s.started[i]]
      ensures exists j :: 0 <= j < i && s.started[j] == d
    {
      assert d in s.started[..i];
    }
  }

  /** At most one call has anything left to do: no two starts, rollbacks or teardowns are in progress together. */
  lemma OneCallAtWork(s: State, t: Thread, u: Thread)
    requires Reachable(s) && t in s.threads && u in s.threads
    requires !Spent(s.threads[t]) && !Spent(s.threads[u])
    ensures t == u
  {
    var owner := ReachableCore(s);
    assert owner == Some(t) && owner == Some(u);
  }

  // ----- a manager that is running ------------------------------------------------------------

  lemma StepKeepsRunning(s: State, owner: Option<Thread>, a: Action)
    requires Core(s, owner) && s.mode.Running? && Enabled(s, a) && !a.CallStop?
    ensures Apply(s, a).mode.Running?
  {
    assert owner.None?;
    if !a.Register? && !a.CallStart? {
      assert Spent(s.threads[a.t]);
    }
  }

  lemma {:induction false} RunningStays(s: State, owner: Option<Thread>, acts: seq<Action>, s': State)
    requires Core(s, owner) && s.mode.Running? && Leads(s, acts, s', true)
    requires forall a :: a in acts ==> !a.CallStop?
    ensures s'.mode.Running?
    decreases |acts|
  {
    if acts != [] {
      StepKeepsRunning(s, owner, acts[0]);
      StepKeeps(s, owner, acts[0]);
      RunningStays(Apply(s, acts[0]), OwnerAfter(s, owner, acts[0]), acts[1..], s');
    }
  }

  /**
   * A Start returns successfully when its last layer is behind it. From then on, until somebody calls Stop, the manager
   * runs and every Start is refused, whatever else is done meanwhile.
   */
  lemma RunningRefusesStart(s: State, t: Thread, cancelled: bool, acts: seq<Action>, s': State, u: Thread)
    requires Reachable(s) && t in s.threads && s.threads[t] == Raising([])
    requires Leads(Apply(s, NextLayer(t, cancelled)), acts, s', true)
    requires (forall a :: a in acts ==> !a.CallStop?) && u !in s'.threads
    ensures s'.mode.Running?
    ensures Apply(s', CallStart(u)) == s'.(threads := s'.threads[u := Returned])
  {
    var owner := ReachableCore(s);
    var a := NextLayer(t, cancelled);
    assert owner == Some(t);
    StepKeeps(s, owner, a);
    RunningStays(Apply(s, a), OwnerAfter(s, owner, a), acts, s');
  }

  /** A Start that gets through finds no call at work and every module at rest. */
  lemma ClaimFindsRest(s: State)
    requires Reachable(s) && MayStart(s)
    ensures forall t :: t in s.threads ==> Spent(s.threads[t])
    ensures forall n :: StatusOf(s.log, n) == Down
  {
    var owner := ReachableCore(s);
    EmptyMeansIdle(s, owner);
  }

  /** The layer about to be torn down consists of registered modules, so stopLayer never meets a missing node. */
  lemma NoMissingNode(s: State, t: Thread)
    requires Reachable(s) && t in s.threads && s.threads[t].Lowering? && s.threads[t].rest != []
    ensures forall n :: n in s.threads[t].rest[0] ==> n in s.nodes
  {
    var owner := ReachableCore(s);
    assert owner == Some(t);
  }

  predicate RollingBack(pc: Pc) {
    match pc
    case Aborting => true
    case Stopping(_, rollback) => rollback
    case Lowering(_, rollback) => rollback
    case LoweringLayer(_, _, rollback) => rollback
    case _ => false
  }

  /** The last Drop of a teardown empties the list. */
  lemma LastDropEmpties(s: State, t: Thread, n: Name)
    requires Core(s, Some(t)) && Enabled(s, Drop(t, n)) && Spent(Apply(s, Drop(t, n)).threads[t])
    ensures Apply(s, Drop(t, n)).started == []
  {
    var pc := s.threads[t];
    var tasks := pc.tasks[n := Retired(pc.tasks[n].ok)];
    LayerDrop(s.nodes, s.started, s.log, pc.tasks, pc.rest, n, pc.tasks[n].ok);
    LayerDown(s.nodes, Without(s.started, {n}), s.log, tasks, pc.rest);
    Inhabited(Without(s.started, {n}));
  }

  lemma TeardownBegins(s: State, t: Thread)
    requires Core(s, Some(t)) && s.threads[t].Lowering? && s.threads[t].rest != []
    ensures !Spent(Apply(s, NextTeardown(t, false)).threads[t])
  {
    var pc := s.threads[t];
    TeardownLayerKnown(s.nodes, pc.rest);
    Inhabited(pc.rest[0]);
    var n :| n in pc.rest[0];
    var tasks := Spawn(Elements(pc.rest[0]) * s.nodes.Keys);
    assert n in tasks && !tasks[n].Retired?;
    assert Apply(s, NextTeardown(t, false)).threads[t] == LoweringLayer(tasks, pc.rest[1..], pc.rollback);
  }

  lemma CallLeavesWork(s: State, t: Thread, a: Action)
    requires Enabled(s, a) && (a.BeginDestroy? || a.EndDestroy?) && a.t == t
    ensures !Spent(Apply(s, a).threads[t])
  {
    assert !Apply(s, a).threads[t].tasks[a.n].Retired?;
  }

  lemma RollbackActs(s: State, t: Thread, a: Action)
    requires Core(s, Some(t)) && RollingBack(s.threads[t]) && Enabled(s, a)
    requires Spent(Apply(s, a).threads[t])
    ensures a.Drop? || (a.EnterStop? && s.started == [])
    ensures a.t == t
  {
    match a
    case TakeStopLayers(u) => if u == t { TakeStopLayersKeeps(s, t); }
    case NextTeardown(u, _) => if u == t { TeardownBegins(s, t); }
    case BeginDestroy(u, _) => if u == t { CallLeavesWork(s, t, a); }
    case EndDestroy(u, _, _) => if u == t { CallLeavesWork(s, t, a); }
    case _ =>
  }

  /** A rollback ends with nothing started, every module at rest and the manager free to start again. */
  lemma RollbackRestores(s: State, t: Thread, a: Action)
    requires Reachable(s) && Enabled(s, a) && Disciplined(s, a)
    requires t in s.threads && RollingBack(s.threads[t]) && !Spent(s.threads[t]) && Spent(Apply(s, a).threads[t])
    ensures MayStart(Apply(s, a)) && forall n :: StatusOf(Apply(s, a).log, n) == Down
  {
    var owner := ReachableCore(s);
    assert owner == Some(t);
    RollbackEnds(s, t, a);
  }

  lemma RollbackEnds(s: State, t: Thread, a: Action)
    requires Core(s, Some(t)) && Enabled(s, a) && Disciplined(s, a)
    requires RollingBack(s.threads[t]) && Spent(Apply(s, a).threads[t])
    ensures MayStart(Apply(s, a)) && forall n :: StatusOf(Apply(s, a).log, n) == Down
    ensures Apply(s, a).log == s.log && Apply(s, a).nodes == s.nodes
  {
    RollbackActs(s, t, a);
    StepKeeps(s, Some(t), a);
    if a.Drop? {
      LastDropEmpties(s, t, a.n);
    }
  }
}
