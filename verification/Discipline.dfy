/**
 * Runs that show why Stop needs its discipline: one for starts that overlap it, one for Stops that overlap, one for the
 * order of calls.
 */
module Discipline {
  import opened Graphs
  import opened Planning
  import opened Teardown
  import opened Management
  import opened Orchestration
  import opened RunSafety

  lemma Overwrites<K, V>(k: K, v: V, w: V)
    ensures map[k := v][k := w] == map[k := w]
  {
  }

  // ----- stretches of a run -------------------------------------------------------------------

  /** The first Start, thread 0, has planned these layers. */
  lemma Planned(base: State, s: State, layers: seq<seq<Name>>) returns (s': State)
    requires Continues(base, s) && s.mode == Created && s.started == [] && s.threads == map[]
      && PlanOf(s.nodes) == Layers(layers)
    ensures Continues(base, s') && s' == s.(mode := Starting, threads := map[0 := Raising(layers)])
  {
    var claimed := s.(mode := Starting, threads := map[0 := Claimed]);
    Moves(base, s, CallStart(0), claimed);
    s' := s.(mode := Starting, threads := map[0 := Raising(layers)]);
    Overwrites(0, Claimed, Raising(layers));
    Moves(base, claimed, TakePlan(0), s');
  }

  /** It goes on to a layer of one module and calls its Init. */
  lemma CallsInit(base: State, s: State, n: Name, rest: seq<seq<Name>>) returns (s': State)
    requires Continues(base, s) && s.threads == map[0 := Raising([[n]] + rest)]
    ensures Continues(base, s')
    ensures s' == s.(threads := map[0 := RaisingLayer(map[n := Calling], rest)], log := s.log + [InitBegun(n)])
  {
    var spawned, calling := RaisingLayer(map[n := Spawned], rest), RaisingLayer(map[n := Calling], rest);
    assert Spawn(Elements([n])) == map[n := Spawned];
    assert ([[n]] + rest)[1..] == rest;
    Overwrites(0, Raising([[n]] + rest), spawned);
    var mid := s.(threads := map[0 := spawned]);
    Moves(base, s, NextLayer(0, false), mid);
    Overwrites(n, Spawned, Calling);
    Overwrites(0, spawned, calling);
    s' := s.(threads := map[0 := calling], log := s.log + [InitBegun(n)]);
    Moves(base, mid, BeginInit(0, n), s');
  }

  /** Init succeeds and the layer is done. */
  lemma ComesUp(base: State, s: State, n: Name, rest: seq<seq<Name>>) returns (s': State)
    requires Continues(base, s) && s.threads == map[0 := RaisingLayer(map[n := Calling], rest)]
    ensures Continues(base, s')
    ensures s' == s.(threads := map[0 := Raising(rest)], log := s.log + [InitDone(n, true)], started := s.started + [n])
  {
    var calling, answered, retired :=
      RaisingLayer(map[n := Calling], rest), RaisingLayer(map[n := Answered(true)], rest),
        RaisingLayer(map[n := Retired(true)], rest);
    Overwrites(n, Calling, Answered(true));
    Overwrites(0, calling, answered);
    var s1 := s.(threads := map[0 := answered], log := s.log + [InitDone(n, true)]);
    Moves(base, s, EndInit(0, n, true), s1);
    Overwrites(n, Answered(true), Retired(true));
    Overwrites(0, answered, retired);
    var s2 := s1.(threads := map[0 := retired], started := s.started + [n]);
    Moves(base, s1, Append(0, n), s2);
    Overwrites(0, retired, Raising(rest));
    s' := s2.(threads := map[0 := Raising(rest)]);
    Moves(base, s2, JoinStart(0), s');
  }

  /** A Stop that has found one module started calls its Destroy. */
  lemma StopCalls(base: State, s: State, n: Name, t: Thread) returns (s': State)
    requires Continues(base, s) && n in s.nodes && StopLayersOf(s.nodes, [n]) == [[n]]
    requires t in s.threads && s.threads[t] == Stopping([n], false)
    ensures Continues(base, s')
    ensures s' == s.(log := s.log + [DestroyBegun(n)],
                     threads := s.threads[t := LoweringLayer(map[n := Calling], [], false)])
  {
    var s1 := s.(threads := s.threads[t := Lowering([[n]], false)]);
    Moves(base, s, TakeStopLayers(t), s1);
    s' := StopCallsRest(base, s1, n, t);
    assert s'.threads == s.threads[t := LoweringLayer(map[n := Calling], [], false)];
  }

  lemma StopCallsRest(base: State, s: State, n: Name, t: Thread) returns (s': State)
    requires Continues(base, s) && n in s.nodes && t in s.threads && s.threads[t] == Lowering([[n]], false)
    ensures Continues(base, s')
    ensures s' == s.(log := s.log + [DestroyBegun(n)],
      threads := s.threads[t := LoweringLayer(map[n := Calling], [], false)])
  {
    var spawned, calling := LoweringLayer(map[n := Spawned], [], false), LoweringLayer(map[n := Calling], [], false);
    var s1 := s.(threads := s.threads[t := spawned]);
    assert Elements([n]) * s.nodes.Keys == {n};
    assert Spawn({n}) == map[n := Spawned] && [[n]][1..] == [];
    Moves(base, s, NextTeardown(t, false), s1);
    Overwrites(n, Spawned, Calling);
    s' := s.(log := s.log + [DestroyBegun(n)], threads := s.threads[t := calling]);
    assert s1.threads[t := calling] == s'.threads;
    Moves(base, s1, BeginDestroy(t, n), s');
  }

  /** A refused Destroy: the teardown drops the module all the same. */
  lemma RefusedDrops(base: State, s: State, n: Name, t: Thread) returns (s': State)
    requires Continues(base, s) && s.started == [n]
    requires t in s.threads && s.threads[t] == LoweringLayer(map[n := Calling], [], false)
    ensures Continues(base, s') && s'.started == [] && s'.mode == s.mode
    ensures s'.threads.Keys == s.threads.Keys && forall u :: u in s.threads && u != t ==> s'.threads[u] == s.threads[u]
  {
    var s1 := Apply(s, EndDestroy(t, n, false));
    Moves(base, s, EndDestroy(t, n, false), s1);
    assert s1.threads[t].tasks[n] == Answered(false);
    s' := Apply(s1, Drop(t, n));
    Moves(base, s1, Drop(t, n), s');
    assert Without([n], {n}) == [];
  }

  // ----- one module ---------------------------------------------------------------------------

  lemma OneModulePlan(n: Name)
    ensures PlanOf(map[n := []]) == Layers([[n]])
    ensures StopLayersOf(map[n := []], [n]) == [[n]]
  {
    var g: Graph := map[n := []];
    assert Chain(g, [n]);
    forall p | Chain(g, p) ensures p == [n] {
      if |p| > 1 {
        ChainStep(g, p);
      }
    }
    assert ChainFrom(g, n, [n]);
    forall m, i | 0 <= i < 1 ensures m in [[n]][i] <==> Height(g, m, i) {
      assert i == 0;
    }
    assert n in [[n]][0];
    assert ExactLayering(g, [[n]]);
    PlanIffExact(g, [[n]]);
    OneToStop(g, n);
  }

  /** With one module up that depends on nothing, Stop has one layer to do. */
  lemma OneToStop(g: Graph, n: Name)
    requires n in g && g[n] == []
    ensures StopLayersOf(g, [n]) == [[n]]
  {
    var layers := StopLayersOf(g, [n]);
    assert Sound(g, [n]);
    StopLayersSafe(g, [n]);
    FallsInhabited(g, layers);
    OneLayer(g, layers, n);
  }

  lemma OneLayer(g: Graph, layers: seq<seq<Name>>, n: Name)
    requires Falls(g, layers) && layers != [] && Names(layers) == {n}
    ensures layers == [[n]]
  {
    assert forall m :: m in layers[0] ==> m in Names(layers);
    var first := layers[0];
    assert first[0] in first && first[|first| - 1] in first;
    assert first == [n];
    FallsInhabited(g, layers[1..]);
    assert Names(layers[1..]) <= Names(layers);
    assert layers == [layers[0]] + layers[1..];
  }

  lemma MidStart(n: Name) returns (s: State)
    requires n.text != ""
    ensures Reachable(s)
    ensures s == State(map[n := []], [], Starting, map[0 := RaisingLayer(map[n := Calling], [])], [InitBegun(n)])
  {
    Stays(Initial);
    var s1 := State(map[n := []], [], Created, map[], []);
    Moves(Initial, Initial, Register(n, []), s1);
    OneModulePlan(n);
    var s2 := Planned(Initial, s1, [[n]]);
    assert [[n]] == [[n]] + [];
    s := CallsInit(Initial, s2, n, []);
    assert [] + [InitBegun(n)] == [InitBegun(n)];
  }

  /**
   * A Stop that enters while a Start is under way frees the manager: a second Start gets in beside the first one's
   * Init.
   */
  lemma StopDuringStartAdmitsAnother(n: Name)
    requires n.text != ""
    ensures var start := RaisingLayer(map[n := Calling], []);
      exists s, s' ::
        && Reachable(s) && s.threads == map[0 := start]
        && Continues(Apply(s, CallStop(1)), s') && s'.threads == map[0 := start, 1 := Returned, 2 := Claimed]
  {
    var s := MidStart(n);
    var s1 := Apply(s, CallStop(1));
    Stays(s1);
    var s2 := Apply(s1, CallStart(2));
    Moves(s1, s1, CallStart(2), s2);
    assert s2.threads == map[0 := RaisingLayer(map[n := Calling], []), 1 := Returned, 2 := Claimed];
  }

  lemma AllUp(n: Name) returns (s: State)
    requires n.text != ""
    ensures Reachable(s) && s.nodes == map[n := []] && s.started == [n] && s.threads == map[0 := Returned]
  {
    var s1 := MidStart(n);
    var s2 := ComesUp(Initial, s1, n, []);
    assert [] + [n] == [n];
    Overwrites(0, Raising([]), Returned);
    s := s2.(mode := Running, threads := map[0 := Returned]);
    Moves(Initial, s2, NextLayer(0, false), s);
  }

  /** A first Stop in the middle of its one call of Destroy. */
  lemma MidStop(n: Name) returns (s: State)
    requires n.text != ""
    ensures Reachable(s) && s.nodes == map[n := []] && s.started == [n]
    ensures s.threads == map[0 := Returned, 1 := LoweringLayer(map[n := Calling], [], false)]
  {
    OneModulePlan(n);
    var s0 := AllUp(n);
    var s1 := s0.(mode := Stopped, threads := s0.threads[1 := Stopping([n], false)]);
    Moves(Initial, s0, CallStop(1), s1);
    s := StopCalls(Initial, s1, n, 1);
  }

  /**
   * Two overlapping Stops: the second one's refused Destroy drops the module, and a Start gets in beside the first
   * one's.
   */
  lemma OverlappingStopsAdmitStart(n: Name)
    requires n.text != ""
    ensures var first := LoweringLayer(map[n := Calling], [], false);
      exists s, s' ::
        && Reachable(s) && s.threads == map[0 := Returned, 1 := first]
        && Continues(Apply(s, CallStop(2)), s')
        && 1 in s'.threads && s'.threads[1] == first && 3 in s'.threads && s'.threads[3] == Claimed
  {
    OneModulePlan(n);
    var first := LoweringLayer(map[n := Calling], [], false);
    var s := MidStop(n);
    var s1 := Apply(s, CallStop(2));
    Stays(s1);
    var s2 := StopCalls(s1, s1, n, 2);
    var s3 := RefusedDrops(s1, s2, n, 2);
    assert s3.threads[1] == first;
    var s4 := Apply(s3, CallStart(3));
    Moves(s1, s3, CallStart(3), s4);
    assert s4.threads[1] == first && s4.threads[3] == Claimed;
  }

  // ----- two modules --------------------------------------------------------------------------

  lemma TwoModulePlan(d: Name, m: Name)
    requires d != m
    ensures PlanOf(map[d := [], m := [d]]) == Layers([[d], [m]])
  {
    var g: Graph := map[d := [], m := [d]];
    var layers := [[d], [m]];
    assert Chain(g, [d]) && Chain(g, [m]) && Chain(g, [m, d]);
    forall p | Chain(g, p) ensures p == [d] || p == [m] || p == [m, d] {
      if |p| > 1 {
        ChainStep(g, p);
        assert DependsOn(g, p[0], p[1]);
        assert |p| > 2 ==> DependsOn(g, p[1], p[1 + 1]);
      }
    }
    assert ChainFrom(g, d, [d]) && ChainFrom(g, m, [m, d]);
    assert d in layers[0] && m in layers[1];
    assert Height(g, d, 0) && Height(g, m, 1);
    forall n, i | 0 <= i < 2 ensures n in layers[i] <==> Height(g, n, i) {
      assert layers[i] == if i == 0 then [d] else [m];
      if Height(g, n, i) {
        HeightInGraph(g, n, i);
        HeightUnique(g, n, i, if n == d then 0 else 1);
      }
    }
    assert ExactLayering(g, layers);
    PlanIffExact(g, layers);
  }

  lemma TwoRegistered(d: Name, m: Name) returns (s: State)
    requires d.text != "" && m.text != "" && d != m
    ensures Reachable(s) && s == State(map[d := [], m := [d]], [], Created, map[], [])
  {
    Stays(Initial);
    var s1 := State(map[d := []], [], Created, map[], []);
    Moves(Initial, Initial, Register(d, []), s1);
    s := State(map[d := [], m := [d]], [], Created, map[], []);
    assert map[d := []][m := [d]] == map[d := [], m := [d]];
    Moves(Initial, s1, Register(m, [d]), s);
  }

  /** The dependency is up and its dependent in the middle of Init. */
  lemma SecondRising(d: Name, m: Name) returns (s: State)
    requires d.text != "" && m.text != "" && d != m
    ensures Reachable(s) && s.nodes == map[d := [], m := [d]] && s.started == [d]
    ensures s.threads == map[0 := RaisingLayer(map[m := Calling], [])] && StatusOf(s.log, m) == Rising
  {
    var s1 := TwoRegistered(d, m);
    TwoModulePlan(d, m);
    var s2 := Planned(Initial, s1, [[d], [m]]);
    assert [[d], [m]] == [[d]] + [[m]];
    var s3 := CallsInit(Initial, s2, d, [[m]]);
    var s4 := ComesUp(Initial, s3, d, [[m]]);
    assert [] + [d] == [d] && [[m]] == [[m]] + [];
    s := CallsInit(Initial, s4, m, []);
    StatusSnoc(s4.log, InitBegun(m), m);
  }

  /** A Stop that enters while a Start is under way destroys a dependency beneath the Init of its dependent. */
  lemma StopDuringStartBreaksOrder(d: Name, m: Name)
    requires d.text != "" && m.text != "" && d != m
    ensures exists s, s' ::
      && Reachable(s) && s.threads == map[0 := RaisingLayer(map[m := Calling], [])]
      && Continues(Apply(s, CallStop(1)), s')
      && DependsOn(s'.nodes, m, d) && StatusOf(s'.log, m) == Rising && StatusOf(s'.log, d) == Falling
  {
    var s := SecondRising(d, m);
    var s1 := Apply(s, CallStop(1));
    Stays(s1);
    OneToStop(s.nodes, d);
    var s2 := StopCalls(s1, s1, d, 1);
    StatusSnoc(s.log, DestroyBegun(d), m);
    StatusSnoc(s.log, DestroyBegun(d), d);
    assert DependsOn(s2.nodes, m, d);
  }

  // ----- the discipline is exact --------------------------------------------------------------

  ghost predicate OneAtWork(s: State) {
    forall t, u :: t in s.threads && u in s.threads && !Spent(s.threads[t]) && !Spent(s.threads[u]) ==> t == u
  }

  lemma {:induction false} FreshThread(threads: set<Thread>) returns (t: Thread)
    ensures forall u :: u in threads ==> u < t
    decreases threads
  {
    t := 0;
    if threads != {} {
      var u :| u in threads;
      var above := FreshThread(threads - {u});
      t := if u < above then above else u + 1;
      assert forall w :: w in threads ==> w == u || w in threads - {u};
    }
  }

  lemma WellTimedStop(s: State, t: Thread, s': State)
    requires Reachable(s) && t !in s.threads && Disciplined(s, CallStop(t)) && Continues(Apply(s, CallStop(t)), s')
    ensures OneAtWork(s')
  {
    var owner := ReachableCore(s);
    CallStopKeeps(s, owner, t);
    var owner1 := OwnerAfter(s, owner, CallStop(t));
    var acts :| Leads(Apply(s, CallStop(t)), acts, s', true);
    var owner2 := RunKeeps(Apply(s, CallStop(t)), owner1, acts, s');
  }

  /** A Stop that enters beside a call with work left leaves two at work, or lets the next Start in beside it. */
  lemma IllTimedStop(s: State, t: Thread, u: Thread) returns (s': State)
    requires t !in s.threads && u in s.threads && !Spent(s.threads[u])
    ensures Continues(Apply(s, CallStop(t)), s') && !OneAtWork(s')
  {
    var s1 := Apply(s, CallStop(t));
    Stays(s1);
    if s.started != [] {
      s' := s1;
      assert t in s'.threads && u in s'.threads && !Spent(s'.threads[t]) && !Spent(s'.threads[u]);
    } else {
      var v := FreshThread(s1.threads.Keys);
      s' := Apply(s1, CallStart(v));
      Moves(s1, s1, CallStart(v), s');
      assert v in s'.threads && u in s'.threads && !Spent(s'.threads[v]) && !Spent(s'.threads[u]);
    }
  }

  /**
   * In whatever state a Stop enters: all disciplined continuations keep to one call at work if and only if no call has
   * work left when it does. So the discipline is not only enough, nothing weaker would do.
   */
  lemma DisciplineIsExact(s: State, t: Thread)
    requires Reachable(s) && t !in s.threads
    ensures (forall s' :: Continues(Apply(s, CallStop(t)), s') ==> OneAtWork(s')) <==> Disciplined(s, CallStop(t))
  {
    if Disciplined(s, CallStop(t)) {
      forall s' | Continues(Apply(s, CallStop(t)), s') ensures OneAtWork(s') {
        WellTimedStop(s, t, s');
      }
    } else {
      var u :| u in s.threads && !Spent(s.threads[u]);
      var s' := IllTimedStop(s, t, u);
    }
  }
}
