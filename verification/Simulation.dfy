/**
 * The two descriptions of the manager meet: what a call of the object's Stop or Start does, a run of the step relation
 * does.
 */
module Simulation {
  import opened Basics
  import opened Graphs
  import opened Planning
  import opened Teardown
  import opened Management
  import opened ManagerLaws
  import opened Orchestration
  import Out = Outcomes

  // ----- calls as events ----------------------------------------------------------------------

  function PairOf(c: Out.Call): seq<Event> {
    match c.kind
    case InitCall => [InitBegun(c.name), InitDone(c.name, c.answer.None?)]
    case DestroyCall => [DestroyBegun(c.name), DestroyDone(c.name, c.answer.None?)]
  }

  /** The calls one after the other, as a run that interleaves nothing logs them. */
  function EventsOf(calls: seq<Out.Call>): seq<Event> {
    if calls == [] then [] else PairOf(calls[0]) + EventsOf(calls[1..])
  }

  lemma {:induction false} EventsConcat(a: seq<Out.Call>, b: seq<Out.Call>)
    ensures EventsOf(a + b) == EventsOf(a) + EventsOf(b)
  {
    if a == [] {
      assert a + b == b;
    } else {
      EventsConcat(a[1..], b);
      assert (a + b)[1..] == a[1..] + b && (a + b)[0] == a[0];
      ConcatAssociative(PairOf(a[0]), EventsOf(a[1..]), EventsOf(b));
    }
  }

  function NamesOf(calls: seq<Out.Call>): set<Name> {
    set c | c in calls :: c.name
  }

  lemma VisitsNames(calls: seq<Out.Call>, kind: Out.Kind, layer: seq<Name>)
    requires Visits(calls, kind, layer)
    ensures NamesOf(calls) == Elements(layer)
  {
    forall n | n in layer ensures n in NamesOf(calls) {
      assert Called(calls, n);
    }
    forall n | n in NamesOf(calls) ensures n in layer {
      assert Called(calls, n);
    }
  }

  // ----- one call in an otherwise unchanged state ---------------------------------------------

  /** s but for the list, the log and where t stands. */
  function At(s: State, t: Thread, pc: Pc, started: seq<Name>, log: seq<Event>): State {
    State(s.nodes, started, s.mode, s.threads[t := pc], log)
  }

  lemma Steps(base: State, s: State, t: Thread, pc: Pc, started: seq<Name>, log: seq<Event>, a: Action,
              pc': Pc, started': seq<Name>, log': seq<Event>)
    requires Continues(base, At(s, t, pc, started, log)) && !a.CallStop? && Enabled(At(s, t, pc, started, log), a)
    requires var s' := Apply(At(s, t, pc, started, log), a);
      s'.nodes == s.nodes && s'.mode == s.mode && s'.started == started' && s'.log == log'
        && s'.threads == s.threads[t := pc']
    ensures Continues(base, At(s, t, pc', started', log'))
  {
    Moves(base, At(s, t, pc, started, log), a, At(s, t, pc', started', log'));
  }

  /** tasks after the calls: those called are through with their answers, the others as before. */
  ghost predicate Through(tasks: map<Name, Task>, calls: seq<Out.Call>, tasks': map<Name, Task>) {
    && tasks'.Keys == tasks.Keys
    && (forall c :: c in calls ==> c.name in tasks && tasks'[c.name] == Retired(c.answer.None?))
    && (forall n :: n in tasks && n !in NamesOf(calls) ==> tasks'[n] == tasks[n])
  }

  lemma ThroughOn(tasks: map<Name, Task>, calls: seq<Out.Call>, tasks': map<Name, Task>)
    requires calls != [] && CalledOnce(calls) && calls[0].name in tasks
    requires Through(tasks[calls[0].name := Retired(calls[0].answer.None?)], calls[1..], tasks')
    ensures Through(tasks, calls, tasks')
  {
    var c := calls[0];
    assert calls == [c] + calls[1..];
    assert c.name !in NamesOf(calls[1..]);
  }

  lemma ThroughAll(tasks: map<Name, Task>, calls: seq<Out.Call>, tasks': map<Name, Task>)
    requires Through(tasks, calls, tasks') && NamesOf(calls) == tasks.Keys
    ensures AllRetired(tasks')
    ensures (exists n :: n in tasks' && tasks'[n] == Retired(false)) <==> exists c :: c in calls && c.answer.Some?
  {
    forall n | n in tasks' ensures exists c :: c in calls && c.name == n {
      assert n in NamesOf(calls);
    }
  }

  /** The calls still to be made, all of them of one kind into modules not called yet. */
  ghost predicate Ahead(kind: Out.Kind, tasks: map<Name, Task>, calls: seq<Out.Call>) {
    CalledOnce(calls) && forall c :: c in calls ==> c.kind == kind && c.name in tasks && tasks[c.name] == Spawned
  }

  lemma AheadOn(kind: Out.Kind, tasks: map<Name, Task>, calls: seq<Out.Call>, task: Task)
    requires Ahead(kind, tasks, calls) && calls != []
    ensures Ahead(kind, tasks[calls[0].name := task], calls[1..])
    ensures calls[0].kind == kind && calls[0].name in tasks && tasks[calls[0].name] == Spawned
    ensures NamesOf(calls) == {calls[0].name} + NamesOf(calls[1..])
  {
    assert calls == [calls[0]] + calls[1..];
  }

  lemma AheadAll(kind: Out.Kind, names: set<Name>, layer: seq<Name>, calls: seq<Out.Call>)
    requires Visits(calls, kind, layer) && names == Elements(layer)
    ensures Ahead(kind, Spawn(names), calls) && NamesOf(calls) == Spawn(names).Keys
  {
    VisitsNames(calls, kind, layer);
    assert forall c :: c in calls ==> c.name in NamesOf(calls);
  }

  // ----- the steps of a teardown --------------------------------------------------------------

  lemma BeginsDestroy(base: State, s: State, t: Thread, tasks: map<Name, Task>, rest: seq<seq<Name>>, rollback: bool,
                      started: seq<Name>, log: seq<Event>, n: Name)
    requires Continues(base, At(s, t, LoweringLayer(tasks, rest, rollback), started, log)) && n in tasks
      && tasks[n] == Spawned
    ensures Continues(base,
      At(s, t, LoweringLayer(tasks[n := Calling], rest, rollback), started, log + [DestroyBegun(n)]))
  {
    Steps(base, s, t, LoweringLayer(tasks, rest, rollback), started, log, BeginDestroy(t, n),
          LoweringLayer(tasks[n := Calling], rest, rollback), started, log + [DestroyBegun(n)]);
  }

  lemma EndsDestroy(base: State, s: State, t: Thread, tasks: map<Name, Task>, rest: seq<seq<Name>>, rollback: bool,
                    started: seq<Name>, log: seq<Event>, n: Name, ok: bool)
    requires Continues(base, At(s, t, LoweringLayer(tasks, rest, rollback), started, log)) && n in tasks
      && tasks[n] == Calling
    ensures Continues(base,
      At(s, t, LoweringLayer(tasks[n := Answered(ok)], rest, rollback), started, log + [DestroyDone(n, ok)]))
  {
    Steps(base, s, t, LoweringLayer(tasks, rest, rollback), started, log, EndDestroy(t, n, ok),
          LoweringLayer(tasks[n := Answered(ok)], rest, rollback), started, log + [DestroyDone(n, ok)]);
  }

  lemma Drops(base: State, s: State, t: Thread, tasks: map<Name, Task>, rest: seq<seq<Name>>, rollback: bool,
              started: seq<Name>, log: seq<Event>, n: Name, ok: bool)
    requires Continues(base, At(s, t, LoweringLayer(tasks, rest, rollback), started, log)) && n in tasks
      && tasks[n] == Answered(ok)
    ensures Continues(base,
      At(s, t, LoweringLayer(tasks[n := Retired(ok)], rest, rollback), Without(started, {n}), log))
  {
    Steps(base, s, t, LoweringLayer(tasks, rest, rollback), started, log, Drop(t, n),
          LoweringLayer(tasks[n := Retired(ok)], rest, rollback), Without(started, {n}), log);
  }

  lemma DestroyRuns(base: State, s: State, t: Thread, tasks: map<Name, Task>, rest: seq<seq<Name>>, rollback: bool,
                    started: seq<Name>, log: seq<Event>, c: Out.Call)
    requires Continues(base, At(s, t, LoweringLayer(tasks, rest, rollback), started, log))
    requires c.kind.DestroyCall? && c.name in tasks && tasks[c.name] == Spawned
    ensures Continues(base, At(s, t, LoweringLayer(tasks[c.name := Retired(c.answer.None?)], rest, rollback),
                               Without(started, {c.name}), log + PairOf(c)))
  {
    var n, ok := c.name, c.answer.None?;
    BeginsDestroy(base, s, t, tasks, rest, rollback, started, log, n);
    EndsDestroy(base, s, t, tasks[n := Calling], rest, rollback, started, log + [DestroyBegun(n)], n, ok);
    assert log + [DestroyBegun(n)] + [DestroyDone(n, ok)] == log + PairOf(c);
    ThreeSteps(tasks, n, ok);
    Drops(base, s, t, tasks[n := Answered(ok)], rest, rollback, started, log + PairOf(c), n, ok);
  }

  lemma ThreeSteps(tasks: map<Name, Task>, n: Name, ok: bool)
    ensures tasks[n := Calling][n := Answered(ok)] == tasks[n := Answered(ok)]
    ensures tasks[n := Answered(ok)][n := Retired(ok)] == tasks[n := Retired(ok)]
  {
  }

  lemma {:induction false} CallsDown(base: State, s: State, t: Thread, tasks: map<Name, Task>, rest: seq<seq<Name>>,
                                     rollback: bool,
                                     started: seq<Name>, log: seq<Event>, calls: seq<Out.Call>)
    returns (tasks': map<Name, Task>)
    requires Continues(base, At(s, t, LoweringLayer(tasks, rest, rollback), started, log))
    requires Ahead(Out.DestroyCall, tasks, calls)
    ensures Continues(base,
      At(s, t, LoweringLayer(tasks', rest, rollback), Without(started, NamesOf(calls)), log + EventsOf(calls)))
    ensures Through(tasks, calls, tasks')
    decreases |calls|
  {
    if calls == [] {
      tasks' := tasks;
      WithoutNone(started, {});
      assert log + [] == log && NamesOf(calls) == {};
    } else {
      var c := calls[0];
      var next := tasks[c.name := Retired(c.answer.None?)];
      AheadOn(Out.DestroyCall, tasks, calls, Retired(c.answer.None?));
      DestroyRuns(base, s, t, tasks, rest, rollback, started, log, c);
      tasks' := CallsDown(base, s, t, next, rest, rollback, Without(started, {c.name}), log + PairOf(c), calls[1..]);
      ThroughOn(tasks, calls, tasks');
      WithoutTwice(started, {c.name}, NamesOf(calls[1..]));
      ConcatAssociative(log, PairOf(c), EventsOf(calls[1..]));
    }
  }

  lemma LayerDown(base: State, s: State, t: Thread, layer: seq<Name>, rest: seq<seq<Name>>, rollback: bool,
                  started: seq<Name>, log: seq<Event>, calls: seq<Out.Call>)
    requires Continues(base, At(s, t, Lowering([layer] + rest, rollback), started, log))
    requires Visits(calls, Out.DestroyCall, layer) && Elements(layer) <= s.nodes.Keys
    ensures Continues(base,
      At(s, t, Lowering(rest, rollback), Without(started, Elements(layer)), log + EventsOf(calls)))
  {
    var tasks := Spawn(Elements(layer));
    EntersTeardownLayer(base, s, t, layer, rest, rollback, started, log);
    AheadAll(Out.DestroyCall, Elements(layer), layer, calls);
    var tasks' := CallsDown(base, s, t, tasks, rest, rollback, started, log, calls);
    ThroughAll(tasks, calls, tasks');
    var left, told := Without(started, NamesOf(calls)), log + EventsOf(calls);
    JoinsTeardownLayer(base, s, t, tasks', rest, rollback, left, told);
    assert tasks.Keys == Elements(layer);
  }

  lemma EntersTeardownLayer(base: State, s: State, t: Thread, layer: seq<Name>, rest: seq<seq<Name>>, rollback: bool,
                            started: seq<Name>, log: seq<Event>)
    requires Continues(base, At(s, t, Lowering([layer] + rest, rollback), started, log))
      && Elements(layer) <= s.nodes.Keys
    ensures Continues(base, At(s, t, LoweringLayer(Spawn(Elements(layer)), rest, rollback), started, log))
  {
    assert ([layer] + rest)[1..] == rest && Elements(layer) * s.nodes.Keys == Elements(layer);
    Steps(base, s, t, Lowering([layer] + rest, rollback), started, log, NextTeardown(t, false),
          LoweringLayer(Spawn(Elements(layer)), rest, rollback), started, log);
  }

  lemma JoinsTeardownLayer(base: State, s: State, t: Thread, tasks: map<Name, Task>, rest: seq<seq<Name>>,
                           rollback: bool,
                           started: seq<Name>, log: seq<Event>)
    requires Continues(base, At(s, t, LoweringLayer(tasks, rest, rollback), started, log)) && AllRetired(tasks)
    ensures Continues(base, At(s, t, Lowering(rest, rollback), started, log))
  {
    Steps(base, s, t, LoweringLayer(tasks, rest, rollback), started, log, JoinStop(t), Lowering(rest, rollback),
      started, log);
  }

  lemma {:induction false} LayersDown(base: State, s: State, t: Thread, layers: seq<seq<Name>>, rest: seq<seq<Name>>,
                                      rollback: bool,
                                      started: seq<Name>, log: seq<Event>, calls: seq<Out.Call>)
    requires Continues(base, At(s, t, Lowering(layers + rest, rollback), started, log))
    requires GoesThrough(calls, Out.DestroyCall, layers) && Names(layers) <= s.nodes.Keys
    ensures Continues(base, At(s, t, Lowering(rest, rollback), Without(started, Names(layers)), log + EventsOf(calls)))
    decreases |layers|
  {
    if layers == [] {
      WithoutNone(started, {});
      assert layers + rest == rest && log + [] == log;
    } else {
      var last := |layers| - 1;
      var init, layer := layers[..last], layers[last];
      var k :| 0 <= k <= |calls| && GoesThrough(calls[..k], Out.DestroyCall, init)
        && Visits(calls[k..], Out.DestroyCall, layer);
      assert layers + rest == init + ([layer] + rest);
      NamesSnoc(layers);
      LayersDown(base, s, t, init, [layer] + rest, rollback, started, log, calls[..k]);
      LayerDown(base, s, t, layer, rest, rollback, Without(started, Names(init)), log + EventsOf(calls[..k]),
        calls[k..]);
      WithoutTwice(started, Names(init), Elements(layer));
      EventsSplit(log, calls, k);
    }
  }

  lemma EventsSplit(log: seq<Event>, calls: seq<Out.Call>, k: nat)
    requires k <= |calls|
    ensures log + EventsOf(calls[..k]) + EventsOf(calls[k..]) == log + EventsOf(calls)
  {
    assert calls == calls[..k] + calls[k..];
    EventsConcat(calls[..k], calls[k..]);
    ConcatAssociative(log, EventsOf(calls[..k]), EventsOf(calls[k..]));
  }

  /** From the layers' being known to the return, cut short after k layers if k is less than all of them. */
  lemma LoweringRuns(base: State, s: State, t: Thread, rollback: bool, layers: seq<seq<Name>>, k: nat,
                     started: seq<Name>, log: seq<Event>, calls: seq<Out.Call>)
    requires Continues(base, At(s, t, Lowering(layers, rollback), started, log)) && Names(layers) <= s.nodes.Keys
    requires k <= |layers| && (rollback ==> k == |layers|) && GoesThrough(calls, Out.DestroyCall, layers[..k])
    ensures Continues(base, At(s, t, Returned, Without(started, Names(layers[..k])), log + EventsOf(calls)))
  {
    assert layers[..k] + layers[k..] == layers;
    TriedAreNames(layers, k);
    LayersDown(base, s, t, layers[..k], layers[k..], rollback, started, log, calls);
    var left, told := Without(started, Names(layers[..k])), log + EventsOf(calls);
    Steps(base, s, t, Lowering(layers[k..], rollback), left, told, NextTeardown(t, k < |layers|), Returned, left, told);
  }

  /** From the snapshot to the return. */
  lemma TeardownRuns(base: State, s: State, t: Thread, rollback: bool, layers: seq<seq<Name>>, k: nat,
                     started: seq<Name>, log: seq<Event>, calls: seq<Out.Call>)
    requires Continues(base, At(s, t, Stopping(started, rollback), started, log))
    requires layers == StopLayersOf(s.nodes, started) && Sound(s.nodes, started)
    requires k <= |layers| && (rollback ==> k == |layers|) && GoesThrough(calls, Out.DestroyCall, layers[..k])
    ensures Continues(base, At(s, t, Returned, Without(started, Names(layers[..k])), log + EventsOf(calls)))
  {
    Steps(base, s, t, Stopping(started, rollback), started, log, TakeStopLayers(t), Lowering(layers, rollback), started,
      log);
    StopLayersSafe(s.nodes, started);
    SoundRegistered(s.nodes, started);
    LoweringRuns(base, s, t, rollback, layers, k, started, log, calls);
  }

  // ----- registrations by others --------------------------------------------------------------

  lemma {:induction false} Registers(base: State, s: State, nodes: map<Name, Node>, entries: seq<Entry>)
    returns (s': State)
    requires Continues(base, s) && s.nodes == GraphOf(nodes)
    ensures Continues(base, s') && s' == s.(nodes := GraphOf(Admitted(nodes, entries)))
    decreases |entries|
  {
    if entries == [] {
      s' := s;
    } else {
      var e, before := entries[|entries| - 1], entries[..|entries| - 1];
      var s1 := Registers(base, s, nodes, before);
      var known := Admitted(nodes, before);
      if e.name.text == "" || e.mod.None? || e.name in known {
        s' := s1;
      } else {
        s' := s1.(nodes := s1.nodes[e.name := e.deps]);
        Moves(base, s1, Register(e.name, e.deps), s');
        assert GraphOf(known[e.name := Node(e.mod.value, e.deps)]) == GraphOf(known)[e.name := e.deps];
      }
    }
  }

  // ----- Stop ---------------------------------------------------------------------------------

  /**
   * Whatever a well-timed call of the object's Stop does to the manager and its modules, a run of the step relation
   * does.
   */
  lemma StopIsRun(s: State, t: Thread, nodes: map<Name, Node>, late: seq<Entry>, ctx: Context, destroy: Out.Answers,
                  errs: seq<Out.StopError>, after: seq<Name>, made: seq<Out.Call>)
    requires s.nodes == GraphOf(nodes) && Sound(GraphOf(Admitted(nodes, late)), s.started)
    requires t !in s.threads && Disciplined(s, CallStop(t))
    requires Out.StopOutcome(GraphOf(Admitted(nodes, late)), s.started, ctx, destroy, errs, after, made)
    ensures Continues(s,
      State(GraphOf(Admitted(nodes, late)), after, Stopped, s.threads[t := Returned], s.log + EventsOf(made)))
  {
    var g := GraphOf(Admitted(nodes, late));
    var layers := StopLayersOf(g, s.started);
    var k := ctx.LiveFor(|layers|);
    CoversGoesThrough(made, Out.DestroyCall, layers[..k], destroy);
    EntersStop(s, t, nodes, late);
    var s1 := s.(nodes := g, mode := Stopped);
    if s.started == [] {
      StopLayersSafe(g, s.started);
      FallsInhabited(g, layers);
      assert s.log + [] == s.log;
    } else {
      TeardownRuns(s, s1, t, false, layers, k, s.started, s.log, made);
    }
  }

  lemma EntersStop(s: State, t: Thread, nodes: map<Name, Node>, late: seq<Entry>)
    requires s.nodes == GraphOf(nodes) && t !in s.threads && Disciplined(s, CallStop(t))
    ensures var s' := s.(nodes := GraphOf(Admitted(nodes, late)), mode := Stopped);
      Continues(s, At(s', t, if s.started == [] then Returned else Stopping(s.started, false), s.started, s.log))
  {
    Stays(s);
    var s1 := Apply(s, CallStop(t));
    Moves(s, s, CallStop(t), s1);
    var s2 := Registers(s, s1, nodes, late);
  }

  // ----- the steps of a start -----------------------------------------------------------------

  lemma BeginsInit(base: State, s: State, t: Thread, tasks: map<Name, Task>, rest: seq<seq<Name>>,
                   started: seq<Name>, log: seq<Event>, n: Name)
    requires Continues(base, At(s, t, RaisingLayer(tasks, rest), started, log)) && n in tasks && tasks[n] == Spawned
    ensures Continues(base, At(s, t, RaisingLayer(tasks[n := Calling], rest), started, log + [InitBegun(n)]))
  {
    Steps(base, s, t, RaisingLayer(tasks, rest), started, log, BeginInit(t, n),
          RaisingLayer(tasks[n := Calling], rest), started, log + [InitBegun(n)]);
  }

  lemma EndsInit(base: State, s: State, t: Thread, tasks: map<Name, Task>, rest: seq<seq<Name>>,
                 started: seq<Name>, log: seq<Event>, n: Name, ok: bool)
    requires Continues(base, At(s, t, RaisingLayer(tasks, rest), started, log)) && n in tasks && tasks[n] == Calling
    ensures Continues(base, At(s, t, RaisingLayer(tasks[n := Answered(ok)], rest), started, log + [InitDone(n, ok)]))
  {
    Steps(base, s, t, RaisingLayer(tasks, rest), started, log, EndInit(t, n, ok),
          RaisingLayer(tasks[n := Answered(ok)], rest), started, log + [InitDone(n, ok)]);
  }

  lemma Appends(base: State, s: State, t: Thread, tasks: map<Name, Task>, rest: seq<seq<Name>>,
                started: seq<Name>, log: seq<Event>, n: Name, ok: bool)
    requires Continues(base, At(s, t, RaisingLayer(tasks, rest), started, log)) && n in tasks
      && tasks[n] == Answered(ok)
    ensures Continues(base,
      At(s, t, RaisingLayer(tasks[n := Retired(ok)], rest), started + (if ok then [n] else []), log))
  {
    assert started + [] == started;
    Steps(base, s, t, RaisingLayer(tasks, rest), started, log, Append(t, n),
          RaisingLayer(tasks[n := Retired(ok)], rest), started + (if ok then [n] else []), log);
  }

  lemma InitRuns(base: State, s: State, t: Thread, tasks: map<Name, Task>, rest: seq<seq<Name>>,
                 started: seq<Name>, log: seq<Event>, c: Out.Call)
    requires Continues(base, At(s, t, RaisingLayer(tasks, rest), started, log))
    requires c.kind.InitCall? && c.name in tasks && tasks[c.name] == Spawned
    ensures Continues(base, At(s, t, RaisingLayer(tasks[c.name := Retired(c.answer.None?)], rest),
                               started + Out.UpOf([c]), log + PairOf(c)))
  {
    var n, ok := c.name, c.answer.None?;
    BeginsInit(base, s, t, tasks, rest, started, log, n);
    EndsInit(base, s, t, tasks[n := Calling], rest, started, log + [InitBegun(n)], n, ok);
    assert log + [InitBegun(n)] + [InitDone(n, ok)] == log + PairOf(c);
    ThreeSteps(tasks, n, ok);
    UpOfOne(c);
    Appends(base, s, t, tasks[n := Answered(ok)], rest, started, log + PairOf(c), n, ok);
  }

  lemma UpOfOne(c: Out.Call)
    ensures Out.UpOf([c]) == if c.answer.None? then [c.name] else []
  {
    Out.UpOfSnoc([], c);
    assert [] + [c] == [c] && Out.UpOf([]) == [] && [] + [c.name] == [c.name];
  }

  lemma {:induction false} CallsUp(base: State, s: State, t: Thread, tasks: map<Name, Task>, rest: seq<seq<Name>>,
                                   started: seq<Name>, log: seq<Event>, calls: seq<Out.Call>)
    returns (tasks': map<Name, Task>)
    requires Continues(base, At(s, t, RaisingLayer(tasks, rest), started, log)) && Ahead(Out.InitCall, tasks, calls)
    ensures Continues(base, At(s, t, RaisingLayer(tasks', rest), started + Out.UpOf(calls), log + EventsOf(calls)))
    ensures Through(tasks, calls, tasks')
    decreases |calls|
  {
    if calls == [] {
      tasks' := tasks;
      assert log + [] == log && started + [] == started && NamesOf(calls) == {};
    } else {
      var c := calls[0];
      var next := tasks[c.name := Retired(c.answer.None?)];
      AheadOn(Out.InitCall, tasks, calls, Retired(c.answer.None?));
      InitRuns(base, s, t, tasks, rest, started, log, c);
      tasks' := CallsUp(base, s, t, next, rest, started + Out.UpOf([c]), log + PairOf(c), calls[1..]);
      ThroughOn(tasks, calls, tasks');
      assert calls == [c] + calls[1..];
      Out.UpOfConcat([c], calls[1..]);
      ConcatAssociative(started, Out.UpOf([c]), Out.UpOf(calls[1..]));
      ConcatAssociative(log, PairOf(c), EventsOf(calls[1..]));
    }
  }

  lemma LayerUp(base: State, s: State, t: Thread, layer: seq<Name>, rest: seq<seq<Name>>,
                started: seq<Name>, log: seq<Event>, calls: seq<Out.Call>)
    requires Continues(base, At(s, t, Raising([layer] + rest), started, log)) && Visits(calls, Out.InitCall, layer)
    ensures Continues(base, At(s, t, if exists c :: c in calls && c.answer.Some? then Aborting else Raising(rest),
                               started + Out.UpOf(calls), log + EventsOf(calls)))
  {
    var tasks := Spawn(Elements(layer));
    EntersStartLayer(base, s, t, layer, rest, started, log);
    AheadAll(Out.InitCall, Elements(layer), layer, calls);
    var tasks' := CallsUp(base, s, t, tasks, rest, started, log, calls);
    ThroughAll(tasks, calls, tasks');
    JoinsStartLayer(base, s, t, tasks', rest, started + Out.UpOf(calls), log + EventsOf(calls));
  }

  lemma EntersStartLayer(base: State, s: State, t: Thread, layer: seq<Name>, rest: seq<seq<Name>>, started: seq<Name>,
                         log: seq<Event>)
    requires Continues(base, At(s, t, Raising([layer] + rest), started, log))
    ensures Continues(base, At(s, t, RaisingLayer(Spawn(Elements(layer)), rest), started, log))
  {
    assert ([layer] + rest)[1..] == rest;
    Steps(base, s, t, Raising([layer] + rest), started, log, NextLayer(t, false),
          RaisingLayer(Spawn(Elements(layer)), rest), started, log);
  }

  lemma JoinsStartLayer(base: State, s: State, t: Thread, tasks: map<Name, Task>, rest: seq<seq<Name>>,
                        started: seq<Name>, log: seq<Event>)
    requires Continues(base, At(s, t, RaisingLayer(tasks, rest), started, log)) && AllRetired(tasks)
    ensures Continues(base,
      At(s, t, if exists n :: n in tasks && tasks[n] == Retired(false) then Aborting else Raising(rest),
                               started, log))
  {
    Steps(base, s, t, RaisingLayer(tasks, rest), started, log, JoinStart(t),
          if exists n :: n in tasks && tasks[n] == Retired(false) then Aborting else Raising(rest), started, log);
  }

  lemma {:induction false} LayersUp(base: State, s: State, t: Thread, layers: seq<seq<Name>>, rest: seq<seq<Name>>,
                                    started: seq<Name>, log: seq<Event>, calls: seq<Out.Call>)
    requires Continues(base, At(s, t, Raising(layers + rest), started, log))
    requires GoesThrough(calls, Out.InitCall, layers) && forall c :: c in calls ==> c.answer.None?
    ensures Continues(base, At(s, t, Raising(rest), started + Out.UpOf(calls), log + EventsOf(calls)))
    decreases |layers|
  {
    if layers == [] {
      assert layers + rest == rest && log + [] == log && started + [] == started;
    } else {
      var last := |layers| - 1;
      var init, layer := layers[..last], layers[last];
      var k :| 0 <= k <= |calls| && GoesThrough(calls[..k], Out.InitCall, init)
        && Visits(calls[k..], Out.InitCall, layer);
      assert layers + rest == init + ([layer] + rest);
      LayersUp(base, s, t, init, [layer] + rest, started, log, calls[..k]);
      LayerUp(base, s, t, layer, rest, started + Out.UpOf(calls[..k]), log + EventsOf(calls[..k]), calls[k..]);
      assert forall c :: c in calls[k..] ==> c in calls;
      EventsSplit(log, calls, k);
      UpSplit(started, calls, k);
    }
  }

  lemma UpSplit(started: seq<Name>, calls: seq<Out.Call>, k: nat)
    requires k <= |calls|
    ensures started + Out.UpOf(calls[..k]) + Out.UpOf(calls[k..]) == started + Out.UpOf(calls)
  {
    assert calls == calls[..k] + calls[k..];
    Out.UpOfConcat(calls[..k], calls[k..]);
    ConcatAssociative(started, Out.UpOf(calls[..k]), Out.UpOf(calls[k..]));
  }

  /** All calls into layers without a failure have answered nil. */
  lemma {:induction false} AllAnswered(calls: seq<Out.Call>, layers: seq<seq<Name>>, init: Out.Answers)
    requires Out.CoversLayers(calls, Out.InitCall, layers, init)
    requires forall i :: 0 <= i < |layers| ==> Out.FailuresOf(layers[i], init) == []
    ensures forall c :: c in calls ==> c.answer.None?
    decreases |layers|
  {
    if layers != [] {
      var last := |layers| - 1;
      var k :| 0 <= k <= |calls| && Out.CoversLayers(calls[..k], Out.InitCall, layers[..last], init)
        && Out.Covers(calls[k..], Out.InitCall, layers[last], init);
      AllAnswered(calls[..k], layers[..last], init);
      Out.FailuresIffAny(layers[last], init);
      assert calls == calls[..k] + calls[k..];
    }
  }

  lemma NoneFailedBefore(layers: seq<seq<Name>>, ctx: Context, init: Out.Answers, k: nat)
    requires k <= Out.Reached(layers, ctx, init) && k <= |layers|
    ensures forall i :: 0 <= i < k ==> Out.FailuresOf(layers[..k][i], init) == []
    ensures k < |layers| ==>
      layers == layers[..k] + ([layers[k]] + layers[k + 1..]) && layers[..k + 1] == layers[..k] + [layers[k]]
  {
    forall i | 0 <= i < k ensures Out.FailuresOf(layers[..k][i], init) == [] {
      ReachedMeans(layers, ctx, init, i);
    }
  }

  /** The layers a start completes, from the plan on. */
  lemma CompletedUp(base: State, s: State, t: Thread, done: seq<seq<Name>>, rest: seq<seq<Name>>, init: Out.Answers,
                    calls: seq<Out.Call>)
    requires Continues(base, At(s, t, Raising(done + rest), [], s.log))
    requires forall i :: 0 <= i < |done| ==> Out.FailuresOf(done[i], init) == []
    requires Out.CoversLayers(calls, Out.InitCall, done, init)
    ensures Continues(base, At(s, t, Raising(rest), Out.UpOf(calls), s.log + EventsOf(calls)))
  {
    AllAnswered(calls, done, init);
    CoversGoesThrough(calls, Out.InitCall, done, init);
    assert [] + Out.UpOf(calls) == Out.UpOf(calls);
    LayersUp(base, s, t, done, rest, [], s.log, calls);
  }

  lemma Claims(s: State, t: Thread, nodes: map<Name, Node>, late: seq<Entry>, layers: seq<seq<Name>>)
    requires s.nodes == GraphOf(nodes) && t !in s.threads && Claimable(s.mode, s.started)
      && PlanOf(s.nodes) == Layers(layers)
    ensures var s' := s.(nodes := GraphOf(Admitted(nodes, late)), mode := Starting);
      Continues(s, At(s', t, Raising(layers), [], s.log))
  {
    Stays(s);
    var s1 := Apply(s, CallStart(t));
    Moves(s, s, CallStart(t), s1);
    var s2 := Goto(s1, t, Raising(layers));
    Moves(s, s1, TakePlan(t), s2);
    var s3 := Registers(s, s2, nodes, late);
    assert s3.threads == s.threads[t := Raising(layers)];
  }

  /** A blocked start gets as far as Aborting with what it has brought up. */
  lemma BlockedRuns(base: State, s: State, t: Thread, layers: seq<seq<Name>>, ctx: Context, init: Out.Answers,
                    cancelled: bool, causes: seq<Out.Failure>, up: seq<Name>, inits: seq<Out.Call>)
    requires Continues(base, At(s, t, Raising(layers), [], s.log))
    requires Out.BlockedWith(layers, ctx, init, cancelled, causes, up, inits)
    ensures Continues(base, At(s, t, Aborting, up, s.log + EventsOf(inits)))
  {
    var k := Out.Reached(layers, ctx, init);
    NoneFailedBefore(layers, ctx, init, k);
    if cancelled {
      CancelledRuns(base, s, t, layers[..k], layers[k], layers[k + 1..], init, inits);
    } else {
      assert causes[0] in causes;
      FailedRuns(base, s, t, layers[..k], layers[k], layers[k + 1..], init, causes[0].name, inits);
    }
  }

  /** The layers before the one that finds the context cancelled come up whole. */
  lemma CancelledRuns(base: State, s: State, t: Thread, done: seq<seq<Name>>, layer: seq<Name>, rest: seq<seq<Name>>,
                      init: Out.Answers, inits: seq<Out.Call>)
    requires Continues(base, At(s, t, Raising(done + ([layer] + rest)), [], s.log))
    requires forall i :: 0 <= i < |done| ==> Out.FailuresOf(done[i], init) == []
    requires Out.CoversLayers(inits, Out.InitCall, done, init)
    ensures Continues(base, At(s, t, Aborting, Out.UpOf(inits), s.log + EventsOf(inits)))
  {
    CompletedUp(base, s, t, done, [layer] + rest, init, inits);
    var up, log := Out.UpOf(inits), s.log + EventsOf(inits);
    Steps(base, s, t, Raising([layer] + rest), up, log, NextLayer(t, true), Aborting, up, log);
  }

  /** The layers before the one that fails come up whole. */
  lemma FailedRuns(base: State, s: State, t: Thread, done: seq<seq<Name>>, layer: seq<Name>, rest: seq<seq<Name>>,
                   init: Out.Answers, failed: Name, inits: seq<Out.Call>)
    requires Continues(base, At(s, t, Raising(done + ([layer] + rest)), [], s.log))
    requires forall i :: 0 <= i < |done| ==> Out.FailuresOf(done[i], init) == []
    requires failed in layer && init(failed).Some?
    requires Out.CoversLayers(inits, Out.InitCall, done + [layer], init)
    ensures Continues(base, At(s, t, Aborting, Out.UpOf(inits), s.log + EventsOf(inits)))
  {
    var j := LastLayer(inits, done, layer, init);
    CompletedUp(base, s, t, done, [layer] + rest, init, inits[..j]);
    CoversVisits(inits[j..], Out.InitCall, layer, init);
    assert Out.Call(Out.InitCall, failed, init(failed)) in inits[j..];
    LayerUp(base, s, t, layer, rest, Out.UpOf(inits[..j]), s.log + EventsOf(inits[..j]), inits[j..]);
    EventsSplit(s.log, inits, j);
    UpSplit([], inits, j);
    assert [] + Out.UpOf(inits[..j]) == Out.UpOf(inits[..j]) && [] + Out.UpOf(inits) == Out.UpOf(inits);
  }

  lemma LastLayer(inits: seq<Out.Call>, done: seq<seq<Name>>, layer: seq<Name>, init: Out.Answers) returns (j: nat)
    requires Out.CoversLayers(inits, Out.InitCall, done + [layer], init)
    ensures j <= |inits| && Out.CoversLayers(inits[..j], Out.InitCall, done, init)
    ensures Out.Covers(inits[j..], Out.InitCall, layer, init)
  {
    assert (done + [layer])[..|done|] == done;
    j :| 0 <= j <= |inits| && Out.CoversLayers(inits[..j], Out.InitCall, done, init)
      && Out.Covers(inits[j..], Out.InitCall, layer, init);
  }

  /** The rollback, from Aborting to the return. */
  lemma RollbackRuns(base: State, s: State, t: Thread, up: seq<Name>, log: seq<Event>, destroy: Out.Answers,
                     teardown: seq<Out.StopError>, destroys: seq<Out.Call>)
    requires Continues(base, At(s, t, Aborting, up, log)) && Sound(s.nodes, up)
    requires Out.RolledBack(s.nodes, up, destroy, teardown, destroys)
    ensures Continues(base, At(s.(mode := Stopped), t, Returned, [], log + EventsOf(destroys)))
  {
    var stopped, layers := s.(mode := Stopped), StopLayersOf(s.nodes, up);
    StopLayersSafe(s.nodes, up);
    WithoutElements(up, Names(layers));
    Inhabited(Without(up, Names(layers)));
    assert layers[..|layers|] == layers;
    CoversGoesThrough(destroys, Out.DestroyCall, layers, destroy);
    EntersRollback(base, s, t, up, log);
    if up == [] {
      FallsInhabited(s.nodes, layers);
      assert log + [] == log;
    } else {
      TeardownRuns(base, stopped, t, true, layers, |layers|, up, log, destroys);
    }
  }

  lemma EntersRollback(base: State, s: State, t: Thread, up: seq<Name>, log: seq<Event>)
    requires Continues(base, At(s, t, Aborting, up, log))
    ensures Continues(base, At(s.(mode := Stopped), t, if up == [] then Returned else Stopping(up, true), up, log))
  {
    var pc := if up == [] then Returned else Stopping(up, true);
    assert s.threads[t := Aborting][t := pc] == s.threads[t := pc];
    Moves(base, At(s, t, Aborting, up, log), EnterStop(t), At(s.(mode := Stopped), t, pc, up, log));
  }

  // ----- Start --------------------------------------------------------------------------------

  /** Whatever a call of the object's Start does to the manager and its modules, a run of the step relation does. */
  lemma StartIsRun(s: State, t: Thread, nodes: map<Name, Node>, late: seq<Entry>, ctx: Context, init: Out.Answers,
                   destroy: Out.Answers,
                   r: Out.StartResult, inits: seq<Out.Call>, up: seq<Name>, destroys: seq<Out.Call>,
                   nodes': map<Name, Node>, mode': ManagerState, started': seq<Name>)
    requires s.nodes == GraphOf(nodes) && t !in s.threads
    requires StartOutcome(nodes, s.mode, s.started, ctx, init, destroy, late, r, inits, up, destroys, nodes', mode',
      started')
    ensures Continues(s, State(GraphOf(nodes'), started', mode', s.threads[t := Returned],
                               s.log + EventsOf(inits) + EventsOf(destroys)))
  {
    match r {
      case AlreadyStarted => NoStart(s, t);
      case Unplannable(_) => NoPlan(s, t);
      case Started =>
        var layers := PlanOf(s.nodes).layers;
        Claims(s, t, nodes, late, layers);
        WholeStart(s, s.(nodes := GraphOf(nodes'), mode := Starting), t, layers, ctx, init, inits);
      case Rejected(cancelled, causes, teardown) =>
        var layers := PlanOf(s.nodes).layers;
        Claims(s, t, nodes, late, layers);
        var s1 := s.(nodes := GraphOf(nodes'), mode := Starting);
        BlockedRuns(s, s1, t, layers, ctx, init, cancelled, causes, up, inits);
        RollbackRuns(s, s1, t, up, s.log + EventsOf(inits), destroy, teardown, destroys);
    }
  }

  lemma NoStart(s: State, t: Thread)
    requires t !in s.threads && !Claimable(s.mode, s.started)
    ensures Continues(s, s.(threads := s.threads[t := Returned], log := s.log + [] + []))
  {
    Stays(s);
    assert s.log + [] + [] == s.log;
    Moves(s, s, CallStart(t), Goto(s, t, Returned));
  }

  lemma NoPlan(s: State, t: Thread)
    requires t !in s.threads && Claimable(s.mode, s.started) && !PlanOf(s.nodes).Layers?
    ensures Continues(s, s.(mode := Stopped, threads := s.threads[t := Returned], log := s.log + [] + []))
  {
    Stays(s);
    assert s.log + [] + [] == s.log;
    var s1 := Apply(s, CallStart(t));
    Moves(s, s, CallStart(t), s1);
    var s2 := Goto(s1, t, PlanFailed);
    Moves(s, s1, TakePlan(t), s2);
    var s3 := Apply(s2, ResetMode(t));
    Moves(s, s2, ResetMode(t), s3);
    assert s3.threads == s.threads[t := Returned];
  }

  lemma WholeStart(base: State, s: State, t: Thread, layers: seq<seq<Name>>, ctx: Context, init: Out.Answers,
                   inits: seq<Out.Call>)
    requires Continues(base, At(s, t, Raising(layers), [], s.log)) && Out.Reached(layers, ctx, init) == |layers|
    requires Out.CoversLayers(inits, Out.InitCall, layers, init)
    ensures Continues(base, At(s.(mode := Running), t, Returned, Out.UpOf(inits), s.log + EventsOf(inits) + []))
  {
    NoneFailedBefore(layers, ctx, init, |layers|);
    assert layers[..|layers|] == layers && layers + [] == layers;
    CompletedUp(base, s, t, layers, [], init, inits);
    FinishesStart(base, s, t, Out.UpOf(inits), s.log + EventsOf(inits));
  }

  lemma FinishesStart(base: State, s: State, t: Thread, started: seq<Name>, log: seq<Event>)
    requires Continues(base, At(s, t, Raising([]), started, log))
    ensures Continues(base, At(s.(mode := Running), t, Returned, started, log + []))
  {
    assert log + [] == log && s.threads[t := Raising([])][t := Returned] == s.threads[t := Returned];
    Moves(base, At(s, t, Raising([]), started, log), NextLayer(t, false),
      At(s.(mode := Running), t, Returned, started, log));
  }
}
