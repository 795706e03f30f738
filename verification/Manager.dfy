/** The Manager object: its fields, and Register, plan, stopLayers, forget, startLayer, stopLayer, Start and Stop. */
module Management {
  import opened Basics
  import opened Graphs
  import opened Planning
  import opened Teardown
  import opened PlanLoop
  import opened Outcomes

  /** Identity of a registered module value. */
  type ModuleId = nat

  datatype Node = Node(mod: ModuleId, deps: seq<Name>)

  datatype ManagerState = Created | Starting | Running | Stopped

  /** When a start attempt may claim the manager: not starting or running, and nothing left over from before. */
  predicate Claimable(state: ManagerState, started: seq<Name>) {
    (state == Created || state == Stopped) && started == []
  }

  /** The arguments of a call of Register. */
  datatype Entry = Entry(name: Name, mod: Option<ModuleId>, deps: seq<Name>)

  /** The nodes after the entry has been offered: refused ones leave no trace. */
  function Admit(nodes: map<Name, Node>, e: Entry): map<Name, Node> {
    if e.name.text == "" || e.mod.None? || e.name in nodes then nodes else nodes[e.name := Node(e.mod.value, e.deps)]
  }

  function Admitted(nodes: map<Name, Node>, entries: seq<Entry>): map<Name, Node> {
    if entries == [] then nodes else Admit(Admitted(nodes, entries[..|entries| - 1]), entries[|entries| - 1])
  }

  predicate Admissible(e: Entry, n: Name) {
    e.name == n && n.text != "" && e.mod.Some?
  }

  /** Registered modules stay as they are; of the entries offered for another name the first that is complete wins. */
  lemma {:induction false} AdmittedMeans(nodes: map<Name, Node>, entries: seq<Entry>, n: Name) returns (i: nat)
    ensures i <= |entries| && forall j :: 0 <= j < i ==> !Admissible(entries[j], n)
    ensures i < |entries| ==> Admissible(entries[i], n)
    ensures n in nodes ==> n in Admitted(nodes, entries) && Admitted(nodes, entries)[n] == nodes[n]
    ensures n !in nodes ==> (n in Admitted(nodes, entries) <==> i < |entries|)
    ensures n !in nodes && i < |entries| ==>
      Admitted(nodes, entries)[n] == Node(entries[i].mod.value, entries[i].deps)
  {
    if entries == [] {
      i := 0;
    } else {
      var init, last := entries[..|entries| - 1], entries[|entries| - 1];
      i := AdmittedMeans(nodes, init, n);
      assert Admitted(nodes, entries) == Admit(Admitted(nodes, init), last);
      if i == |init| && !Admissible(last, n) {
        i := |entries|;
      }
    }
  }

  function GraphOf(nodes: map<Name, Node>): Graph {
    map n | n in nodes :: nodes[n].deps
  }

  datatype RegisterError = EmptyName | NilModule | DuplicateModule

  /** Which of its four ways a Start ends in, and what it has done by then; primes mark the fields afterwards. */
  ghost predicate StartOutcome(nodes: map<Name, Node>, state: ManagerState, started: seq<Name>,
                               ctx: Context, init: Answers, destroy: Answers, late: seq<Entry>,
                               r: StartResult, inits: seq<Call>, up: seq<Name>, destroys: seq<Call>,
                               nodes': map<Name, Node>, state': ManagerState, started': seq<Name>)
  {
    var plan := PlanOf(GraphOf(nodes));
    && (r.AlreadyStarted? <==> !Claimable(state, started))
    && (r.Unplannable? <==> Claimable(state, started) && !plan.Layers?)
    && nodes' == (if r.Started? || r.Rejected? then Admitted(nodes, late) else nodes)
    && match r
       case AlreadyStarted => state' == state && started' == started && inits == [] && destroys == []
       case Unplannable(cause) => cause == plan && state' == Stopped && started' == [] && inits == [] && destroys == []
       case Started =>
         && Reached(plan.layers, ctx, init) == |plan.layers|
         && state' == Running && Elements(started') == nodes.Keys && started' == up == UpOf(inits)
         && CoversLayers(inits, InitCall, plan.layers, init) && destroys == []
       case Rejected(_, _, _) =>
         && state' == Stopped && started' == []
         && RollbackOutcome(GraphOf(nodes'), plan.layers, ctx, init, destroy, r, inits, up, destroys)
  }

  // ----- the object ---------------------------------------------------------------------------

  class Manager {
    var nodes: map<Name, Node>
    var started: seq<Name>
    var state: ManagerState
    /** Whether observers have been told that a shutdown began. */
    var ended: bool
    /** Every call into a module so far, in the order the calls returned. */
    ghost var calls: seq<Call>

    constructor ()
      ensures nodes == map[] && started == [] && state == Created && !ended && calls == []
      ensures Valid()
    {
      nodes, started, state, ended, calls := map[], [], Created, false, [];
    }

    ghost function Deps(): Graph
      reads this`nodes
    {
      GraphOf(nodes)
    }

    ghost predicate Valid()
      reads this`nodes, this`started
    {
      Sound(Deps(), started)
    }

    method Register(name: Name, mod: Option<ModuleId>, deps: seq<Name>) returns (err: Option<RegisterError>)
      requires Valid()
      modifies this`nodes
      ensures Valid()
      ensures err == (if name.text == "" then Some(EmptyName)
                      else if mod.None? then Some(NilModule)
                      else if name in old(nodes) then Some(DuplicateModule)
                      else None)
      ensures err.Some? ==> nodes == old(nodes)
      ensures err.None? ==> nodes == old(nodes)[name := Node(mod.value, deps)] && Deps() == old(Deps())[name := deps]
      ensures Extends(Deps(), old(Deps()))
    {
      if name.text == "" {
        return Some(EmptyName);
      }
      if mod.None? {
        return Some(NilModule);
      }
      if name in nodes {
        return Some(DuplicateModule);
      }
      ghost var g := Deps();
      nodes := nodes[name := Node(mod.value, deps)];
      SoundStable(g, Deps(), started);
      return None;
    }

    /** What other callers register while one critical section is left and the next not yet entered. */
    method Meanwhile(entries: seq<Entry>)
      requires Valid()
      modifies this`nodes
      ensures Valid() && Extends(Deps(), old(Deps()))
      ensures nodes == Admitted(old(nodes), entries)
    {
      for i := 0 to |entries|
        invariant Valid() && Extends(Deps(), old(Deps()))
        invariant nodes == Admitted(old(nodes), entries[..i])
      {
        var err := Register(entries[i].name, entries[i].mod, entries[i].deps);
        assert entries[..i + 1][..i] == entries[..i];
      }
      assert entries[..|entries|] == entries;
    }

    /** validateDeps' loop over the dependencies of one module. */
    method MissingOf(name: Name, deps: seq<Name>) returns (missing: seq<(Name, Name)>)
      ensures forall n, dep ::
        multiset(missing)[(n, dep)] == if n == name && dep !in nodes then multiset(deps)[dep] else 0
    {
      missing := [];
      for j := 0 to |deps|
        invariant forall n, dep ::
          multiset(missing)[(n, dep)] == if n == name && dep !in nodes then multiset(deps[..j])[dep] else 0
      {
        assert deps[..j + 1] == deps[..j] + [deps[j]];
        if deps[j] !in nodes {
          missing := missing + [(name, deps[j])];
        }
      }
      assert deps[..|deps|] == deps;
    }

    /** One error per dependency entry that names an unregistered module. */
    method ValidateDeps() returns (missing: seq<(Name, Name)>)
      ensures forall name, dep ::
        multiset(missing)[(name, dep)] == if name in nodes && dep !in nodes then multiset(nodes[name].deps)[dep] else 0
      ensures missing == [] <==> Closed(Deps())
    {
      missing := [];
      var todo := nodes.Keys;
      while todo != {}
        invariant todo <= nodes.Keys
        invariant forall name, dep ::
          multiset(missing)[(name, dep)] ==
            if name in nodes && name !in todo && dep !in nodes then multiset(nodes[name].deps)[dep] else 0
        decreases todo
      {
        var name :| name in todo;
        todo := todo - {name};
        var more := MissingOf(name, nodes[name].deps);
        missing := missing + more;
      }
      if missing == [] {
        forall a, b | DependsOn(Deps(), a, b) ensures b in Deps() {
          assert multiset(missing)[(a, b)] == 0;
          assert multiset(nodes[a].deps)[b] > 0;
        }
      } else {
        var (a, b) := missing[0];
        assert multiset(missing)[(a, b)] > 0;
        assert DependsOn(Deps(), a, b);
      }
    }

    /** The first loop of plan: in-degrees, and the dependency lists turned round. */
    method CountDependencies() returns (indeg: map<Name, int>, dependents: map<Name, seq<Name>>)
      ensures Counted(Deps(), {}, indeg) && Transposed(Deps(), Deps().Keys, dependents)
    {
      ghost var g := Deps();
      indeg, dependents := map[], map[];
      var todo := nodes.Keys;
      while todo != {}
        invariant todo <= nodes.Keys
        invariant indeg.Keys == nodes.Keys - todo && forall n :: n in indeg ==> indeg[n] == |g[n]|
        invariant Transposed(g, g.Keys - todo, dependents)
        decreases todo
      {
        var name :| name in todo;
        todo := todo - {name};
        indeg := indeg[name := |nodes[name].deps|];
        dependents := AddDependent(name, nodes[name].deps, dependents);
      }
      forall n | n in g ensures indeg[n] == Outstanding(g[n], {}) {
        OutstandingAll(g[n]);
      }
    }

    /** The names without dependencies, in whatever order the map yields them. */
    method Roots(indeg: map<Name, int>) returns (current: seq<Name>)
      requires Counted(Deps(), {}, indeg)
      ensures Queued(Deps(), {}, indeg, current)
    {
      ghost var g := Deps();
      current := [];
      var todo := indeg.Keys;
      while todo != {}
        invariant todo <= g.Keys
        invariant NoDup(current)
        invariant forall n :: n in current <==> n in g && n !in todo && indeg[n] == 0
        decreases todo
      {
        var name :| name in todo;
        todo := todo - {name};
        if indeg[name] == 0 {
          current := current + [name];
        }
      }
    }

    /** The loop of plan: takes off one layer after another until none of the modules left is free of dependencies. */
    method Peel(indeg: map<Name, int>, dependents: map<Name, seq<Name>>, roots: seq<Name>)
      returns (layers: seq<seq<Name>>, processed: int)
      requires Closed(Deps()) && Counted(Deps(), {}, indeg) && Transposed(Deps(), Deps().Keys, dependents)
      requires Queued(Deps(), {}, indeg, roots) && Ascends(roots)
      ensures PlanOf(Deps()) == if processed == |nodes| then Layers(layers) else DependencyCycle
    {
      ghost var g := Deps();
      var indeg, current := indeg, roots;
      layers, processed := [], 0;
      ghost var done: set<Name> := {};
      while current != []
        invariant Peeling(g, layers, done) && processed == |done|
        invariant Counted(g, done, indeg) && Queued(g, done, indeg, current) && Ascends(current)
        decreases g.Keys - done
      {
        QueuedIsReady(g, done, indeg, current);
        assert current[0] in Ready(g, done);
        CurrentIsLayer(g, done, current);
        PeelingGoesOn(g, layers, done, current);
        FewerLeft(g, done);
        layers := layers + [current];
        var next;
        next, indeg, processed := Advance(g, done, current, dependents, indeg, processed);
        done := done + Elements(current);
        current := Sort(g, done, indeg, next);
      }
      QueuedIsReady(g, done, indeg, current);
      PeelingStops(g, layers, done);
      assert g.Keys == nodes.Keys;
    }

    /**
     * Layers exactly when every dependency is registered and none leads back to itself, and then the only exact
     * layering.
     */
    method Plan() returns (r: PlanResult)
      ensures r == PlanOf(Deps())
      ensures r.UnknownDependency? <==> !Closed(Deps())
      ensures r.DependencyCycle? <==> Closed(Deps()) && !Acyclic(Deps())
      ensures r.Layers? ==> ExactLayering(Deps(), r.layers)
    {
      PlanMeans(Deps());
      var missing := ValidateDeps();
      if missing != [] {
        return UnknownDependency;
      }
      var indeg, dependents := CountDependencies();
      var current := Roots(indeg);
      current := Sort(Deps(), {}, indeg, current);
      var layers, processed := Peel(indeg, dependents, current);
      if processed != |nodes| {
        return DependencyCycle;
      }
      return Layers(layers);
    }

    /** Groups a snapshot of started into teardown layers. */
    method StopLayers(snapshot: seq<Name>) returns (out: seq<seq<Name>>)
      ensures out == StopLayersOf(Deps(), snapshot)
    {
      ghost var g := Deps();
      var plan := Plan();
      out := [];
      if !plan.Layers? {
        out := ReverseSerial([], snapshot, Elements(snapshot));
        RestrictAll(snapshot, Elements(snapshot));
        return;
      }
      PlanFits(g);
      var pending;
      out, pending := ReverseLayers(plan.layers, Elements(snapshot));
      out := ReverseSerial(out, snapshot, pending);
      RestrictIsWithout(snapshot, pending, g.Keys);
    }

    /** The loop over layers in stopLayers. */
    static method ReverseLayers(layers: seq<seq<Name>>, keep: set<Name>)
      returns (out: seq<seq<Name>>, pending: set<Name>)
      requires Disjoint(layers)
      ensures out == Reversed(layers, keep) && pending == keep - Names(layers)
    {
      out, pending := [], keep;
      var i := |layers|;
      assert layers[..i] == layers && layers[i..] == [];
      while i > 0
        invariant 0 <= i <= |layers|
        invariant pending == keep - Names(layers[i..])
        invariant out + Reversed(layers[..i], keep) == Reversed(layers, keep)
      {
        i := i - 1;
        ReversedSnoc(out, layers, keep, i);
        var layer;
        layer, pending := PickPending(layers, i, pending, keep);
        if |layer| > 0 {
          out := out + [layer];
        }
      }
      assert layers[0..] == layers;
    }

    /** The body of the loop over layers in stopLayers: takes what is pending in one layer out of pending. */
    static method PickPending(layers: seq<seq<Name>>, i: nat, pending: set<Name>, ghost keep: set<Name>)
      returns (layer: seq<Name>, pending': set<Name>)
      requires Disjoint(layers) && i < |layers| && pending == keep - Names(layers[i + 1..])
      ensures layer == Restrict(layers[i], keep)
      ensures pending' == keep - Names(layers[i..])
    {
      layer, pending' := [], pending;
      var names := layers[i];
      for j := 0 to |names|
        invariant layer == Restrict(names[..j], keep)
        invariant pending' == pending - Elements(names[..j])
      {
        NotLater(layers, i, names[j]);
        assert names[..j + 1] == names[..j] + [names[j]];
        RestrictSnoc(names[..j], names[j], keep);
        if names[j] in pending' {
          layer := layer + [names[j]];
          pending' := pending' - {names[j]};
        }
      }
      assert names[..|names|] == names;
      assert layers[i..][1..] == layers[i + 1..];
    }

    /** Appends the pending names of the snapshot one a layer, last started first. */
    static method ReverseSerial(out: seq<seq<Name>>, snapshot: seq<Name>, pending: set<Name>)
      returns (r: seq<seq<Name>>)
      ensures r == out + Serial(Restrict(snapshot, pending))
    {
      r := out;
      var i := |snapshot|;
      assert snapshot[..i] == snapshot;
      while i > 0
        invariant 0 <= i <= |snapshot|
        invariant r + Serial(Restrict(snapshot[..i], pending)) == out + Serial(Restrict(snapshot, pending))
      {
        i := i - 1;
        assert snapshot[..i + 1] == snapshot[..i] + [snapshot[i]];
        RestrictSnoc(snapshot[..i], snapshot[i], pending);
        if snapshot[i] in pending {
          SerialSnoc(Restrict(snapshot[..i], pending), snapshot[i]);
          ConcatAssociative(r, [[snapshot[i]]], Serial(Restrict(snapshot[..i], pending)));
          r := r + [[snapshot[i]]];
        }
      }
    }

    /** Drops every occurrence of name, compacting the list. */
    method Forget(name: Name)
      modifies this`started
      ensures started == Without(old(started), {name})
    {
      var kept, names := [], started;
      for i := 0 to |names|
        invariant kept == Without(names[..i], {name})
      {
        assert names[..i + 1] == names[..i] + [names[i]];
        WithoutSnoc(names[..i], names[i], {name});
        if names[i] != name {
          kept := kept + [names[i]];
        }
      }
      assert names[..|names|] == names;
      started := kept;
    }

    /** Claims the manager for a start attempt, or refuses and changes nothing. */
    method BeginStart() returns (ok: bool)
      modifies this`state
      ensures ok <==> (old(state) == Created || old(state) == Stopped) && old(started) == []
      ensures state == if ok then Starting else old(state)
    {
      match state
      case Created | Stopped =>
        if |started| > 0 {
          return false;
        }
        state := Starting;
        return true;
      case _ =>
        return false;
    }

    /** One goroutine of startLayer: Init, and the module is listed as started if it came up. */
    method InitModule(name: Name, init: Answers) returns (answer: Option<Error>)
      modifies this`started, this`calls
      ensures answer == init(name)
      ensures started == if answer.None? then old(started) + [name] else old(started)
      ensures calls == old(calls) + [Call(InitCall, name, answer)]
    {
      answer := init(name);
      calls := calls + [Call(InitCall, name, answer)];
      if answer.None? {
        started := started + [name];
      }
    }

    /** Every goroutine of the layer runs Init once; the order in which they finish is left open. */
    method StartLayer(layer: seq<Name>, init: Answers)
      returns (errs: seq<Failure>, ghost up: seq<Name>, ghost made: seq<Call>)
      requires Valid() && NoDup(layer)
      requires forall n :: n in layer ==> n in nodes && n !in started && forall d :: d in nodes[n].deps ==> d in started
      modifies this`started, this`calls
      ensures Valid()
      ensures started == old(started) + up && NoDup(up) && forall n :: n in up <==> n in layer && init(n).None?
      ensures up == UpOf(made)
      ensures NoDup(errs) && forall f :: f in errs <==> f.name in layer && init(f.name) == Some(f.error)
      ensures calls == old(calls) + made && Covers(made, InitCall, layer, init)
    {
      errs, made := AwaitInits(Elements(layer), init);
      up := UpOf(made);
      ComingThrough(Elements(layer), errs, made, init);
      SoundGrows(Deps(), old(started), up);
    }

    /** The wait for the goroutines of startLayer. */
    method AwaitInits(names: set<Name>, init: Answers) returns (errs: seq<Failure>, ghost made: seq<Call>)
      modifies this`started, this`calls
      ensures started == old(started) + UpOf(made) && calls == old(calls) + made
      ensures Coming(names, errs, made, init)
    {
      errs, made := [], [];
      var running := names;
      while running != {}
        invariant running <= names
        invariant started == old(started) + UpOf(made) && calls == old(calls) + made
        invariant Coming(names - running, errs, made, init)
        decreases running
      {
        var name :| name in running;
        ComingOn(names - running, errs, made, init, name);
        ListedOn(old(started), old(calls), made, Call(InitCall, name, init(name)));
        made := made + [Call(InitCall, name, init(name))];
        var answer := InitModule(name, init);
        if answer.Some? {
          errs := errs + [Failure(name, answer.value)];
        }
        assert names - (running - {name}) == names - running + {name};
        running := running - {name};
      }
      assert names - running == names;
    }

    /**
     * One goroutine of stopLayer: Destroy, its error into the module's slot, and the module is forgotten either way.
     */
    method DestroyModule(name: Name, i: nat, slots: array<Option<Failure>>, destroy: Answers)
      requires i < slots.Length && slots[i].None?
      modifies this`started, this`calls, slots
      ensures slots[..] == old(slots[..])[i := Slot(name, destroy)]
      ensures started == Without(old(started), {name})
      ensures calls == old(calls) + [Call(DestroyCall, name, destroy(name))]
    {
      calls := calls + [Call(DestroyCall, name, destroy(name))];
      if destroy(name).Some? {
        slots[i] := Some(Failure(name, destroy(name).value));
      }
      Forget(name);
    }

    /**
     * Every goroutine of the layer runs Destroy once and forgets its module, in any order; errors come in layer order.
     */
    method StopLayer(layer: seq<Name>, destroy: Answers) returns (errs: seq<Failure>, ghost made: seq<Call>)
      requires NoDup(layer)
      modifies this`started, this`calls
      ensures errs == FailuresOf(Restrict(layer, nodes.Keys), destroy)
      ensures started == Without(old(started), Elements(layer) * nodes.Keys)
      ensures calls == old(calls) + made && Covers(made, DestroyCall, Restrict(layer, nodes.Keys), destroy)
    {
      var slots := new Option<Failure>[|layer|](_ => None);
      made := [];
      ghost var gone: set<Name> := {};
      var running := set i | 0 <= i < |layer| && layer[i] in nodes;
      WithoutNone(started, {});
      while running != {}
        invariant Halfway(layer, nodes.Keys, running, gone, slots[..], made, destroy)
        invariant started == Without(old(started), gone)
        invariant calls == old(calls) + made
        decreases running
      {
        var i :| i in running;
        HalfwayOn(layer, nodes.Keys, running, gone, slots[..], made, destroy, i);
        running := running - {i};
        DestroyModule(layer[i], i, slots, destroy);
        ConcatAssociative(old(calls), made, [Call(DestroyCall, layer[i], destroy(layer[i]))]);
        made := made + [Call(DestroyCall, layer[i], destroy(layer[i]))];
        WithoutTwice(old(started), gone, {layer[i]});
        gone := gone + {layer[i]};
      }
      errs := Compact(slots[..]);
      HalfwayThere(layer, nodes.Keys, gone, slots[..], made, destroy);
    }

    /**
     * Tears down everything started, layer by layer, until done or until the context is seen cancelled between layers.
     * Others may register late between the snapshot and stopLayers, which sees the graph as it is then.
     */
    method Stop(ctx: Context, destroy: Answers, late: seq<Entry>) returns (errs: seq<StopError>, ghost made: seq<Call>)
      requires Valid()
      modifies this`nodes, this`started, this`state, this`ended, this`calls
      ensures Valid() && nodes == Admitted(old(nodes), late) && Extends(Deps(), old(Deps()))
      ensures state == Stopped && ended
      ensures calls == old(calls) + made
      ensures StopOutcome(Deps(), old(started), ctx, destroy, errs, started, made)
    {
      ended := true;
      var snapshot := started;
      state := Stopped;
      errs, made := [], [];
      Meanwhile(late);
      if |snapshot| == 0 {
        NothingTorn(Deps(), ctx, destroy);
        return;
      }
      StopLayersSafe(Deps(), snapshot);
      var layers := StopLayers(snapshot);
      errs, made := LowerLayers(layers, ctx, destroy);
    }

    /** Stop's loop over the teardown layers. */
    method LowerLayers(layers: seq<seq<Name>>, ctx: Context, destroy: Answers)
      returns (errs: seq<StopError>, ghost made: seq<Call>)
      requires Valid() && Falls(Deps(), layers) && Names(layers) == Elements(started)
      modifies this`started, this`calls
      ensures Valid()
      ensures calls == old(calls) + made
      ensures LoweredOutcome(layers, old(started), ctx, destroy, errs, started, made)
    {
      ghost var g, was := Deps(), started;
      assert g.Keys == nodes.Keys;
      errs, made := [], [];
      var i, c := 0, ctx;
      TornStart(g, was, layers, ctx, destroy);
      while i < |layers|
        invariant 0 <= i <= |layers|
        invariant calls == old(calls) + made
        invariant Torn(g, was, layers, i, ctx, c, destroy, errs, started, made)
      {
        if c.Cancelled() {
          TornAborted(g, was, layers, i, ctx, c, destroy, errs, started, made);
          errs := errs + [TeardownAborted];
          return;
        }
        errs, made := StopRound(was, layers, i, ctx, c, destroy, errs, old(calls), made);
        c := c.Checked();
        i := i + 1;
      }
      TornWhole(g, was, layers, ctx, c, destroy, errs, started, made);
    }

    /** stopLayer on layer i, seen as one round of that loop. */
    method StopRound(ghost was: seq<Name>, layers: seq<seq<Name>>, i: nat, ghost ctx: Context, ghost c: Context,
                     destroy: Answers,
                     errs: seq<StopError>, ghost earlier: seq<Call>, ghost made: seq<Call>)
      returns (errs': seq<StopError>, ghost made': seq<Call>)
      requires calls == earlier + made
      requires i < |layers| && Torn(Deps(), was, layers, i, ctx, c, destroy, errs, started, made) && !c.Cancelled()
      modifies this`started, this`calls
      ensures calls == earlier + made'
      ensures Torn(Deps(), was, layers, i + 1, ctx, c.Checked(), destroy, errs', started, made')
    {
      ghost var g, before := Deps(), started;
      TornValid(g, was, layers, i, ctx, c, destroy, errs, started, made);
      var failed, more := StopLayer(layers[i], destroy);
      assert g.Keys == nodes.Keys;
      ConcatAssociative(earlier, made, more);
      TornOn(g, was, layers, i, ctx, c, destroy, errs, before, made, failed, started, more);
      errs', made' := errs + Wrapped(failed), made + more;
    }

    /** Rolls a failed start back under a context that cannot be cancelled. */
    method Abort(ghost layers: seq<seq<Name>>, ghost ctx: Context, ghost init: Answers, cancelled: bool,
                 causes: seq<Failure>,
                 destroy: Answers, ghost inits: seq<Call>)
      returns (r: StartResult, ghost destroys: seq<Call>)
      requires Valid() && BlockedWith(layers, ctx, init, cancelled, causes, started, inits)
      modifies this`nodes, this`started, this`state, this`ended, this`calls
      ensures Valid() && nodes == old(nodes)
      ensures state == Stopped && ended && started == []
      ensures calls == old(calls) + destroys
      ensures r.Rejected? && r.cancelled == cancelled && r.causes == causes
      ensures RollbackOutcome(Deps(), layers, ctx, init, destroy, r, inits, old(started), destroys)
    {
      ghost var was := started;
      var errs;
      errs, destroys := Stop(Live, destroy, []);
      WholeStop(Deps(), was, destroy, errs, started, destroys);
      return Rejected(cancelled, causes, errs), destroys;
    }

    /**
     * Brings every module registered so far up in layers, or rolls back what did come up. Others may register late
     * while the attempt is on its way: the layers stay those of the plan, a rollback sees the graph as it is by then.
     */
    method Start(ctx: Context, init: Answers, destroy: Answers, late: seq<Entry>)
      returns (r: StartResult, ghost inits: seq<Call>, ghost up: seq<Name>, ghost destroys: seq<Call>)
      requires Valid()
      modifies this`nodes, this`started, this`state, this`ended, this`calls
      ensures Valid() && Extends(Deps(), old(Deps()))
      ensures calls == old(calls) + inits + destroys
      ensures r.AlreadyStarted? ==> unchanged(this)
      ensures r.Rejected? ==> ended
      ensures r.Started? || r.Unplannable? ==> ended == old(ended)
      ensures StartOutcome(old(nodes), old(state), old(started), ctx, init, destroy, late, r, inits, up, destroys,
                           nodes, state, started)
    {
      inits, up, destroys := [], [], [];
      var ok := BeginStart();
      if !ok {
        return AlreadyStarted, inits, up, destroys;
      }
      var plan := Plan();
      if !plan.Layers? {
        state := Stopped;
        return Unplannable(plan), inits, up, destroys;
      }
      PlanRises(Deps());
      PlanFits(Deps());
      ghost var g := Deps();
      Meanwhile(late);
      RisesStable(g, Deps(), {}, plan.layers);
      r, inits, up, destroys := BringUp(plan.layers, ctx, init, destroy);
      assert g.Keys == old(nodes).Keys;
    }

    /** Start's loop over the layers of the plan. */
    method BringUp(layers: seq<seq<Name>>, ctx: Context, init: Answers, destroy: Answers)
      returns (r: StartResult, ghost inits: seq<Call>, ghost up: seq<Name>, ghost destroys: seq<Call>)
      requires Valid() && state == Starting && started == [] && Rises(Deps(), {}, layers)
      modifies this`nodes, this`started, this`state, this`ended, this`calls
      ensures Valid() && nodes == old(nodes)
      ensures calls == old(calls) + inits + destroys
      ensures r.Started? || r.Rejected?
      ensures r.Started? ==> ended == old(ended)
      ensures r.Started? ==>
        && Reached(layers, ctx, init) == |layers| && state == Running && Elements(started) == Names(layers)
          && started == up == UpOf(inits)
        && CoversLayers(inits, InitCall, layers, init) && destroys == []
      ensures r.Rejected? ==>
        && state == Stopped && ended && started == []
        && RollbackOutcome(Deps(), layers, ctx, init, destroy, r, inits, up, destroys)
    {
      var cancelled, causes;
      cancelled, causes, inits := RaiseLayers(layers, ctx, init);
      up := started;
      if cancelled || causes != [] {
        r, destroys := Abort(layers, ctx, init, cancelled, causes, destroy, inits);
        return;
      }
      state := Running;
      return Started, inits, up, [];
    }

    /** The loop itself: it ends early over a cancelled context or a layer with failures. */
    method RaiseLayers(layers: seq<seq<Name>>, ctx: Context, init: Answers)
      returns (cancelled: bool, causes: seq<Failure>, ghost inits: seq<Call>)
      requires Valid() && started == [] && Rises(Deps(), {}, layers)
      modifies this`started, this`calls
      ensures Valid()
      ensures calls == old(calls) + inits
      ensures cancelled || causes != [] ==> BlockedWith(layers, ctx, init, cancelled, causes, started, inits)
      ensures !cancelled && causes == [] ==>
        && Reached(layers, ctx, init) == |layers| && Elements(started) == Names(layers) && started == UpOf(inits)
        && CoversLayers(inits, InitCall, layers, init)
    {
      ghost var g := Deps();
      cancelled, causes, inits := false, [], [];
      var i, c := 0, ctx;
      RisenStart(g, layers, ctx, init);
      while i < |layers|
        invariant 0 <= i <= |layers|
        invariant calls == old(calls) + inits
        invariant Risen(g, layers, i, ctx, c, init, started, inits)
      {
        if c.Cancelled() {
          CancelledAt(g, layers, i, ctx, c, init, started, inits);
          return true, [], inits;
        }
        causes, inits := StartRound(layers, i, ctx, c, init, old(calls), inits);
        if causes != [] {
          return false, causes, inits;
        }
        c := c.Checked();
        i := i + 1;
      }
      RisenWhole(g, layers, ctx, c, init, started, inits);
      return false, [], inits;
    }

    /** startLayer on layer i, seen as one round of Start's loop. */
    method StartRound(layers: seq<seq<Name>>, i: nat, ghost ctx: Context, ghost c: Context, init: Answers,
                      ghost earlier: seq<Call>, ghost before: seq<Call>)
      returns (causes: seq<Failure>, ghost inits: seq<Call>)
      requires calls == earlier + before
      requires i < |layers| && Risen(Deps(), layers, i, ctx, c, init, started, before) && !c.Cancelled()
      modifies this`started, this`calls
      ensures Valid()
      ensures calls == earlier + inits
      ensures causes == [] ==> Risen(Deps(), layers, i + 1, ctx, c.Checked(), init, started, inits)
      ensures causes != [] ==> BlockedWith(layers, ctx, init, false, causes, started, inits)
    {
      ghost var was := started;
      RisenReady(Deps(), layers, i, ctx, c, init, started, before);
      ghost var up, more;
      causes, up, more := StartLayer(layers[i], init);
      inits := before + more;
      ConcatAssociative(earlier, before, more);
      if causes == [] {
        RisenOn(Deps(), layers, i, ctx, c, init, was, before, causes, up, more);
      } else {
        FailedAt(Deps(), layers, i, ctx, c, init, was, before, causes, up, more);
      }
    }
  }
}
