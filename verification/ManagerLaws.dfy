/** Laws that span several calls of a Manager: compensation of a failed start, and teardowns finished in instalments. */
module ManagerLaws {
  import opened Basics
  import opened Graphs
  import opened Planning
  import opened Teardown
  import opened Outcomes
  import opened Management

  ghost predicate CalledOnce(calls: seq<Call>) {
    forall i, j :: 0 <= i < j < |calls| ==> calls[i].name != calls[j].name
  }

  ghost predicate Called(calls: seq<Call>, n: Name) {
    exists c :: c in calls && c.name == n
  }

  lemma {:induction false} FailureListed(names: seq<Name>, answers: Answers, f: Failure)
    ensures f in FailuresOf(names, answers) <==> f.name in names && answers(f.name) == Some(f.error)
  {
    if names != [] {
      FailureListed(names[1..], answers, f);
      assert names == [names[0]] + names[1..];
    }
  }

  lemma {:induction false} WrappedListed(failures: seq<Failure>, f: Failure)
    ensures TeardownFailed(f) in Wrapped(failures) <==> f in failures
  {
    if failures != [] {
      WrappedListed(failures[1..], f);
      assert failures == [failures[0]] + failures[1..];
    }
  }

  lemma DisjointPrefix(layers: seq<seq<Name>>, k: nat)
    requires Disjoint(layers) && k <= |layers|
    ensures Disjoint(layers[..k])
  {
  }

  lemma {:induction false} FallsDisjoint(g: Graph, layers: seq<seq<Name>>)
    requires Falls(g, layers)
    ensures Disjoint(layers)
  {
    forall i | 0 <= i < |layers| ensures NoDup(layers[i]) {
      FallsAt(g, layers, i);
    }
    forall i, j, n | 0 <= i < |layers| && 0 <= j < |layers| && n in layers[i] && n in layers[j] ensures i == j {
      if i < j {
        FallsApart(g, layers, i, j, n);
      } else if j < i {
        FallsApart(g, layers, j, i, n);
      }
    }
  }

  lemma FallsApart(g: Graph, layers: seq<seq<Name>>, i: nat, j: nat, n: Name)
    requires Falls(g, layers) && i < j < |layers| && n in layers[i]
    ensures n !in layers[j]
  {
    FallsAt(g, layers, i);
    if n in layers[j] {
      assert layers[i + 1..][j - i - 1] == layers[j];
      NamesHas(layers[i + 1..], j - i - 1, n);
      assert false;
    }
  }

  lemma CoversNames(calls: seq<Call>, kind: Kind, layers: seq<seq<Name>>, answers: Answers)
    requires CoversLayers(calls, kind, layers, answers) && Disjoint(layers)
    ensures CalledOnce(calls)
    ensures forall n :: Called(calls, n) <==> n in Names(layers)
    ensures forall c :: c in calls <==> c.kind == kind && c.name in Names(layers) && c.answer == answers(c.name)
  {
    CoversOnce(calls, kind, layers, answers);
    FlattenNames(layers);
    forall n ensures Called(calls, n) <==> n in Names(layers) {
      if n in Names(layers) {
        assert Call(kind, n, answers(n)) in calls;
      }
    }
  }

  lemma TeardownListed(down: seq<seq<Name>>, destroy: Answers, f: Failure)
    ensures TeardownFailed(f) in Wrapped(FailuresOf(Flatten(down), destroy)) <==>
      f.name in Names(down) && destroy(f.name) == Some(f.error)
  {
    FlattenNames(down);
    FailureListed(Flatten(down), destroy, f);
    WrappedListed(FailuresOf(Flatten(down), destroy), f);
  }

  /**
   * A rejected Start called Destroy once on every module whose Init answered nil, and made no other call twice or
   * astray.
   */
  lemma CompensatedExactly(g: Graph, layers: seq<seq<Name>>, g': Graph, ctx: Context, init: Answers, destroy: Answers,
                           r: StartResult, inits: seq<Call>, up: seq<Name>, destroys: seq<Call>)
    requires PlanOf(g) == Layers(layers) && r.Rejected?
    requires RollbackOutcome(g', layers, ctx, init, destroy, r, inits, up, destroys)
    ensures CalledOnce(inits) && CalledOnce(destroys)
    ensures forall n :: Called(destroys, n) <==> Call(InitCall, n, None) in inits
    ensures forall f :: TeardownFailed(f) in r.teardown <==> Call(DestroyCall, f.name, Some(f.error)) in destroys
    ensures TeardownAborted !in r.teardown
  {
    PlanFits(g);
    TriedOnce(layers, ctx, init, r.cancelled, r.causes, up, inits);
    var down := StopLayersOf(g', up);
    StopLayersSafe(g', up);
    FallsDisjoint(g', down);
    CoversNames(destroys, DestroyCall, down, destroy);
    forall f ensures TeardownFailed(f) in r.teardown <==> Call(DestroyCall, f.name, Some(f.error)) in destroys {
      TeardownListed(down, destroy, f);
    }
    NeverAborted(FailuresOf(Flatten(down), destroy));
  }

  lemma TriedOnce(layers: seq<seq<Name>>, ctx: Context, init: Answers, cancelled: bool, causes: seq<Failure>,
                  up: seq<Name>, inits: seq<Call>)
    requires Disjoint(layers) && BlockedWith(layers, ctx, init, cancelled, causes, up, inits)
    ensures CalledOnce(inits) && forall n :: n in Elements(up) <==> Call(InitCall, n, None) in inits
  {
    var tried := Tried(layers, ctx, init, cancelled);
    DisjointPrefix(layers, |tried|);
    CoversNames(inits, InitCall, tried, init);
  }

  /** Unless the context was the cause, the causes are exactly the Inits of this attempt that failed. */
  lemma CausesExactly(g: Graph, g': Graph, ctx: Context, init: Answers, destroy: Answers,
                      r: StartResult, inits: seq<Call>, up: seq<Name>, destroys: seq<Call>, f: Failure)
    requires PlanOf(g).Layers? && r.Rejected? && !r.cancelled
    requires RollbackOutcome(g', PlanOf(g).layers, ctx, init, destroy, r, inits, up, destroys)
    ensures f in r.causes <==> Call(InitCall, f.name, Some(f.error)) in inits
  {
    PlanFits(g);
    BlockedCauses(PlanOf(g).layers, ctx, init, r.causes, inits, f);
  }

  lemma BlockedCauses(layers: seq<seq<Name>>, ctx: Context, init: Answers, causes: seq<Failure>, inits: seq<Call>,
                      f: Failure)
    requires Disjoint(layers) && Blocked(layers, ctx, init, false, causes, inits)
    ensures f in causes <==> Call(InitCall, f.name, Some(f.error)) in inits
  {
    var k := Reached(layers, ctx, init);
    DisjointPrefix(layers, k + 1);
    CoversNames(inits, InitCall, layers[..k + 1], init);
    CauseIsLast(layers, ctx, init, k, f.name);
  }

  lemma {:induction false} NeverAborted(failures: seq<Failure>)
    ensures TeardownAborted !in Wrapped(failures)
  {
    if failures != [] {
      NeverAborted(failures[1..]);
    }
  }

  lemma TriedAreNames(layers: seq<seq<Name>>, k: nat)
    requires k <= |layers|
    ensures Names(layers[..k]) <= Names(layers)
  {
    forall n | n in Names(layers[..k]) ensures n in Names(layers) {
      NamesMean(layers[..k], n);
      var i :| 0 <= i < k && n in layers[..k][i];
      NamesHas(layers, i, n);
    }
  }

  /** Every module in a layer Start completed answered nil. */
  lemma {:induction false} ReachedMeans(layers: seq<seq<Name>>, ctx: Context, init: Answers, i: nat)
    requires i < Reached(layers, ctx, init)
    ensures i < |layers| && FailuresOf(layers[i], init) == []
    decreases i
  {
    if i > 0 {
      ReachedMeans(layers[1..], ctx.Checked(), init, i - 1);
    }
  }

  lemma CauseIsLast(layers: seq<seq<Name>>, ctx: Context, init: Answers, k: nat, n: Name)
    requires k == Reached(layers, ctx, init) && k < |layers|
    ensures n in Names(layers[..k + 1]) && init(n).Some? <==> n in layers[k] && init(n).Some?
  {
    NamesMean(layers[..k + 1], n);
    if n in Names(layers[..k + 1]) && init(n).Some? {
      var i :| 0 <= i < k + 1 && n in layers[..k + 1][i];
      if i < k {
        ReachedMeans(layers, ctx, init, i);
        FailuresIffAny(layers[i], init);
      }
    }
    if n in layers[k] {
      assert layers[..k + 1][k] == layers[k];
      NamesHas(layers[..k + 1], k, n);
    }
  }

  // ----- what is reported ---------------------------------------------------------------------

  /** errs lists the failures among names from position k on: the i-th is that of the name at at[i]. */
  ghost predicate Reports(names: seq<Name>, k: nat, answers: Answers, errs: seq<Failure>, at: seq<nat>) {
    && |at| == |errs|
    && (forall i :: 0 <= i < |at| ==>
          && k <= at[i] < |names| && answers(names[at[i]]).Some?
          && errs[i] == Failure(names[at[i]], answers(names[at[i]]).value))
    && (forall i, j :: 0 <= i < j < |at| ==> at[i] < at[j])
    && (forall p: nat :: k <= p < |names| && answers(names[p]).Some? ==> p in at)
  }

  lemma ReportsOn(names: seq<Name>, k: nat, answers: Answers, errs: seq<Failure>, at: seq<nat>)
    requires k < |names| && Reports(names, k + 1, answers, errs, at) && answers(names[k]).Some?
    ensures Reports(names, k, answers, [Failure(names[k], answers(names[k]).value)] + errs, [k] + at)
  {
    var errs', at' := [Failure(names[k], answers(names[k]).value)] + errs, [k] + at;
    forall i | 0 < i < |at'| ensures at'[i] == at[i - 1] && errs'[i] == errs[i - 1] {
    }
    forall p: nat | k <= p < |names| && answers(names[p]).Some? ensures p in at' {
      assert p == k || p in at;
    }
  }

  lemma {:induction false} FailuresFrom(names: seq<Name>, k: nat, answers: Answers) returns (at: seq<nat>)
    requires k <= |names|
    ensures Reports(names, k, answers, FailuresOf(names[k..], answers), at)
    decreases |names| - k
  {
    if k == |names| {
      at := [];
    } else {
      var rest := FailuresFrom(names, k + 1, answers);
      assert names[k..][0] == names[k] && names[k..][1..] == names[k + 1..];
      if answers(names[k]).Some? {
        ReportsOn(names, k, answers, FailuresOf(names[k + 1..], answers), rest);
        at := [k] + rest;
      } else {
        at := rest;
      }
    }
  }

  /** Failures are reported once for each name that failed, in the order of the names. */
  lemma FailuresReport(names: seq<Name>, answers: Answers) returns (at: seq<nat>)
    ensures |at| == |FailuresOf(names, answers)|
    ensures forall i :: 0 <= i < |at| ==>
      && at[i] < |names| && answers(names[at[i]]).Some?
      && FailuresOf(names, answers)[i] == Failure(names[at[i]], answers(names[at[i]]).value)
    ensures forall i, j :: 0 <= i < j < |at| ==> at[i] < at[j]
    ensures forall p: nat :: p < |names| && answers(names[p]).Some? ==> p in at
  {
    at := FailuresFrom(names, 0, answers);
    assert names[0..] == names;
  }

  lemma {:induction false} WrappedAt(failures: seq<Failure>)
    ensures |Wrapped(failures)| == |failures|
    ensures forall i :: 0 <= i < |failures| ==> Wrapped(failures)[i] == TeardownFailed(failures[i])
  {
    if failures != [] {
      WrappedAt(failures[1..]);
    }
  }

  lemma {:induction false} DistinctSize(calls: seq<Call>)
    requires forall i, j :: 0 <= i < j < |calls| ==> calls[i] != calls[j]
    ensures |set c | c in calls| == |calls|
  {
    if calls != [] {
      var k := |calls| - 1;
      DistinctSize(calls[..k]);
      assert (set c | c in calls) == (set c | c in calls[..k]) + {calls[k]};
    }
  }

  /** As many calls answered an error as failures are reported. */
  lemma FailingCalls(names: seq<Name>, destroy: Answers, made: seq<Call>, at: seq<nat>)
    requires NoDup(names)
    requires forall c :: c in made <==> c.kind == DestroyCall && c.name in names && c.answer == destroy(c.name)
    requires forall i :: 0 <= i < |at| ==> at[i] < |names| && destroy(names[at[i]]).Some?
    requires forall i, j :: 0 <= i < j < |at| ==> at[i] < at[j]
    requires forall p: nat :: p < |names| && destroy(names[p]).Some? ==> p in at
    ensures |set c | c in made && c.answer.Some?| == |at|
  {
    var failing := seq(|at|, i requires 0 <= i < |at| => Call(DestroyCall, names[at[i]], destroy(names[at[i]])));
    DistinctSize(failing);
    forall c | c in made && c.answer.Some? ensures c in failing {
      var p :| 0 <= p < |names| && names[p] == c.name;
      assert p in at;
      var i :| 0 <= i < |at| && at[i] == p;
      assert failing[i] == c;
    }
    assert (set c | c in made && c.answer.Some?) == set c | c in failing;
  }

  /**
   * What a teardown through the first k of these layers did and reports: each module in them was called once and is
   * forgotten, the errors are those of the calls that failed, in the order of the layers, and then the abort error if k
   * falls short.
   */
  lemma LoweredMeans(g: Graph, layers: seq<seq<Name>>, before: seq<Name>, ctx: Context, destroy: Answers,
                     errs: seq<StopError>, after: seq<Name>, made: seq<Call>)
    returns (k: nat, names: seq<Name>, at: seq<nat>)
    requires Falls(g, layers) && Names(layers) == Elements(before)
    requires LoweredOutcome(layers, before, ctx, destroy, errs, after, made)
    ensures k == if ctx.Live? || |layers| <= ctx.checks then |layers| else ctx.checks
    ensures names == Flatten(layers[..k]) && forall i, j :: 0 <= i < j < |names| ==> names[i] != names[j]
    ensures after == Without(before, Elements(names))
    ensures forall c :: c in made <==> c.kind == DestroyCall && c.name in names && c.answer == destroy(c.name)
    ensures forall i, j :: 0 <= i < j < |made| ==> made[i].name != made[j].name
    ensures |at| == |set c | c in made && c.answer.Some?|
    ensures |errs| == |at| + (if k < |layers| then 1 else 0) && (k < |layers| ==> errs[|at|] == TeardownAborted)
    ensures forall i :: 0 <= i < |at| ==>
      && at[i] < |names| && destroy(names[at[i]]).Some?
      && errs[i] == TeardownFailed(Failure(names[at[i]], destroy(names[at[i]]).value))
    ensures forall i, j :: 0 <= i < j < |at| ==> at[i] < at[j]
    ensures forall p: nat :: p < |names| && destroy(names[p]).Some? ==> p in at
  {
    k := ctx.LiveFor(|layers|);
    names := Flatten(layers[..k]);
    FallsDisjoint(g, layers);
    DisjointPrefix(layers, k);
    CoversOnce(made, DestroyCall, layers[..k], destroy);
    CoversNames(made, DestroyCall, layers[..k], destroy);
    FlattenNames(layers[..k]);
    FlattenOnce(layers[..k]);
    at := FailuresReport(names, destroy);
    WrappedAt(FailuresOf(names, destroy));
    FailingCalls(names, destroy, made, at);
  }

  lemma {:induction false} FlattenOnce(layers: seq<seq<Name>>)
    requires Disjoint(layers)
    ensures NoDup(Flatten(layers))
  {
    if layers != [] {
      var last := |layers| - 1;
      DisjointPrefix(layers, last);
      FlattenOnce(layers[..last]);
      FlattenSnoc(layers[..last], layers[last]);
      assert layers == layers[..last] + [layers[last]];
      FlattenNames(layers[..last]);
      forall n | n in Flatten(layers[..last]) ensures n !in layers[last] {
        ApartFromLast(layers, n);
      }
      var a, b := Flatten(layers[..last]), layers[last];
      forall i, j | 0 <= i < j < |a + b| ensures (a + b)[i] != (a + b)[j] {
        if i < |a| <= j {
          assert a[i] in a && b[j - |a|] in b;
        }
      }
    }
  }

  /** What one Stop did and reports. */
  lemma StopMeans(g: Graph, before: seq<Name>, ctx: Context, destroy: Answers,
                  errs: seq<StopError>, after: seq<Name>, made: seq<Call>)
    returns (k: nat, names: seq<Name>, at: seq<nat>)
    requires Sound(g, before) && StopOutcome(g, before, ctx, destroy, errs, after, made)
    ensures var layers := StopLayersOf(g, before);
      && k == (if ctx.Live? || |layers| <= ctx.checks then |layers| else ctx.checks)
      && names == Flatten(layers[..k])
      && |errs| == |at| + (if k < |layers| then 1 else 0) && (k < |layers| ==> errs[|at|] == TeardownAborted)
    ensures forall i, j :: 0 <= i < j < |names| ==> names[i] != names[j]
    ensures after == Without(before, Elements(names))
    ensures forall c :: c in made <==> c.kind == DestroyCall && c.name in names && c.answer == destroy(c.name)
    ensures forall i, j :: 0 <= i < j < |made| ==> made[i].name != made[j].name
    ensures |at| == |set c | c in made && c.answer.Some?|
    ensures forall i :: 0 <= i < |at| ==>
      && at[i] < |names| && destroy(names[at[i]]).Some?
      && errs[i] == TeardownFailed(Failure(names[at[i]], destroy(names[at[i]]).value))
    ensures forall i, j :: 0 <= i < j < |at| ==> at[i] < at[j] && errs[i] != errs[j]
    ensures forall p: nat :: p < |names| && destroy(names[p]).Some? ==> p in at
  {
    StopLayersSafe(g, before);
    k, names, at := LoweredMeans(g, StopLayersOf(g, before), before, ctx, destroy, errs, after, made);
  }

  /** What a rollback did and reports: the same of a Stop that nothing cuts short. */
  lemma RollbackMeans(g: Graph, up: seq<Name>, destroy: Answers, teardown: seq<StopError>, destroys: seq<Call>)
    returns (names: seq<Name>, at: seq<nat>)
    requires Sound(g, up) && RolledBack(g, up, destroy, teardown, destroys)
    ensures names == Flatten(StopLayersOf(g, up)) && |teardown| == |at| == |set c | c in destroys && c.answer.Some?|
    ensures forall c :: c in destroys <==> c.kind == DestroyCall && c.name in up && c.answer == destroy(c.name)
    ensures forall i, j :: 0 <= i < j < |destroys| ==> destroys[i].name != destroys[j].name
    ensures forall i :: 0 <= i < |at| ==>
      && at[i] < |names| && destroy(names[at[i]]).Some?
      && teardown[i] == TeardownFailed(Failure(names[at[i]], destroy(names[at[i]]).value))
    ensures forall i, j :: 0 <= i < j < |at| ==> at[i] < at[j] && teardown[i] != teardown[j]
    ensures forall p: nat :: p < |names| && destroy(names[p]).Some? ==> p in at
  {
    StopLayersSafe(g, up);
    names, at := WholeMeans(g, StopLayersOf(g, up), up, destroy, teardown, destroys);
  }

  lemma WholeMeans(g: Graph, layers: seq<seq<Name>>, up: seq<Name>, destroy: Answers, teardown: seq<StopError>,
                   destroys: seq<Call>)
    returns (names: seq<Name>, at: seq<nat>)
    requires Falls(g, layers) && Names(layers) == Elements(up)
    requires teardown == Wrapped(FailuresOf(Flatten(layers), destroy))
    requires CoversLayers(destroys, DestroyCall, layers, destroy)
    ensures names == Flatten(layers) && |teardown| == |at| == |set c | c in destroys && c.answer.Some?|
    ensures forall c :: c in destroys <==> c.kind == DestroyCall && c.name in up && c.answer == destroy(c.name)
    ensures forall i, j :: 0 <= i < j < |destroys| ==> destroys[i].name != destroys[j].name
    ensures forall i :: 0 <= i < |at| ==>
      && at[i] < |names| && destroy(names[at[i]]).Some?
      && teardown[i] == TeardownFailed(Failure(names[at[i]], destroy(names[at[i]]).value))
    ensures forall i, j :: 0 <= i < j < |at| ==> at[i] < at[j] && teardown[i] != teardown[j]
    ensures forall p: nat :: p < |names| && destroy(names[p]).Some? ==> p in at
  {
    WholeIsLowered(layers, up, destroy, teardown, destroys);
    var k;
    k, names, at := LoweredMeans(g, layers, up, Live, destroy, teardown, Without(up, Names(layers)), destroys);
    WholeFlattens(layers, k);
    assert forall n :: n in up <==> n in Elements(up);
  }

  lemma WholeIsLowered(layers: seq<seq<Name>>, up: seq<Name>, destroy: Answers, teardown: seq<StopError>,
                       destroys: seq<Call>)
    requires teardown == Wrapped(FailuresOf(Flatten(layers), destroy))
    requires CoversLayers(destroys, DestroyCall, layers, destroy)
    ensures LoweredOutcome(layers, up, Live, destroy, teardown, Without(up, Names(layers)), destroys)
  {
    assert layers[..|layers|] == layers && teardown + [] == teardown;
  }

  lemma WholeFlattens(layers: seq<seq<Name>>, k: nat)
    requires k == |layers|
    ensures Flatten(layers[..k]) == Flatten(layers) && forall n :: n in Flatten(layers) <==> n in Names(layers)
  {
    assert layers[..k] == layers;
    FlattenNames(layers);
  }

  // ----- what a start comes to ----------------------------------------------------------------

  lemma {:induction false} ReachedStops(layers: seq<seq<Name>>, ctx: Context, init: Answers)
    ensures var k := Reached(layers, ctx, init);
      && k <= |layers| && (ctx.Live? || k <= ctx.checks)
      && (k < |layers| ==> ctx == Expires(k) || FailuresOf(layers[k], init) != [])
  {
    if layers != [] && !ctx.Cancelled() && FailuresOf(layers[0], init) == [] {
      ReachedStops(layers[1..], ctx.Checked(), init);
    }
  }

  /** Layers completed have no module whose Init failed. */
  lemma AllBelow(layers: seq<seq<Name>>, ctx: Context, init: Answers, n: Name, i: nat)
    requires i < Reached(layers, ctx, init) && i < |layers| && n in layers[i]
    ensures init(n).None?
  {
    ReachedMeans(layers, ctx, init, i);
    FailuresIffAny(layers[i], init);
  }

  /** A start succeeds exactly if it may claim, the graph has a plan, the context lasts and every Init answers nil. */
  lemma StartSucceedsIff(nodes: map<Name, Node>, state: ManagerState, started: seq<Name>, ctx: Context, init: Answers,
                         destroy: Answers, late: seq<Entry>, r: StartResult, inits: seq<Call>, up: seq<Name>,
                         destroys: seq<Call>, nodes': map<Name, Node>, state': ManagerState, started': seq<Name>)
    requires StartOutcome(nodes, state, started, ctx, init, destroy, late, r, inits, up, destroys, nodes', state',
      started')
    ensures r.AlreadyStarted? <==> !((state == Created || state == Stopped) && started == [])
    ensures r.Unplannable? <==> !r.AlreadyStarted? && !PlanOf(GraphOf(nodes)).Layers?
    ensures r.Started? <==>
      && !r.AlreadyStarted? && !r.Unplannable? && (forall n :: n in nodes ==> init(n).None?)
      && (ctx.Live? || |PlanOf(GraphOf(nodes)).layers| <= ctx.checks)
    ensures nodes' == if r.Started? || r.Rejected? then Admitted(nodes, late) else nodes
    ensures r.AlreadyStarted? ==> state' == state && started' == started && inits == [] && destroys == []
    ensures r.Unplannable? ==>
      && r.plan == PlanOf(GraphOf(nodes)) && state' == Stopped && started' == [] && inits == [] && destroys == []
  {
    if !r.AlreadyStarted? && !r.Unplannable? {
      assert PlanOf(GraphOf(nodes)).Layers?;
      ReachesEnd(nodes, PlanOf(GraphOf(nodes)).layers, ctx, init);
    }
  }

  lemma ReachesEnd(nodes: map<Name, Node>, layers: seq<seq<Name>>, ctx: Context, init: Answers)
    requires PlanOf(GraphOf(nodes)) == Layers(layers)
    ensures Reached(layers, ctx, init) == |layers| <==>
      (forall n :: n in nodes ==> init(n).None?) && (ctx.Live? || |layers| <= ctx.checks)
  {
    var g := GraphOf(nodes);
    PlanPlaces(g, layers);
    forall n ensures n in nodes.Keys <==> exists i :: 0 <= i < |layers| && n in layers[i] {
      assert n in g <==> n in nodes;
    }
    SucceedsIff(layers, nodes.Keys, ctx, init);
  }

  lemma SucceedsIff(layers: seq<seq<Name>>, names: set<Name>, ctx: Context, init: Answers)
    requires forall n :: n in names <==> exists i :: 0 <= i < |layers| && n in layers[i]
    ensures Reached(layers, ctx, init) == |layers| <==>
      (forall n :: n in names ==> init(n).None?) && (ctx.Live? || |layers| <= ctx.checks)
  {
    var k := Reached(layers, ctx, init);
    ReachedStops(layers, ctx, init);
    if k == |layers| {
      forall n | n in names ensures init(n).None? {
        var i :| 0 <= i < |layers| && n in layers[i];
        AllBelow(layers, ctx, init, n, i);
      }
    } else if forall n :: n in names ==> init(n).None? {
      FailuresIffAny(layers[k], init);
      forall n | n in layers[k] ensures init(n).None? {
        assert n in names;
      }
    }
  }

  /** A start that succeeded has called Init once on every module, each came up, and nothing was destroyed. */
  lemma StartedMeans(nodes: map<Name, Node>, state: ManagerState, started: seq<Name>, ctx: Context, init: Answers,
                     destroy: Answers, late: seq<Entry>, r: StartResult, inits: seq<Call>, up: seq<Name>,
                     destroys: seq<Call>, nodes': map<Name, Node>, state': ManagerState, started': seq<Name>)
    requires StartOutcome(nodes, state, started, ctx, init, destroy, late, r, inits, up, destroys, nodes', state',
      started')
    requires r.Started?
    ensures state' == Running && destroys == [] && started' == UpOf(inits)
    ensures forall n :: n in started' <==> n in nodes
    ensures forall c :: c in inits <==> c == Call(InitCall, c.name, None) && c.name in nodes
    ensures forall i, j :: 0 <= i < j < |inits| ==> inits[i].name != inits[j].name
  {
    var g := GraphOf(nodes);
    StartSucceedsIff(nodes, state, started, ctx, init, destroy, late, r, inits, up, destroys, nodes', state', started');
    PlanFits(g);
    CoversNames(inits, InitCall, PlanOf(g).layers, init);
    assert forall n :: n in started' <==> n in Elements(started');
  }

  /**
   * A start that was rejected stopped at layer k: over the context, or over modules of that layer, which it reports,
   * each once. It has called Init once on every module up to there, and Destroy once on those that came up.
   */
  lemma RejectedMeans(nodes: map<Name, Node>, state: ManagerState, started: seq<Name>, ctx: Context, init: Answers,
                      destroy: Answers, late: seq<Entry>, r: StartResult, inits: seq<Call>, up: seq<Name>,
                      destroys: seq<Call>, nodes': map<Name, Node>, state': ManagerState, started': seq<Name>)
    returns (k: nat)
    requires StartOutcome(nodes, state, started, ctx, init, destroy, late, r, inits, up, destroys, nodes', state',
      started')
    requires r.Rejected?
    ensures state' == Stopped && started' == [] && PlanOf(GraphOf(nodes)).Layers?
    ensures var layers := PlanOf(GraphOf(nodes)).layers;
      && k < |layers| && (forall i, n :: 0 <= i < k && n in layers[i] ==> init(n).None?)
      && (if r.cancelled then ctx == Expires(k) && r.causes == []
          else (ctx.Live? || k < ctx.checks) && exists n :: n in layers[k] && init(n).Some?)
      && (!r.cancelled ==> forall f :: f in r.causes <==> f.name in layers[k] && init(f.name) == Some(f.error))
      && (forall c :: c in inits <==>
            && c.kind == InitCall && c.answer == init(c.name)
            && exists i :: 0 <= i < (if r.cancelled then k else k + 1) && c.name in layers[i])
    ensures forall i, j :: 0 <= i < j < |r.causes| ==> r.causes[i] != r.causes[j]
    ensures forall i, j :: 0 <= i < j < |inits| ==> inits[i].name != inits[j].name
    ensures forall i, j :: 0 <= i < j < |destroys| ==> destroys[i].name != destroys[j].name
    ensures up == UpOf(inits)
    ensures forall c :: c in destroys <==>
      c == Call(DestroyCall, c.name, destroy(c.name)) && Call(InitCall, c.name, None) in inits
  {
    var g := GraphOf(nodes);
    var layers := PlanOf(g).layers;
    PlanFits(g);
    k := BlockedMeans(layers, ctx, init, r.cancelled, r.causes, up, inits);
    TriedOnce(layers, ctx, init, r.cancelled, r.causes, up, inits);
    var names, at := RollbackMeans(GraphOf(nodes'), up, destroy, r.teardown, destroys);
    assert forall n :: n in up <==> n in Elements(up);
  }

  lemma BlockedMeans(layers: seq<seq<Name>>, ctx: Context, init: Answers, cancelled: bool, causes: seq<Failure>,
                     up: seq<Name>, inits: seq<Call>)
    returns (k: nat)
    requires Disjoint(layers) && BlockedWith(layers, ctx, init, cancelled, causes, up, inits)
    ensures k < |layers| && forall i, n :: 0 <= i < k && n in layers[i] ==> init(n).None?
    ensures if cancelled then ctx == Expires(k) && causes == []
            else (ctx.Live? || k < ctx.checks) && exists n :: n in layers[k] && init(n).Some?
    ensures !cancelled ==> forall f :: f in causes <==> f.name in layers[k] && init(f.name) == Some(f.error)
    ensures forall i, j :: 0 <= i < j < |causes| ==> causes[i] != causes[j]
    ensures forall c :: c in inits <==>
      && c.kind == InitCall && c.answer == init(c.name)
      && exists i :: 0 <= i < (if cancelled then k else k + 1) && c.name in layers[i]
    ensures up == UpOf(inits)
  {
    k := Reached(layers, ctx, init);
    ReachedStops(layers, ctx, init);
    forall i, n | 0 <= i < k && n in layers[i] ensures init(n).None? {
      AllBelow(layers, ctx, init, n, i);
    }
    if !cancelled {
      assert causes[0] in causes;
    }
    var tried := Tried(layers, ctx, init, cancelled);
    DisjointPrefix(layers, |tried|);
    CoversNames(inits, InitCall, tried, init);
    forall n ensures n in Names(tried) <==> exists i :: 0 <= i < |tried| && n in layers[i] {
      NamesMean(tried, n);
      if i :| 0 <= i < |tried| && n in layers[i] {
        assert tried[i] == layers[i];
      }
    }
  }

  /** Calls follow the layers: none into an earlier layer comes after one into a later. */
  lemma {:induction false} CallsFollowLayers(calls: seq<Call>, kind: Kind, layers: seq<seq<Name>>, answers: Answers,
                                             i: nat, j: nat, a: nat, b: nat)
    requires CoversLayers(calls, kind, layers, answers) && Disjoint(layers) && i < j < |calls|
    requires a < |layers| && b < |layers| && calls[i].name in layers[a] && calls[j].name in layers[b]
    ensures a <= b
    decreases |layers|
  {
    var last := |layers| - 1;
    var k :| 0 <= k <= |calls|
      && CoversLayers(calls[..k], kind, layers[..last], answers) && Covers(calls[k..], kind, layers[last], answers);
    DisjointPrefix(layers, last);
    if j < k {
      InLayers(calls[..k], kind, layers[..last], answers, i);
      InLayers(calls[..k], kind, layers[..last], answers, j);
      CallsFollowLayers(calls[..k], kind, layers[..last], answers, i, j, a, b);
    } else {
      assert calls[k..][j - k] in calls[k..];
    }
  }

  lemma InLayers(calls: seq<Call>, kind: Kind, layers: seq<seq<Name>>, answers: Answers, i: nat)
    requires CoversLayers(calls, kind, layers, answers) && Disjoint(layers) && i < |calls|
    ensures exists a :: 0 <= a < |layers| && calls[i].name in layers[a]
  {
    CoversNames(calls, kind, layers, answers);
    assert calls[i] in calls;
    NamesMean(layers, calls[i].name);
  }

  // ----- teardown in instalments --------------------------------------------------------------

  /** One call of Stop: what it was given and what it did. */
  datatype StopRecord = StopRecord(ctx: Context, destroy: Answers, errs: seq<StopError>, after: seq<Name>,
    made: seq<Call>)

  /** Successive Stops on an unchanged graph, each starting from what the previous one left. */
  ghost predicate Instalments(g: Graph, before: seq<Name>, stops: seq<StopRecord>)
    decreases |stops|
  {
    stops != [] ==>
      && StopOutcome(g, before, stops[0].ctx, stops[0].destroy, stops[0].errs, stops[0].after, stops[0].made)
      && Instalments(g, stops[0].after, stops[1..])
  }

  function AllMade(stops: seq<StopRecord>): seq<Call> {
    if stops == [] then [] else stops[0].made + AllMade(stops[1..])
  }

  function LeftBy(before: seq<Name>, stops: seq<StopRecord>): seq<Name>
    decreases |stops|
  {
    if stops == [] then before else LeftBy(stops[0].after, stops[1..])
  }

  /** One Stop: what it destroyed and what it left are the two halves of what it found. */
  lemma OneInstalment(g: Graph, before: seq<Name>, s: StopRecord)
    requires Sound(g, before) && StopOutcome(g, before, s.ctx, s.destroy, s.errs, s.after, s.made)
    ensures Sound(g, s.after) && Splits(before, s.made, s.after)
    ensures TeardownAborted !in s.errs <==> s.after == []
  {
    StopLayersSafe(g, before);
    LoweredSplits(g, StopLayersOf(g, before), before, s);
    PlanFits(g);
    ResumesAfter(g, PlanOf(g), before, s.ctx.LiveFor(|StopLayersOf(g, before)|));
    EmptyIffNoLayers(g, s.after);
  }

  lemma LoweredSplits(g: Graph, layers: seq<seq<Name>>, before: seq<Name>, s: StopRecord)
    requires Falls(g, layers) && Names(layers) == Elements(before)
    requires LoweredOutcome(layers, before, s.ctx, s.destroy, s.errs, s.after, s.made)
    ensures Splits(before, s.made, s.after)
    ensures TeardownAborted !in s.errs <==> s.ctx.LiveFor(|layers|) == |layers|
  {
    var k := s.ctx.LiveFor(|layers|);
    FallsDisjoint(g, layers);
    DisjointPrefix(layers, k);
    CoversNames(s.made, DestroyCall, layers[..k], s.destroy);
    TriedAreNames(layers, k);
    WithoutElements(before, Names(layers[..k]));
    NeverAborted(FailuresOf(Flatten(layers[..k]), s.destroy));
  }

  lemma EmptyIffNoLayers(g: Graph, started: seq<Name>)
    requires Sound(g, started)
    ensures started == [] <==> StopLayersOf(g, started) == []
  {
    StopLayersSafe(g, started);
    Inhabited(started);
    FallsInhabited(g, StopLayersOf(g, started));
  }

  /**
   * Any number of cut-short Stops followed by one that completes destroys every started module exactly once, leaving
   * none.
   */
  lemma StopsAddUp(g: Graph, before: seq<Name>, stops: seq<StopRecord>)
    requires Sound(g, before) && Instalments(g, before, stops)
    ensures Sound(g, LeftBy(before, stops)) && Splits(before, AllMade(stops), LeftBy(before, stops))
    ensures stops != [] ==> (TeardownAborted !in stops[|stops| - 1].errs <==> LeftBy(before, stops) == [])
  {
    AllSplit(g, before, stops);
    if stops != [] {
      LeftByLast(before, stops);
    }
  }

  lemma {:induction false} AllSplit(g: Graph, before: seq<Name>, stops: seq<StopRecord>)
    requires Sound(g, before) && Instalments(g, before, stops)
    ensures Sound(g, LeftBy(before, stops)) && Splits(before, AllMade(stops), LeftBy(before, stops))
    ensures forall s :: s in stops ==> (TeardownAborted !in s.errs <==> s.after == [])
    decreases |stops|
  {
    if stops == [] {
      assert AllMade(stops) == [];
    } else {
      var s := stops[0];
      OneInstalment(g, before, s);
      AllSplit(g, s.after, stops[1..]);
      SplitsJoin(before, s.made, s.after, AllMade(stops[1..]), LeftBy(s.after, stops[1..]));
    }
  }

  lemma {:induction false} LeftByLast(before: seq<Name>, stops: seq<StopRecord>)
    requires stops != []
    ensures LeftBy(before, stops) == stops[|stops| - 1].after
    decreases |stops|
  {
    if |stops| > 1 {
      LeftByLast(stops[0].after, stops[1..]);
    }
  }

  /** Every module of before either got exactly one of the calls or is left. */
  ghost predicate Splits(before: seq<Name>, made: seq<Call>, left: seq<Name>) {
    && CalledOnce(made)
    && (forall n :: n in before <==> Called(made, n) || n in left)
    && (forall n :: !(Called(made, n) && n in left))
  }

  lemma SplitsJoin(before: seq<Name>, a: seq<Call>, mid: seq<Name>, b: seq<Call>, left: seq<Name>)
    requires Splits(before, a, mid) && Splits(mid, b, left)
    ensures Splits(before, a + b, left)
  {
    CallsJoin(a, b);
  }

  lemma CallsJoin(a: seq<Call>, b: seq<Call>)
    requires CalledOnce(a) && CalledOnce(b)
    ensures forall n :: Called(a + b, n) <==> Called(a, n) || Called(b, n)
    ensures (forall n :: !(Called(a, n) && Called(b, n))) ==> CalledOnce(a + b)
  {
    forall n ensures Called(a + b, n) <==> Called(a, n) || Called(b, n) {
      if c :| c in a && c.name == n {
        assert c in a + b;
      }
      if c :| c in b && c.name == n {
        assert c in a + b;
      }
    }
    if forall n :: !(Called(a, n) && Called(b, n)) {
      forall i, j | 0 <= i < j < |a + b| ensures (a + b)[i].name != (a + b)[j].name {
        if i < |a| <= j {
          assert Called(a, a[i].name);
          assert b[j - |a|] in b;
        }
      }
    }
  }

  /** calls holds one call of the given kind for each name of the layer, whatever it answered, and nothing else. */
  ghost predicate Visits(calls: seq<Call>, kind: Kind, layer: seq<Name>) {
    && CalledOnce(calls) && (forall c :: c in calls ==> c.kind == kind)
    && (forall n :: Called(calls, n) <==> n in layer)
  }

  /** calls visits the layers one after the other, in any order inside a layer. */
  ghost predicate GoesThrough(calls: seq<Call>, kind: Kind, layers: seq<seq<Name>>)
    decreases |layers|
  {
    if layers == [] then calls == []
    else
      exists k :: 0 <= k <= |calls|
        && GoesThrough(calls[..k], kind, layers[..|layers| - 1])
        && Visits(calls[k..], kind, layers[|layers| - 1])
  }

  lemma CoversVisits(calls: seq<Call>, kind: Kind, layer: seq<Name>, answers: Answers)
    requires Covers(calls, kind, layer, answers)
    ensures Visits(calls, kind, layer)
  {
    forall n | n in layer ensures Called(calls, n) {
      assert Call(kind, n, answers(n)) in calls;
    }
  }

  lemma {:induction false} CoversGoesThrough(calls: seq<Call>, kind: Kind, layers: seq<seq<Name>>, answers: Answers)
    requires CoversLayers(calls, kind, layers, answers)
    ensures GoesThrough(calls, kind, layers)
    decreases |layers|
  {
    if layers != [] {
      var last := |layers| - 1;
      var k :| 0 <= k <= |calls|
        && CoversLayers(calls[..k], kind, layers[..last], answers) && Covers(calls[k..], kind, layers[last], answers);
      CoversGoesThrough(calls[..k], kind, layers[..last], answers);
      CoversVisits(calls[k..], kind, layers[last], answers);
    }
  }

  lemma {:induction false} GoesThroughJoin(a: seq<Call>, b: seq<Call>, kind: Kind, la: seq<seq<Name>>,
                                           lb: seq<seq<Name>>)
    requires GoesThrough(a, kind, la) && GoesThrough(b, kind, lb)
    ensures GoesThrough(a + b, kind, la + lb)
    decreases |lb|
  {
    if lb == [] {
      assert a + b == a && la + lb == la;
    } else {
      var last := |lb| - 1;
      var k :| 0 <= k <= |b| && GoesThrough(b[..k], kind, lb[..last]) && Visits(b[k..], kind, lb[last]);
      GoesThroughJoin(a, b[..k], kind, la, lb[..last]);
      assert (la + lb)[..|la| + last] == la + lb[..last];
      assert (a + b)[..|a| + k] == a + b[..k] && (a + b)[|a| + k..] == b[k..];
    }
  }

  /** calls has gone through the first k layers and rest is what is left of them. */
  ghost predicate Progress(calls: seq<Call>, layers: seq<seq<Name>>, k: nat, rest: seq<seq<Name>>) {
    k <= |layers| && GoesThrough(calls, DestroyCall, layers[..k]) && rest == layers[k..]
  }

  lemma ProgressJoins(a: seq<Call>, b: seq<Call>, layers: seq<seq<Name>>, i: nat, mid: seq<seq<Name>>, j: nat,
                      rest: seq<seq<Name>>)
    returns (k: nat)
    requires Progress(a, layers, i, mid) && Progress(b, mid, j, rest)
    ensures Progress(a + b, layers, k, rest)
  {
    k := i + j;
    GoesThroughJoin(a, b, DestroyCall, layers[..i], mid[..j]);
    assert layers[..i] + mid[..j] == layers[..i + j];
  }

  /**
   * However often they were cut short and whatever the modules answered, Stops call Destroy along one and the same
   * plan.
   */
  lemma {:induction false} StopsProgress(g: Graph, before: seq<Name>, stops: seq<StopRecord>) returns (k: nat)
    requires Sound(g, before) && Instalments(g, before, stops)
    ensures Progress(AllMade(stops), StopLayersOf(g, before), k, StopLayersOf(g, LeftBy(before, stops)))
    decreases |stops|
  {
    if stops == [] {
      k := NoProgress(StopLayersOf(g, before));
    } else {
      var s, rest := stops[0], stops[1..];
      var i := OneCut(g, before, s);
      var j := StopsProgress(g, s.after, rest);
      var plan, mid, left := StopLayersOf(g, before), StopLayersOf(g, s.after), StopLayersOf(g, LeftBy(s.after, rest));
      assert left == StopLayersOf(g, LeftBy(before, stops)) && AllMade(stops) == s.made + AllMade(rest);
      k := ProgressJoins(s.made, AllMade(rest), plan, i, mid, j, left);
    }
  }

  lemma NoProgress(layers: seq<seq<Name>>) returns (k: nat)
    ensures k == 0 && Progress([], layers, k, layers)
  {
    k := 0;
  }

  /**
   * Once they are through, the Stops together have called Destroy layer by layer as one uninterrupted Stop would have.
   */
  lemma StopsIssueOnePlan(g: Graph, before: seq<Name>, stops: seq<StopRecord>)
    requires Sound(g, before) && Instalments(g, before, stops) && LeftBy(before, stops) == []
    ensures GoesThrough(AllMade(stops), DestroyCall, StopLayersOf(g, before))
  {
    var k := StopsProgress(g, before, stops);
    AllSplit(g, before, stops);
    EmptyIffNoLayers(g, LeftBy(before, stops));
    var layers := StopLayersOf(g, before);
    assert layers[..|layers|] == layers;
  }

  lemma OneCut(g: Graph, before: seq<Name>, s: StopRecord) returns (k: nat)
    requires Sound(g, before) && StopOutcome(g, before, s.ctx, s.destroy, s.errs, s.after, s.made)
    ensures Sound(g, s.after) && Progress(s.made, StopLayersOf(g, before), k, StopLayersOf(g, s.after))
  {
    var layers := StopLayersOf(g, before);
    k := s.ctx.LiveFor(|layers|);
    PlanFits(g);
    ResumesAfter(g, PlanOf(g), before, k);
    CoversGoesThrough(s.made, DestroyCall, layers[..k], s.destroy);
  }
}
