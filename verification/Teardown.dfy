/** Manager.stopLayers and the started list as mathematics: which teardown orders are safe, complete and resumable. */
module Teardown {
  import opened Basics
  import opened Graphs
  import opened Planning

  /** All names of a list of layers. */
  function Names(layers: seq<seq<Name>>): set<Name> {
    if layers == [] then {} else Elements(layers[0]) + Names(layers[1..])
  }

  lemma {:induction false} NamesMean(layers: seq<seq<Name>>, n: Name)
    ensures n in Names(layers) <==> exists i :: 0 <= i < |layers| && n in layers[i]
  {
    if layers != [] {
      NamesMean(layers[1..], n);
      if n in Names(layers[1..]) {
        var i :| 0 <= i < |layers[1..]| && n in layers[1..][i];
        assert n in layers[i + 1];
      }
      if i :| 0 <= i < |layers| && n in layers[i] {
        assert i > 0 ==> n in layers[1..][i - 1];
      }
    }
  }

  lemma {:induction false} NamesHas(layers: seq<seq<Name>>, i: nat, n: Name)
    requires i < |layers| && n in layers[i]
    ensures n in Names(layers)
  {
    NamesMean(layers, n);
  }

  function Flatten(layers: seq<seq<Name>>): seq<Name> {
    if layers == [] then [] else layers[0] + Flatten(layers[1..])
  }

  lemma {:induction false} NamesSnoc(layers: seq<seq<Name>>)
    requires layers != []
    ensures Names(layers) == Names(layers[..|layers| - 1]) + Elements(layers[|layers| - 1])
  {
    if |layers| > 1 {
      NamesSnoc(layers[1..]);
      assert layers[1..][..|layers| - 2] == layers[..|layers| - 1][1..];
    }
  }

  // ----- the started list ---------------------------------------------------------------------

  /** started lists registered modules once each, every one after all of its dependencies. */
  ghost predicate Sound(g: Graph, started: seq<Name>) {
    started != [] ==>
    var last, init := started[|started| - 1], started[..|started| - 1];
    && last in g && last !in init
    && (forall d :: d in g[last] ==> d in init)
    && Sound(g, init)
  }

  /** The same by position: no duplicates, registered, dependency-closed and topologically ordered. */
  ghost predicate Topological(g: Graph, started: seq<Name>) {
    && NoDup(started)
    && (forall i :: 0 <= i < |started| ==> started[i] in g && forall d :: d in g[started[i]] ==> d in started[..i])
  }

  lemma {:induction false} SoundMeans(g: Graph, started: seq<Name>)
    ensures Sound(g, started) <==> Topological(g, started)
  {
    if started != [] {
      var k := |started| - 1;
      var init := started[..k];
      SoundMeans(g, init);
      assert forall i :: 0 <= i <= k ==> init[..i] == started[..i];
      if Topological(g, started) {
        assert started[k] !in init;
        assert Topological(g, init);
      }
      if Sound(g, started) {
        assert forall i :: 0 <= i < k ==> init[i] == started[i];
        assert Topological(g, started);
      }
    }
  }

  lemma {:induction false} SoundRegistered(g: Graph, started: seq<Name>)
    requires Sound(g, started)
    ensures NoDup(started) && Elements(started) <= g.Keys
    ensures forall n, d :: n in started && n in g && d in g[n] ==> d in started
  {
    SoundMeans(g, started);
    forall n, d | n in started && n in g && d in g[n] ensures d in started {
      var i :| 0 <= i < |started| && started[i] == n;
      assert d in started[..i];
    }
  }

  /** Registering more modules cannot invalidate the list. */
  lemma {:induction false} SoundStable(g: Graph, g': Graph, started: seq<Name>)
    requires Sound(g, started) && Extends(g', g)
    ensures Sound(g', started)
  {
    if started != [] {
      SoundStable(g, g', started[..|started| - 1]);
    }
  }

  /** Appending a module whose dependencies are all up keeps the list sound, whatever else was appended meanwhile. */
  lemma SoundAppend(g: Graph, started: seq<Name>, n: Name)
    requires Sound(g, started) && n in g && n !in started
    requires forall d :: d in g[n] ==> d in started
    ensures Sound(g, started + [n])
  {
  }

  /** So does starting modules in any order whose dependencies were all there beforehand. */
  lemma {:induction false} SoundGrows(g: Graph, started: seq<Name>, up: seq<Name>)
    requires Sound(g, started) && NoDup(up)
    requires forall n :: n in up ==> n in g && n !in started && forall d :: d in g[n] ==> d in started
    ensures Sound(g, started + up)
    decreases |up|
  {
    if up == [] {
      assert started + up == started;
    } else {
      var init, n := up[..|up| - 1], up[|up| - 1];
      assert up == init + [n] && n !in init;
      SoundGrows(g, started, init);
      SoundAppend(g, started + init, n);
      ConcatAssociative(started, init, [n]);
    }
  }

  /** Forgetting modules together with everything started that depends on them keeps the list sound. */
  lemma {:induction false} SoundWithout(g: Graph, started: seq<Name>, gone: set<Name>)
    requires Sound(g, started)
    requires forall m, d :: m in started && m in g && d in g[m] && d in gone ==> m in gone
    ensures Sound(g, Without(started, gone))
  {
    if started != [] {
      var init, last := started[..|started| - 1], started[|started| - 1];
      forall m, d | m in init && m in g && d in g[m] && d in gone ensures m in gone {
        assert m in started;
      }
      SoundWithout(g, init, gone);
      WithoutSnoc(init, last, gone);
      assert init + [last] == started;
      if last !in gone {
        assert last in started;
        WithoutElements(init, gone);
        SoundAppend(g, Without(init, gone), last);
      }
    }
  }

  // ----- teardown layers ----------------------------------------------------------------------

  /** The layers in reverse, cut down to the modules to keep, empty ones dropped. */
  function Reversed(layers: seq<seq<Name>>, keep: set<Name>): seq<seq<Name>> {
    if layers == [] then [] else
      var top := Restrict(layers[|layers| - 1], keep);
      (if top == [] then [] else [top]) + Reversed(layers[..|layers| - 1], keep)
  }

  /** The reverse of the start order, one module a layer. */
  function Serial(started: seq<Name>): seq<seq<Name>> {
    if started == [] then [] else [[started[|started| - 1]]] + Serial(started[..|started| - 1])
  }

  /** What stopLayers makes of a plan and the registered names; the second summand is its defensive tail. */
  function StopFrom(plan: PlanResult, registered: set<Name>, started: seq<Name>): seq<seq<Name>> {
    match plan
    case Layers(layers) => Reversed(layers, Elements(started)) + Serial(Without(started, registered))
    case _ => Serial(started)
  }

  ghost function StopLayersOf(g: Graph, started: seq<Name>): seq<seq<Name>> {
    StopFrom(PlanOf(g), g.Keys, started)
  }

  /** All that teardown needs to know about a plan. */
  ghost predicate Fits(g: Graph, plan: PlanResult) {
    plan.Layers? ==>
      Disjoint(plan.layers) && DependenciesFirst(g, plan.layers) && Names(plan.layers) == g.Keys
  }

  lemma PlanFits(g: Graph)
    ensures Fits(g, PlanOf(g))
  {
    if PlanOf(g).Layers? {
      PlanDisjoint(g);
      PlanOrders(g);
      PlanExact(g);
      forall n ensures n in Names(PlanOf(g).layers) <==> n in g {
        NamesMean(PlanOf(g).layers, n);
      }
    }
  }

  /** A safe teardown order: layers are non-empty and disjoint, and all dependencies of a layer come strictly later. */
  ghost predicate Falls(g: Graph, layers: seq<seq<Name>>) {
    layers != [] ==>
      && layers[0] != [] && NoDup(layers[0])
      && (forall n :: n in layers[0] ==>
            n in g && n !in Names(layers[1..]) && forall d :: d in g[n] ==> d in Names(layers[1..]))
      && Falls(g, layers[1..])
  }

  /** A safe start order above the modules already up: all dependencies of a layer are up before it. */
  ghost predicate Rises(g: Graph, up: set<Name>, layers: seq<seq<Name>>)
    decreases |layers|
  {
    layers != [] ==>
      && NoDup(layers[0])
      && (forall n :: n in layers[0] ==> n in g && n !in up && forall d :: d in g[n] ==> d in up)
      && Rises(g, up + Elements(layers[0]), layers[1..])
  }

  lemma FallsInhabited(g: Graph, layers: seq<seq<Name>>)
    requires Falls(g, layers)
    ensures layers == [] <==> Names(layers) == {}
  {
    if layers != [] {
      Inhabited(layers[0]);
    }
  }

  lemma {:induction false} FallsStable(g: Graph, g': Graph, layers: seq<seq<Name>>)
    requires Falls(g, layers) && Extends(g', g)
    ensures Falls(g', layers)
  {
    if layers != [] {
      FallsStable(g, g', layers[1..]);
    }
  }

  lemma {:induction false} RisesStable(g: Graph, g': Graph, up: set<Name>, layers: seq<seq<Name>>)
    requires Rises(g, up, layers) && Extends(g', g)
    ensures Rises(g', up, layers)
    decreases |layers|
  {
    if layers != [] {
      RisesStable(g, g', up + Elements(layers[0]), layers[1..]);
    }
  }

  /** The plan is a safe start order. */
  lemma PlanRises(g: Graph)
    requires PlanOf(g).Layers?
    ensures Rises(g, {}, PlanOf(g).layers)
  {
    PlanDisjoint(g);
    PlanOrders(g);
    RisesFrom(g, PlanOf(g).layers, 0, {});
  }

  lemma {:induction false} RisesFrom(g: Graph, layers: seq<seq<Name>>, k: nat, up: set<Name>)
    requires Disjoint(layers) && DependenciesFirst(g, layers) && k <= |layers|
    requires forall n :: n in up <==> exists j :: 0 <= j < k && n in layers[j]
    ensures Rises(g, up, layers[k..])
    decreases |layers| - k
  {
    if k < |layers| {
      forall n ensures n in up + Elements(layers[k]) <==> exists j :: 0 <= j < k + 1 && n in layers[j] {
      }
      RisesFrom(g, layers, k + 1, up + Elements(layers[k]));
      assert layers[k..][0] == layers[k] && layers[k..][1..] == layers[k + 1..];
    }
  }

  lemma {:induction false} ReversedNames(layers: seq<seq<Name>>, keep: set<Name>)
    ensures Names(Reversed(layers, keep)) == Names(layers) * keep
  {
    if layers != [] {
      var init := layers[..|layers| - 1];
      ReversedNames(init, keep);
      NamesSnoc(layers);
      var top := Restrict(layers[|layers| - 1], keep);
      RestrictElements(layers[|layers| - 1], keep);
      assert Elements(top) == Elements(layers[|layers| - 1]) * keep;
      if top != [] {
        assert Reversed(layers, keep)[1..] == Reversed(init, keep);
      } else {
        assert Reversed(layers, keep) == Reversed(init, keep);
      }
    }
  }

  lemma KeptDependencies(g: Graph, layers: seq<seq<Name>>, keep: set<Name>, k: nat, n: Name)
    requires Disjoint(layers) && DependenciesFirst(g, layers) && k < |layers|
    requires forall n, d :: n in keep && n in g && d in g[n] ==> d in keep
    requires n in layers[k] && n in keep
    ensures n in g && n !in Names(layers[..k]) && forall d :: d in g[n] ==> d in Names(layers[..k]) * keep
  {
    NamesMean(layers[..k], n);
    forall d | d in g[n] ensures d in Names(layers[..k]) {
      var j :| 0 <= j < k && d in layers[j];
      NamesHas(layers[..k], j, d);
    }
  }

  lemma {:induction false} ReversedFalls(g: Graph, layers: seq<seq<Name>>, keep: set<Name>, k: nat)
    requires Disjoint(layers) && DependenciesFirst(g, layers) && k <= |layers|
    requires forall n, d :: n in keep && n in g && d in g[n] ==> d in keep
    ensures Falls(g, Reversed(layers[..k], keep))
  {
    if k > 0 {
      ReversedFalls(g, layers, keep, k - 1);
      assert layers[..k][..k - 1] == layers[..k - 1];
      var top, rest := Restrict(layers[k - 1], keep), Reversed(layers[..k - 1], keep);
      ReversedNames(layers[..k - 1], keep);
      RestrictNoDup(layers[k - 1], keep);
      RestrictElements(layers[k - 1], keep);
      forall n | n in top ensures n in g && n !in Names(rest) && forall d :: d in g[n] ==> d in Names(rest) {
        KeptDependencies(g, layers, keep, k - 1, n);
      }
      assert ([top] + rest)[1..] == rest;
      assert [] + rest == rest;
    }
  }

  lemma {:induction false} SerialNames(started: seq<Name>)
    ensures Names(Serial(started)) == Elements(started)
    ensures multiset(Flatten(Serial(started))) == multiset(started)
  {
    if started != [] {
      var init, last := started[..|started| - 1], started[|started| - 1];
      SerialNames(init);
      assert started == init + [last];
      assert Serial(started)[1..] == Serial(init);
      assert Flatten(Serial(started)) == [last] + Flatten(Serial(init));
    }
  }

  /** Reverse start order is a safe teardown for any sound list, plannable graph or not. */
  lemma {:induction false} SerialFalls(g: Graph, started: seq<Name>)
    requires Sound(g, started)
    ensures Falls(g, Serial(started))
  {
    if started != [] {
      var init := started[..|started| - 1];
      SerialFalls(g, init);
      SerialNames(init);
      assert Serial(started)[1..] == Serial(init);
    }
  }

  /** Layers with the same names and no repetition flatten to a rearrangement of the list. */
  lemma {:induction false} FallsFlat(g: Graph, layers: seq<seq<Name>>)
    requires Falls(g, layers)
    ensures NoDup(Flatten(layers)) && Elements(Flatten(layers)) == Names(layers)
  {
    if layers != [] {
      FallsFlat(g, layers[1..]);
      var a, b := layers[0], Flatten(layers[1..]);
      forall i, j | 0 <= i < j < |a + b| ensures (a + b)[i] != (a + b)[j] {
        if i < |a| <= j {
          assert a[i] in a;
          assert b[j - |a|] in Elements(b);
        }
      }
    }
  }

  lemma {:induction false} NoDupCounts(s: seq<Name>)
    requires NoDup(s)
    ensures multiset(s) == multiset(Elements(s))
  {
    if s != [] {
      var init, last := s[..|s| - 1], s[|s| - 1];
      NoDupCounts(init);
      assert s == init + [last];
      assert last !in init;
      assert Elements(s) == Elements(init) + {last};
    }
  }

  lemma StopFromSafe(g: Graph, plan: PlanResult, started: seq<Name>)
    requires Sound(g, started) && Fits(g, plan)
    ensures Falls(g, StopFrom(plan, g.Keys, started))
    ensures Names(StopFrom(plan, g.Keys, started)) == Elements(started)
    ensures plan.Layers? ==> StopFrom(plan, g.Keys, started) == Reversed(plan.layers, Elements(started))
    ensures Without(started, g.Keys) == []
  {
    SoundRegistered(g, started);
    WithoutElements(started, g.Keys);
    Inhabited(Without(started, g.Keys));
    if plan.Layers? {
      var keep := Elements(started);
      ReversedFalls(g, plan.layers, keep, |plan.layers|);
      assert plan.layers[..|plan.layers|] == plan.layers;
      ReversedNames(plan.layers, keep);
      assert Names(plan.layers) * keep == keep;
      assert Reversed(plan.layers, keep) + [] == Reversed(plan.layers, keep);
    } else {
      SerialFalls(g, started);
      SerialNames(started);
    }
  }

  /** In both branches stopLayers is a safe order, a rearrangement of started, and its defensive tail is empty. */
  lemma StopLayersSafe(g: Graph, started: seq<Name>)
    requires Sound(g, started)
    ensures Falls(g, StopLayersOf(g, started))
    ensures Names(StopLayersOf(g, started)) == Elements(started)
    ensures multiset(Flatten(StopLayersOf(g, started))) == multiset(started)
    ensures Without(started, g.Keys) == []
  {
    PlanFits(g);
    var plan := PlanOf(g);
    StopFromSafe(g, plan, started);
    SoundRegistered(g, started);
    FallsFlat(g, StopFrom(plan, g.Keys, started));
    NoDupCounts(Flatten(StopFrom(plan, g.Keys, started)));
    NoDupCounts(started);
  }

  /**
   * out picks the non-empty ones among the first k layers, cut down to keep, from the top: out[i] comes from layer
   * at[i].
   */
  ghost predicate Picks(layers: seq<seq<Name>>, keep: set<Name>, k: nat, out: seq<seq<Name>>, at: seq<nat>) {
    && |at| == |out|
    && (forall i :: 0 <= i < |at| ==>
          at[i] < k && at[i] < |layers| && out[i] != [] && out[i] == Restrict(layers[at[i]], keep))
    && (forall i, j :: 0 <= i < j < |at| ==> at[j] < at[i])
  }

  lemma {:induction false} ReversedPicks(layers: seq<seq<Name>>, keep: set<Name>, k: nat) returns (at: seq<nat>)
    requires k <= |layers|
    ensures Picks(layers, keep, k, Reversed(layers[..k], keep), at)
  {
    if k == 0 {
      at := [];
    } else {
      var rest := ReversedPicks(layers, keep, k - 1);
      ReversedStep(layers, keep, k);
      at := PicksOn(layers, keep, k - 1, Reversed(layers[..k - 1], keep), rest);
    }
  }

  lemma PicksOn(layers: seq<seq<Name>>, keep: set<Name>, k: nat, out: seq<seq<Name>>, at: seq<nat>)
    returns (at': seq<nat>)
    requires k < |layers| && Picks(layers, keep, k, out, at)
    ensures var top := Restrict(layers[k], keep);
      Picks(layers, keep, k + 1, (if top == [] then [] else [top]) + out, at')
  {
    var top := Restrict(layers[k], keep);
    if top == [] {
      at' := at;
      assert [] + out == out;
    } else {
      at' := [k] + at;
      forall i | 0 < i < |at'| ensures at'[i] == at[i - 1] && ([top] + out)[i] == out[i - 1] {
      }
    }
  }

  /**
   * On a plannable graph the teardown layers are those of the plan that hold anything started, last first, each cut
   * down to the modules started, in the order of their names.
   */
  lemma StopLayersPlanned(g: Graph, layers: seq<seq<Name>>, started: seq<Name>) returns (at: seq<nat>)
    requires Sound(g, started) && PlanOf(g) == Layers(layers)
    ensures var out := StopLayersOf(g, started);
      && |at| == |out| && (forall i, j :: 0 <= i < j < |at| ==> at[j] < at[i])
      && (forall i :: 0 <= i < |at| ==> at[i] < |layers| && out[i] != [])
      && (forall i, n :: 0 <= i < |at| ==> (n in out[i] <==> n in layers[at[i]] && n in started))
      && (forall i, p, q :: 0 <= i < |at| && 0 <= p < q < |out[i]| ==> Before(out[i][p], out[i][q]))
  {
    PlanFits(g);
    PlanExact(g);
    StopFromSafe(g, PlanOf(g), started);
    var out, keep := StopLayersOf(g, started), Elements(started);
    at := ReversedPicks(layers, keep, |layers|);
    assert layers[..|layers|] == layers;
    forall i | 0 <= i < |at|
      ensures Ascends(out[i]) && forall n :: n in out[i] <==> n in layers[at[i]] && n in started
    {
      RestrictElements(layers[at[i]], keep);
      RestrictAscends(layers[at[i]], keep);
    }
  }

  /** On an unplannable one they are single modules, the last started first. */
  lemma StopLayersUnplanned(g: Graph, started: seq<Name>)
    requires !PlanOf(g).Layers?
    ensures var out := StopLayersOf(g, started);
      |out| == |started| && forall i :: 0 <= i < |started| ==> out[i] == [started[|started| - 1 - i]]
  {
    SerialAt(started);
  }

  lemma {:induction false} SerialAt(started: seq<Name>)
    ensures |Serial(started)| == |started|
    ensures forall i :: 0 <= i < |started| ==> Serial(started)[i] == [started[|started| - 1 - i]]
  {
    if started != [] {
      SerialAt(started[..|started| - 1]);
    }
  }

  /** Dependents go strictly before what they depend on, however long the chain between them. */
  lemma {:induction false} FallsTransitively(g: Graph, layers: seq<seq<Name>>, i: nat, p: seq<Name>)
    requires Falls(g, layers) && i < |layers| && Chain(g, p) && p[0] in layers[i] && |p| >= 2
    ensures exists j :: i < j < |layers| && p[|p| - 1] in layers[j]
    decreases |p|
  {
    FallsAt(g, layers, i);
    assert DependsOn(g, p[0], p[0 + 1]);
    assert p[1] in Names(layers[i + 1..]);
    NamesMean(layers[i + 1..], p[1]);
    var j :| 0 <= j < |layers[i + 1..]| && p[1] in layers[i + 1..][j];
    assert p[1] in layers[i + 1 + j];
    if |p| > 2 {
      ChainSuffix(g, p, 1);
      FallsTransitively(g, layers, i + 1 + j, p[1..]);
    }
  }

  lemma {:induction false} FallsAt(g: Graph, layers: seq<seq<Name>>, i: nat)
    requires Falls(g, layers) && i < |layers|
    ensures Falls(g, layers[i..]) && layers[i..][0] == layers[i] && layers[i..][1..] == layers[i + 1..]
    decreases i
  {
    if i == 0 {
      assert layers[0..] == layers;
    } else {
      FallsAt(g, layers[1..], i - 1);
      assert layers[1..][i - 1..] == layers[i..];
    }
  }

  // ----- resuming an aborted teardown ---------------------------------------------------------

  lemma {:induction false} ReversedCongruent(layers: seq<seq<Name>>, a: set<Name>, b: set<Name>)
    requires forall n :: n in Names(layers) ==> (n in a <==> n in b)
    ensures Reversed(layers, a) == Reversed(layers, b)
  {
    if layers != [] {
      NamesSnoc(layers);
      RestrictCongruent(layers[|layers| - 1], a, b);
      ReversedCongruent(layers[..|layers| - 1], a, b);
    }
  }

  /** Once the first teardown layer is gone, what is left of the plan is the rest of the teardown. */
  lemma {:induction false} ReversedResumes(layers: seq<seq<Name>>, keep: set<Name>)
    requires Disjoint(layers) && Reversed(layers, keep) != []
    ensures Reversed(layers, keep - Elements(Reversed(layers, keep)[0])) == Reversed(layers, keep)[1..]
  {
    var last := |layers| - 1;
    var init := layers[..last];
    var top := Restrict(layers[last], keep);
    var first := Elements(Reversed(layers, keep)[0]);
    var again := Restrict(layers[last], keep - first);
    assert Disjoint(init);
    RestrictElements(layers[last], keep);
    RestrictElements(layers[last], keep - first);
    Inhabited(again);
    if top == [] {
      assert Reversed(layers, keep) == Reversed(init, keep);
      ReversedResumes(init, keep);
      assert forall x :: x !in top;
    } else {
      assert first == Elements(top);
      forall n | n in Names(init) ensures n in keep <==> n in keep - first {
        NamesMean(init, n);
        var j :| 0 <= j < |init| && n in init[j];
        assert n in layers[j];
      }
      ReversedCongruent(init, keep, keep - first);
      assert Reversed(layers, keep)[1..] == Reversed(init, keep);
    }
    assert [] + Reversed(init, keep - first) == Reversed(init, keep - first);
  }

  /** Whatever depends on a module of the first teardown layer is in that layer too, so forgetting the layer is safe. */
  lemma FirstLayerClosed(g: Graph, layers: seq<seq<Name>>, m: Name, d: Name)
    requires Falls(g, layers) && layers != [] && m in Names(layers) && m in g && d in g[m]
    ensures d in Names(layers[1..]) && d !in layers[0]
  {
  }

  lemma SerialResumes(g: Graph, started: seq<Name>)
    requires Sound(g, started) && started != []
    ensures Without(started, {started[|started| - 1]}) == started[..|started| - 1]
  {
    var init, last := started[..|started| - 1], started[|started| - 1];
    WithoutSnoc(init, last, {last});
    WithoutNone(init, {last});
    assert init + [last] == started;
  }

  lemma ForgetFirstLayer(g: Graph, started: seq<Name>, layers: seq<seq<Name>>)
    requires Sound(g, started) && Falls(g, layers) && layers != [] && Names(layers) == Elements(started)
    ensures Sound(g, Without(started, Elements(layers[0])))
  {
    var gone := Elements(layers[0]);
    forall m, d | m in started && m in g && d in g[m] ensures d !in gone {
      assert m in Names(layers);
      FirstLayerClosed(g, layers, m, d);
    }
    SoundWithout(g, started, gone);
  }

  lemma ResumesPlanned(g: Graph, plan: PlanResult, started: seq<Name>)
    requires Sound(g, started) && Fits(g, plan) && plan.Layers? && Reversed(plan.layers, Elements(started)) != []
    ensures var layers := Reversed(plan.layers, Elements(started));
      var rest := Without(started, Elements(layers[0]));
      Sound(g, rest) && Reversed(plan.layers, Elements(rest)) == layers[1..]
  {
    StopFromSafe(g, plan, started);
    var layers := Reversed(plan.layers, Elements(started));
    var gone := Elements(layers[0]);
    ForgetFirstLayer(g, started, layers);
    ReversedResumes(plan.layers, Elements(started));
    WithoutElements(started, gone);
  }

  /** A teardown that stopped after one layer goes on with the next one. */
  lemma ResumesOnce(g: Graph, plan: PlanResult, started: seq<Name>)
    requires Sound(g, started) && Fits(g, plan) && StopFrom(plan, g.Keys, started) != []
    ensures var layers := StopFrom(plan, g.Keys, started);
      var rest := Without(started, Elements(layers[0]));
      Sound(g, rest) && StopFrom(plan, g.Keys, rest) == layers[1..]
  {
    if plan.Layers? {
      StopFromSafe(g, plan, started);
      ResumesPlanned(g, plan, started);
      StopFromSafe(g, plan, Without(started, Elements(StopFrom(plan, g.Keys, started)[0])));
    } else {
      SerialResumes(g, started);
      assert Elements(Serial(started)[0]) == {started[|started| - 1]};
    }
  }

  lemma PrefixNames(layers: seq<seq<Name>>, k: nat)
    requires 0 < k <= |layers|
    ensures Names(layers[..k]) == Elements(layers[0]) + Names(layers[1..][..k - 1])
    ensures layers[1..][k - 1..] == layers[k..]
  {
    assert layers[..k][1..] == layers[1..][..k - 1];
  }

  lemma {:induction false} ResumesAfter(g: Graph, plan: PlanResult, started: seq<Name>, k: nat)
    requires Sound(g, started) && Fits(g, plan) && k <= |StopFrom(plan, g.Keys, started)|
    ensures var layers := StopFrom(plan, g.Keys, started);
      var rest := Without(started, Names(layers[..k]));
      Sound(g, rest) && StopFrom(plan, g.Keys, rest) == layers[k..]
    decreases k
  {
    var layers := StopFrom(plan, g.Keys, started);
    if k == 0 {
      WithoutNone(started, {});
      assert layers[0..] == layers;
    } else {
      ResumesOnce(g, plan, started);
      var rest := Without(started, Elements(layers[0]));
      ResumesAfter(g, plan, rest, k - 1);
      PrefixNames(layers, k);
      WithoutTwice(started, Elements(layers[0]), Names(layers[1..][..k - 1]));
    }
  }

  /** The layers issued by Stops cut short after the given numbers of layers, followed by one that completes. */
  function Issued(plan: PlanResult, registered: set<Name>, started: seq<Name>, cuts: seq<nat>): seq<seq<Name>>
    decreases |cuts|
  {
    var layers := StopFrom(plan, registered, started);
    if cuts == [] || cuts[0] > |layers| then layers
    else layers[..cuts[0]] + Issued(plan, registered, Without(started, Names(layers[..cuts[0]])), cuts[1..])
  }

  lemma {:induction false} IssuedWhole(g: Graph, plan: PlanResult, started: seq<Name>, cuts: seq<nat>)
    requires Sound(g, started) && Fits(g, plan)
    ensures Issued(plan, g.Keys, started, cuts) == StopFrom(plan, g.Keys, started)
    decreases |cuts|
  {
    var layers := StopFrom(plan, g.Keys, started);
    if cuts != [] && cuts[0] <= |layers| {
      var k := cuts[0];
      ResumesAfter(g, plan, started, k);
      IssuedWhole(g, plan, Without(started, Names(layers[..k])), cuts[1..]);
      assert layers == layers[..k] + layers[k..];
    }
  }

  /** However often a teardown is cut short, resuming it issues the layers one uninterrupted Stop would have issued. */
  lemma ResumedTeardown(g: Graph, started: seq<Name>, cuts: seq<nat>)
    requires Sound(g, started)
    ensures Issued(PlanOf(g), g.Keys, started, cuts) == StopLayersOf(g, started)
  {
    PlanFits(g);
    IssuedWhole(g, PlanOf(g), started, cuts);
  }

  /** What a cut-short layered teardown leaves behind is safe to tear down serially once the graph is unplannable. */
  lemma FallbackAfterAbort(g: Graph, g': Graph, started: seq<Name>, k: nat)
    requires Sound(g, started) && Extends(g', g) && k <= |StopLayersOf(g, started)|
    requires !PlanOf(g').Layers?
    ensures var rest := Without(started, Names(StopLayersOf(g, started)[..k]));
      StopLayersOf(g', rest) == Serial(rest) && Falls(g', Serial(rest))
  {
    PlanFits(g);
    ResumesAfter(g, PlanOf(g), started, k);
    var rest := Without(started, Names(StopLayersOf(g, started)[..k]));
    SoundStable(g, g', rest);
    SerialFalls(g', rest);
  }

  // ----- later registrations ------------------------------------------------------------------

  function Min(a: nat, b: nat): nat {
    if a < b then a else b
  }

  lemma ReversedStep(layers: seq<seq<Name>>, keep: set<Name>, k: nat)
    requires 0 < k <= |layers|
    ensures var top := Restrict(layers[k - 1], keep);
      Reversed(layers[..k], keep) == (if top == [] then [] else [top]) + Reversed(layers[..k - 1], keep)
  {
    assert layers[..k][..k - 1] == layers[..k - 1];
  }

  lemma {:induction false} ReversedStable(a: seq<seq<Name>>, b: seq<seq<Name>>, all: set<Name>, keep: set<Name>, k: nat)
    requires keep <= all && k <= |b|
    requires forall i :: 0 <= i < |b| ==> Restrict(b[i], all) == if i < |a| then a[i] else []
    ensures Reversed(b[..k], keep) == Reversed(a[..Min(k, |a|)], keep)
  {
    if k > 0 {
      var last := k - 1;
      ReversedStable(a, b, all, keep, last);
      ReversedStep(b, keep, k);
      RestrictNarrows(b[last], all, keep);
      if last < |a| {
        ReversedStep(a, keep, k);
        assert Min(k, |a|) == k && Min(last, |a|) == last;
      } else {
        assert Restrict(b[last], keep) == [];
        assert Min(k, |a|) == Min(last, |a|);
        assert [] + Reversed(b[..last], keep) == Reversed(b[..last], keep);
      }
    }
  }

  lemma ReversedStableWhole(g: Graph, g': Graph, keep: set<Name>)
    requires PlanOf(g).Layers? && PlanOf(g').Layers? && Extends(g', g) && keep <= g.Keys
    ensures Reversed(PlanOf(g').layers, keep) == Reversed(PlanOf(g).layers, keep)
  {
    PlanStable(g, g');
    var a, b := PlanOf(g).layers, PlanOf(g').layers;
    ReversedStable(a, b, g.Keys, keep, |b|);
    assert b[..|b|] == b && a[..|a|] == a;
  }

  /** While the graph stays plannable, late registrations change nothing about how the old modules are torn down. */
  lemma StopLayersStable(g: Graph, g': Graph, started: seq<Name>)
    requires PlanOf(g).Layers? && PlanOf(g').Layers? && Extends(g', g) && Sound(g, started)
    ensures StopLayersOf(g', started) == StopLayersOf(g, started)
  {
    SoundRegistered(g, started);
    SoundStable(g, g', started);
    PlanFits(g);
    PlanFits(g');
    StopFromSafe(g, PlanOf(g), started);
    StopFromSafe(g', PlanOf(g'), started);
    ReversedStableWhole(g, g', Elements(started));
  }

  function Backwards(layers: seq<seq<Name>>): seq<seq<Name>> {
    if layers == [] then [] else [layers[|layers| - 1]] + Backwards(layers[..|layers| - 1])
  }

  /** With every module of g up, Stop walks exactly the layers Start used, in reverse, even after more registrations. */
  lemma StopMirrorsStart(g: Graph, g': Graph, started: seq<Name>)
    requires PlanOf(g).Layers? && PlanOf(g').Layers? && Extends(g', g) && Sound(g, started)
    requires Elements(started) == g.Keys
    ensures StopLayersOf(g', started) == Backwards(PlanOf(g).layers)
  {
    StopLayersStable(g, g', started);
    StopLayersSafe(g, started);
    PlanExact(g);
    forall i, n | 0 <= i < |PlanOf(g).layers| && n in PlanOf(g).layers[i] ensures n in g {
      HeightInGraph(g, n, i);
    }
    ReversedWhole(PlanOf(g).layers, g.Keys);
  }

  lemma {:induction false} ReversedWhole(layers: seq<seq<Name>>, keep: set<Name>)
    requires forall i :: 0 <= i < |layers| ==> layers[i] != []
    requires forall i, n :: 0 <= i < |layers| && n in layers[i] ==> n in keep
    ensures Reversed(layers, keep) == Backwards(layers)
  {
    if layers != [] {
      RestrictAll(layers[|layers| - 1], keep);
      ReversedWhole(layers[..|layers| - 1], keep);
    }
  }
}
