/** A run in which a provider comes up and a module that depends on it begins its Init. */
module Provision {
  import opened Basics
  import opened Graphs
  import opened Planning
  import opened Hooks
  import opened Services
  import opened Management
  import opened Orchestration
  import opened Providers
  import Discipline
  import Home = Lifecycle
  import Accounts
  import Base = BaseModule

  /**
   * What a world leaves open: everything that is not about the offer, and of what is, all but what RequireAlwaysFinds
   * excludes.
   */
  lemma MovesAreFree(offer: Offer, w: World)
    ensures forall a ::
      Enabled(w.run, a) && Disciplined(w.run, a) && !((a.EndInit? || a.EndDestroy?) && a.n == offer.provider) ==>
        Possible(offer, w, Manage(a))
    ensures forall h ::
      Home.Enabled(w.home, h) && !h.CallInit? && !h.CallDestroy? && !h.RemoveHook? && !(h.EndHook? && h.ok) ==>
        Possible(offer, w, AtHome(h))
    ensures forall h ::
      Home.Enabled(w.home, h) && h.RemoveHook? && (h.phase != offer.phase || h.name != offer.hook.name) ==>
        Possible(offer, w, AtHome(h))
    ensures forall t ::
      t !in w.home.threads && w.hand == None ==>
        && (StatusOf(w.run.log, offer.provider) == Rising ==> Possible(offer, w, AtHome(Home.CallInit(t))))
        && (StatusOf(w.run.log, offer.provider) == Falling ==> Possible(offer, w, AtHome(Home.CallDestroy(t))))
    ensures forall n, c, impl :: c != offer.contract ==> Possible(offer, w, ProvideBy(n, c, impl))
    ensures forall n, c :: c != offer.contract ==> Possible(offer, w, RevokeBy(n, c))
    ensures w.home.state == Base.Destroying ==> Possible(offer, w, RevokeBy(offer.provider, offer.contract))
  {
  }

  ghost predicate Goes(offer: Offer, w: World, w': World) {
    exists moves :: Evolves(offer, w, moves, w')
  }

  lemma {:induction false} EvolvesOn(offer: Offer, w: World, moves: seq<Move>, mid: World, m: Move)
    requires Evolves(offer, w, moves, mid) && Possible(offer, mid, m)
    ensures Evolves(offer, w, moves + [m], After(offer, mid, m))
    decreases |moves|
  {
    if moves == [] {
      assert [] + [m] == [m];
      assert Evolves(offer, After(offer, w, m), [], After(offer, w, m));
    } else {
      EvolvesOn(offer, After(offer, w, moves[0]), moves[1..], mid, m);
      assert (moves + [m])[1..] == moves[1..] + [m];
    }
  }

  /** One more move. */
  lemma GoesOn(offer: Offer, w: World, mid: World, m: Move, w': World)
    requires Goes(offer, w, mid) && Possible(offer, mid, m) && After(offer, mid, m) == w'
    ensures Goes(offer, w, w')
  {
    var moves :| Evolves(offer, w, moves, mid);
    EvolvesOn(offer, w, moves, mid, m);
  }

  /** One more step of the manager that neither begins nor ends a call into the provider. */
  lemma Manages(offer: Offer, w: World, mid: World, a: Action, s: State) returns (w': World)
    requires Goes(offer, w, mid) && Enabled(mid.run, a) && !a.CallStop? && Apply(mid.run, a) == s
    requires a.BeginInit? || a.EndInit? || a.BeginDestroy? || a.EndDestroy? ==> a.n != offer.provider
    ensures Goes(offer, w, w') && w' == mid.(run := s)
  {
    w' := mid.(run := s);
    GoesOn(offer, w, mid, Manage(a), w');
  }

  lemma AtHomeMoves(offer: Offer, w: World, mid: World, h: Home.Action, home: Home.State) returns (w': World)
    requires Goes(offer, w, mid) && Home.Enabled(mid.home, h) && Allowed(offer, mid, h)
    requires Home.Apply(mid.home, h) == home && !h.CallInit? && !h.CallDestroy? && !h.BeginHook?
    ensures Goes(offer, w, w') && w' == mid.(home := home)
  {
    w' := mid.(home := home);
    GoesOn(offer, w, mid, AtHome(h), w');
  }

  /**
   * A provider whose one BeforeStart hook makes the offer, and the registrations of it and of a module that needs it.
   */
  lemma Founding(offer: Offer, m: Name) returns (w: World, w': World)
    requires offer.provider.text != "" && m.text != "" && offer.provider != m
    requires offer.phase == BeforeStart && offer.hook.run.Some?
    ensures Founded(offer, w) && Goes(offer, w, w')
    ensures w'.run == State(map[offer.provider := [], m := [offer.provider]], [], Created, map[], [])
    ensures w'.table == map[] && w'.hand == None && !w'.provided
    ensures w'.home.threads == map[] && w'.home.acquiring == {} && w'.home.state == Base.Created
    ensures w'.home.lists == Home.Lists([offer.hook], [], [], [])
  {
    assert Home.Leads(Home.Initial, [], Home.Initial);
    Accounts.ReachOn(Home.Initial, Home.AddHook(BeforeStart, offer.hook));
    var home := Home.Apply(Home.Initial, Home.AddHook(BeforeStart, offer.hook));
    assert [] + [offer.hook] == [offer.hook];
    w := World(Initial, map[], home, None, false);
    assert Evolves(offer, w, [], w);
    var s1 := State(map[offer.provider := []], [], Created, map[], []);
    var w1 := Manages(offer, w, w, Register(offer.provider, []), s1);
    var nodes := map[offer.provider := [], m := [offer.provider]];
    assert map[offer.provider := []][m := [offer.provider]] == nodes;
    w' := Manages(offer, w, w1, Register(m, [offer.provider]), State(nodes, [], Created, map[], []));
  }

  /** The first Start goes as far as calling the provider's Init. */
  lemma ProviderCalled(offer: Offer, w: World, mid: World, m: Name) returns (w': World)
    requires Goes(offer, w, mid) && offer.provider != m
    requires mid.run == State(map[offer.provider := [], m := [offer.provider]], [], Created, map[], [])
    ensures Goes(offer, w, w')
    ensures w' == mid.(run := w'.run, hand := None)
    ensures w'.run == State(mid.run.nodes, [], Starting, map[0 := RaisingLayer(map[offer.provider := Calling], [[m]])],
                            [InitBegun(offer.provider)])
  {
    var p, nodes := offer.provider, mid.run.nodes;
    Discipline.TwoModulePlan(p, m);
    var w1 := Manages(offer, w, mid, CallStart(0), State(nodes, [], Starting, map[0 := Claimed], []));
    Discipline.Overwrites(0, Claimed, Raising([[p], [m]]));
    var w2 := Manages(offer, w, w1, TakePlan(0), State(nodes, [], Starting, map[0 := Raising([[p], [m]])], []));
    w' := FirstCalled(offer, w, w2, m);
    assert [] + [InitBegun(p)] == [InitBegun(p)];
  }

  lemma FirstCalled(offer: Offer, w: World, mid: World, m: Name) returns (w': World)
    requires Goes(offer, w, mid) && mid.run.threads == map[0 := Raising([[offer.provider], [m]])]
    ensures Goes(offer, w, w')
    ensures w' == mid.(run := mid.run.(threads := map[0 := RaisingLayer(map[offer.provider := Calling], [[m]])],
                                       log := mid.run.log + [InitBegun(offer.provider)]), hand := None)
  {
    var p := offer.provider;
    var spawned := RaisingLayer(map[p := Spawned], [[m]]);
    assert Spawn(Elements([p])) == map[p := Spawned] && [[p], [m]][1..] == [[m]];
    Discipline.Overwrites(0, Raising([[p], [m]]), spawned);
    var w1 := Manages(offer, w, mid, NextLayer(0, false), mid.run.(threads := map[0 := spawned]));
    w' := FirstBegun(offer, w, w1, m);
  }

  lemma FirstBegun(offer: Offer, w: World, mid: World, m: Name) returns (w': World)
    requires Goes(offer, w, mid)
    requires mid.run.threads == map[0 := RaisingLayer(map[offer.provider := Spawned], [[m]])]
    ensures Goes(offer, w, w')
    ensures w' == mid.(run := mid.run.(threads := map[0 := RaisingLayer(map[offer.provider := Calling], [[m]])],
                                       log := mid.run.log + [InitBegun(offer.provider)]), hand := None)
  {
    var p := offer.provider;
    var spawned, calling := RaisingLayer(map[p := Spawned], [[m]]), RaisingLayer(map[p := Calling], [[m]]);
    Discipline.Overwrites(p, Spawned, Calling);
    Discipline.Overwrites(0, spawned, calling);
    w' := mid.(run := mid.run.(threads := map[0 := calling], log := mid.run.log + [InitBegun(p)]), hand := None);
    GoesOn(offer, w, mid, Manage(BeginInit(0, p)), w');
  }

  /** The provider's Init runs its one hook, whose body provides, and answers nil. */
  lemma Provides(offer: Offer, w: World, mid: World) returns (w': World)
    requires Goes(offer, w, mid) && ProviderStatus(offer, mid) == Rising && mid.hand == None && mid.table == map[]
    requires offer.phase == BeforeStart && offer.hook.run.Some? && !mid.provided
    requires mid.home.threads == map[] && mid.home.acquiring == {} && mid.home.state == Base.Created
    requires mid.home.lists == Home.Lists([offer.hook], [], [], [])
    ensures Goes(offer, w, w') && w'.run == mid.run && w'.table == map[offer.contract := offer.impl]
    ensures w'.hand == Some(0) && w'.home.threads == map[0 := Home.Started] && w'.home.state == Base.Running
  {
    var waiting, inside := Home.InPhase(BeforeStart, [offer.hook], false),
      Home.InPhase(BeforeStart, [offer.hook], true);
    assert OrderHooks([offer.hook]) == [offer.hook];
    var w1 := mid.(home := Home.Apply(mid.home, Home.CallInit(0)), hand := Some(0));
    assert w1.home.threads == map[0 := waiting];
    GoesOn(offer, w, mid, AtHome(Home.CallInit(0)), w1);
    var w2 := w1.(home := w1.home.(threads := map[0 := inside]));
    Discipline.Overwrites(0, waiting, inside);
    GoesOn(offer, w, w1, AtHome(Home.BeginHook(0)), w2);
    assert Offering(offer, w2.home, 0);
    var w3 := w2.(table := map[offer.contract := offer.impl], provided := true);
    GoesOn(offer, w, w2, ProvideBy(offer.provider, offer.contract, offer.impl), w3);
    w' := Proceeds(offer, w, w3);
  }

  lemma Proceeds(offer: Offer, w: World, mid: World) returns (w': World)
    requires Goes(offer, w, mid) && mid.hand == Some(0) && mid.provided && mid.home.acquiring == {}
    requires mid.home.threads == map[0 := Home.InPhase(BeforeStart, [offer.hook], true)]
    requires mid.home.lists.afterStart == []
    ensures Goes(offer, w, w') && w'.run == mid.run && w'.table == mid.table
    ensures w'.hand == Some(0) && w'.home.threads == map[0 := Home.Started] && w'.home.state == Base.Running
  {
    var h1 := Home.Apply(mid.home, Home.EndHook(0, true));
    var w1 := AtHomeMoves(offer, w, mid, Home.EndHook(0, true), h1);
    assert [offer.hook][1..] == [];
    assert h1.threads == map[0 := Home.InPhase(BeforeStart, [], false)];
    w' := Concludes(offer, w, w1);
  }

  lemma Concludes(offer: Offer, w: World, mid: World) returns (w': World)
    requires Goes(offer, w, mid) && mid.home.threads == map[0 := Home.InPhase(BeforeStart, [], false)]
    requires mid.home.lists.afterStart == []
    ensures Goes(offer, w, w') && w'.run == mid.run && w'.table == mid.table && w'.hand == mid.hand
    ensures w'.home.threads == map[0 := Home.Started] && w'.home.state == Base.Running
  {
    var h1 := Home.Apply(mid.home, Home.EndPhase(0));
    var w1 := AtHomeMoves(offer, w, mid, Home.EndPhase(0), h1);
    w' := GoesThrough(offer, w, w1);
  }

  lemma GoesThrough(offer: Offer, w: World, mid: World) returns (w': World)
    requires Goes(offer, w, mid) && mid.home.threads == map[0 := Home.BetweenPhases]
    requires mid.home.lists.afterStart == []
    ensures Goes(offer, w, w') && w'.run == mid.run && w'.table == mid.table && w'.hand == mid.hand
    ensures w'.home.threads == map[0 := Home.Started] && w'.home.state == Base.Running
  {
    var h1 := Home.Apply(mid.home, Home.TakeAfterStart(0));
    var w1 := AtHomeMoves(offer, w, mid, Home.TakeAfterStart(0), h1);
    assert h1.threads[0] == Home.InPhase(AfterStart, [], false);
    w' := AtHomeMoves(offer, w, w1, Home.EndPhase(0), Home.Apply(h1, Home.EndPhase(0)));
  }

  /** The provider is listed and the module that depends on it begins its Init. */
  lemma ConsumerCalled(offer: Offer, w: World, mid: World, m: Name) returns (w': World)
    requires Goes(offer, w, mid) && offer.provider != m && mid.hand == Some(0)
    requires mid.home.threads == map[0 := Home.Started]
    requires mid.run.started == [] && mid.run.threads == map[0 := RaisingLayer(map[offer.provider := Calling], [[m]])]
    ensures Goes(offer, w, w') && w'.table == mid.table
    ensures w'.run.nodes == mid.run.nodes && StatusOf(w'.run.log, m) == Rising
  {
    var p := offer.provider;
    var calling, answered, retired := RaisingLayer(map[p := Calling], [[m]]),
      RaisingLayer(map[p := Answered(true)], [[m]]),
      RaisingLayer(map[p := Retired(true)], [[m]]);
    Discipline.Overwrites(p, Calling, Answered(true));
    Discipline.Overwrites(0, calling, answered);
    var w1 := mid.(run := mid.run.(threads := map[0 := answered], log := mid.run.log + [InitDone(p, true)]));
    GoesOn(offer, w, mid, Manage(EndInit(0, p, true)), w1);
    Discipline.Overwrites(p, Answered(true), Retired(true));
    Discipline.Overwrites(0, answered, retired);
    var w2 := Manages(offer, w, w1, Append(0, p), w1.run.(threads := map[0 := retired], started := [] + [p]));
    w' := NextCalled(offer, w, w2, m);
  }

  lemma NextCalled(offer: Offer, w: World, mid: World, m: Name) returns (w': World)
    requires Goes(offer, w, mid) && offer.provider != m
    requires mid.run.threads == map[0 := RaisingLayer(map[offer.provider := Retired(true)], [[m]])]
    ensures Goes(offer, w, w') && w'.table == mid.table
    ensures w'.run.nodes == mid.run.nodes && StatusOf(w'.run.log, m) == Rising
  {
    var retired := RaisingLayer(map[offer.provider := Retired(true)], [[m]]);
    Discipline.Overwrites(0, retired, Raising([[m]]));
    var w1 := Manages(offer, w, mid, JoinStart(0), mid.run.(threads := map[0 := Raising([[m]])]));
    w' := LastCalled(offer, w, w1, m);
  }

  lemma LastCalled(offer: Offer, w: World, mid: World, m: Name) returns (w': World)
    requires Goes(offer, w, mid) && offer.provider != m && mid.run.threads == map[0 := Raising([[m]])]
    ensures Goes(offer, w, w') && w'.table == mid.table
    ensures w'.run.nodes == mid.run.nodes && StatusOf(w'.run.log, m) == Rising
  {
    var spawned, calling := RaisingLayer(map[m := Spawned], []), RaisingLayer(map[m := Calling], []);
    assert Spawn(Elements([m])) == map[m := Spawned] && [[m]][1..] == [];
    Discipline.Overwrites(0, Raising([[m]]), spawned);
    var w1 := Manages(offer, w, mid, NextLayer(0, false), mid.run.(threads := map[0 := spawned]));
    Discipline.Overwrites(m, Spawned, Calling);
    Discipline.Overwrites(0, spawned, calling);
    w' := Manages(offer, w, w1, BeginInit(0, m),
                  w1.run.(threads := map[0 := calling], log := w1.run.log + [InitBegun(m)]));
    StatusSnoc(w1.run.log, InitBegun(m), m);
  }

  /**
   * What RequireAlwaysFinds is about does happen: any two modules, any contract and any hook with a body have a run in
   * which the first provides the contract while it starts and the second, which depends on it, is inside its Init.
   */
  lemma ProviderServes(p: Name, m: Name, c: Contract, impl: Impl, h: Hook)
    returns (w: World, moves: seq<Move>, w': World)
    requires p.text != "" && m.text != "" && p != m && h.run.Some?
    ensures var offer := Offer(p, c, impl, BeforeStart, h);
      Founded(offer, w) && Evolves(offer, w, moves, w')
    ensures Reaches(w'.run.nodes, m, p) && StatusOf(w'.run.log, m) == Rising && w'.table == map[c := impl]
  {
    var offer := Offer(p, c, impl, BeforeStart, h);
    var w0;
    w, w0 := Founding(offer, m);
    var w1 := ProviderCalled(offer, w, w0, m);
    var w2 := Provides(offer, w, w1);
    w' := ConsumerCalled(offer, w, w2, m);
    moves :| Evolves(offer, w, moves, w');
    ReachesMeans(w'.run.nodes, m, p);
  }
}
