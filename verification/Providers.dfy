/**
 * A manager's run, its registry and the provider's own lifecycle together: who depends on a provider always finds what
 * it provides.
 */
module Providers {
  import opened Basics
  import opened Graphs
  import opened Hooks
  import opened Services
  import opened Orchestration
  import RunSafety
  import Accounts
  import Home = Lifecycle
  import Base = BaseModule

  /** A contract with a single provider, the implementation it provides, and the start hook whose body does so. */
  datatype Offer = Offer(provider: Name, contract: Contract, impl: Impl, phase: Phase, hook: Hook)

  /**
   * home is the provider's module. hand is the call of Init or Destroy that the manager's latest call into the provider
   * has made there, once it has; provided tells whether the body of the offering hook has provided the contract this
   * time.
   */
  datatype World = World(run: State, table: Table, home: Home.State, hand: Option<Home.Thread>, provided: bool)

  datatype Move =
    | Manage(a: Action)
    | AtHome(h: Home.Action)
    | ProvideBy(n: Name, c: Contract, impl: Impl)
    | RevokeBy(n: Name, c: Contract)

  /** A new manager and a new provider with the offering hook among its start hooks. */
  ghost predicate Founded(offer: Offer, w: World) {
    && Home.StartPhase(offer.phase) && offer.hook.run.Some?
    && w.run == Initial && w.table == map[]
    && Home.Reachable(w.home) && w.home.threads == map[] && offer.hook in Home.Hooked(w.home.lists, offer.phase)
  }

  function ProviderStatus(offer: Offer, w: World): Status {
    StatusOf(w.run.log, offer.provider)
  }

  /** pc is inside the body of the offering hook. */
  predicate OfferingPc(offer: Offer, pc: Home.Pc) {
    pc.InPhase? && pc.phase == offer.phase && pc.running && pc.todo != [] && pc.todo[0] == offer.hook
  }

  predicate Offering(offer: Offer, home: Home.State, t: Home.Thread) {
    t in home.threads && OfferingPc(offer, home.threads[t])
  }

  /**
   * Only the manager calls Init and Destroy on the provider, and its calls last as long as those do and answer what
   * Init answered.
   */
  predicate Answers(offer: Offer, w: World, a: Action) {
    (a.EndInit? || a.EndDestroy?) && a.n == offer.provider ==>
      && w.hand.Some? && w.hand.value in w.home.threads && w.home.threads[w.hand.value].Over()
      && (a.EndInit? ==> a.ok == w.home.threads[w.hand.value].Started?)
  }

  /** The offering hook is not removed, and its body answers nil only after its Provide has. */
  predicate Allowed(offer: Offer, w: World, h: Home.Action) {
    match h
    case CallInit(_) => w.hand.None? && ProviderStatus(offer, w) == Rising
    case CallDestroy(_) => w.hand.None? && ProviderStatus(offer, w) == Falling
    case RemoveHook(phase, name) => phase == offer.phase && name == offer.hook.name ==> name == ""
    case EndHook(t, ok) => Offering(offer, w.home, t) && ok ==> w.provided
    case _ => true
  }

  /**
   * Only the offering hook provides the contract, and only a provider that is being torn down or rolled back revokes
   * it.
   */
  ghost predicate Possible(offer: Offer, w: World, m: Move) {
    match m
    case Manage(a) => Enabled(w.run, a) && Disciplined(w.run, a) && Answers(offer, w, a)
    case AtHome(h) => Home.Enabled(w.home, h) && Allowed(offer, w, h)
    case ProvideBy(n, c, impl) =>
      c == offer.contract ==> n == offer.provider && impl == offer.impl && exists t :: Offering(offer, w.home, t)
    case RevokeBy(n, c) => c == offer.contract ==> n == offer.provider && w.home.state == Base.Destroying
  }

  ghost function After(offer: Offer, w: World, m: Move): World
    requires Possible(offer, w, m)
  {
    match m
    case Manage(a) =>
      var begins := (a.BeginInit? || a.BeginDestroy?) && a.n == offer.provider;
      w.(run := Apply(w.run, a), hand := if begins then None else w.hand)
    case AtHome(h) =>
      var home := Home.Apply(w.home, h);
      w.(home := home,
         hand := if h.CallInit? || h.CallDestroy? then Some(h.t) else w.hand,
         provided := w.provided && !(h.BeginHook? && Offering(offer, home, h.t)))
    case ProvideBy(_, c, impl) =>
      w.(table := Provided(w.table, c, impl), provided := w.provided || (c == offer.contract && c !in w.table))
    case RevokeBy(_, c) => w.(table := w.table - {c})
  }

  ghost predicate Evolves(offer: Offer, w: World, moves: seq<Move>, w': World)
    decreases |moves|
  {
    if moves == [] then w' == w
    else Possible(offer, w, moves[0]) && Evolves(offer, After(offer, w, moves[0]), moves[1..], w')
  }

  // ----- the invariant ------------------------------------------------------------------------

  /** pc belongs to a call of Init that has not returned. */
  predicate Initing(pc: Home.Pc) {
    match pc
    case InPhase(phase, _, _) => Home.StartPhase(phase)
    case BetweenPhases => true
    case InitRejected => true
    case Taking(destroying) => !destroying
    case Unwinding(_, _, destroying) => !destroying
    case _ => false
  }

  /** Only the hand is at work in the provider, and only while the manager's call lasts. */
  ghost predicate Attended(threads: map<Home.Thread, Home.Pc>, hand: Option<Home.Thread>, status: Status) {
    forall t :: t in threads && !threads[t].Over() ==>
      hand == Some(t) && status == if Initing(threads[t]) then Rising else Falling
  }

  /** An Init at pc has the offering hook behind it. */
  predicate Passed(offer: Offer, pc: Home.Pc) {
    match pc
    case InPhase(phase, todo, _) =>
      if phase == BeforeStart then offer.phase == BeforeStart && offer.hook !in todo
      else phase == AfterStart && (offer.phase == BeforeStart || offer.hook !in todo)
    case BetweenPhases => offer.phase == BeforeStart
    case Started => true
    case _ => false
  }

  /** While the provider is up, and from its Provide on while it starts, the contract leads to its implementation. */
  ghost predicate Served(offer: Offer, w: World) {
    && (ProviderStatus(offer, w) == Up ==> Lookup(w.table, offer.contract) == Found(offer.impl))
    && (ProviderStatus(offer, w) == Rising && w.hand.Some? && w.hand.value in w.home.threads ==>
          var pc := w.home.threads[w.hand.value];
          Passed(offer, pc) || (OfferingPc(offer, pc) && w.provided) ==>
            Lookup(w.table, offer.contract) == Found(offer.impl))
  }

  ghost predicate Sound(offer: Offer, w: World, owner: Option<Home.Thread>) {
    && Home.StartPhase(offer.phase) && offer.hook.run.Some?
    && Home.Exclusive(w.home, owner) && offer.hook in Home.Hooked(w.home.lists, offer.phase)
    && Attended(w.home.threads, w.hand, ProviderStatus(offer, w)) && Served(offer, w)
  }

  // ----- moves of the manager -----------------------------------------------------------------

  lemma StatusMoves(s: State, a: Action, n: Name)
    requires Enabled(s, a)
    ensures StatusOf(Apply(s, a).log, n) ==
      if RunSafety.IsCall(a) && RunSafety.EventOf(a).name == n then Next(RunSafety.EventOf(a)) else StatusOf(s.log, n)
  {
    if RunSafety.IsCall(a) {
      StatusSnoc(s.log, RunSafety.EventOf(a), n);
    } else if !a.Register? {
      RunSafety.LogUntouched(s, a);
    }
  }

  lemma ManageKeeps(offer: Offer, w: World, a: Action, owner: Option<Thread>, hand: Option<Home.Thread>)
    requires Core(w.run, owner) && Sound(offer, w, hand) && Possible(offer, w, Manage(a))
    ensures Sound(offer, After(offer, w, Manage(a)), hand)
  {
    StatusMoves(w.run, a, offer.provider);
    if RunSafety.IsCall(a) && a.n == offer.provider {
      RunSafety.CallsAreLegal(w.run, owner, a);
      ProviderCallKeeps(offer, w, a, hand, Apply(w.run, a));
    }
  }

  /** A call into the provider begins with nobody at work there and ends with the hand back. */
  lemma ProviderCallKeeps(offer: Offer, w: World, a: Action, hand: Option<Home.Thread>, run: State)
    requires Sound(offer, w, hand) && RunSafety.IsCall(a) && a.n == offer.provider && Answers(offer, w, a)
    requires Legal(ProviderStatus(offer, w), RunSafety.EventOf(a))
    requires StatusOf(run.log, offer.provider) == Next(RunSafety.EventOf(a))
    ensures Sound(offer, w.(run := run, hand := if a.BeginInit? || a.BeginDestroy? then None else w.hand), hand)
  {
  }

  // ----- moves of the provider ----------------------------------------------------------------

  /** A step of one call leaves the other calls where they are, and a call that is over takes none. */
  lemma HomeStepIsLocal(s: Home.State, h: Home.Action)
    requires Home.Enabled(s, h)
    ensures h.AddHook? || h.RemoveHook? || h.AddCleanup? ==> Home.Apply(s, h).threads == s.threads
    ensures !(h.AddHook? || h.RemoveHook? || h.AddCleanup?) ==>
      && (h.t in s.threads ==> !s.threads[h.t].Over())
      && (h.t !in s.threads <==> h.CallInit? || h.CallDestroy?)
      && h.t in Home.Apply(s, h).threads
      && Home.Apply(s, h).threads == s.threads[h.t := Home.Apply(s, h).threads[h.t]]
  {
  }

  lemma HomeStepTurns(s: Home.State, h: Home.Action)
    requires Home.Enabled(s, h) && !(h.AddHook? || h.RemoveHook? || h.AddCleanup?)
    ensures var pc := Home.Apply(s, h).threads[h.t];
      pc.Over() || (Initing(pc) <==> if h.t in s.threads then Initing(s.threads[h.t]) else h.CallInit?)
  {
  }

  lemma HomeStepAttended(offer: Offer, w: World, h: Home.Action)
    requires Attended(w.home.threads, w.hand, ProviderStatus(offer, w)) && Possible(offer, w, AtHome(h))
    ensures var w' := After(offer, w, AtHome(h));
      Attended(w'.home.threads, w'.hand, ProviderStatus(offer, w'))
  {
    HomeStepIsLocal(w.home, h);
    if !(h.AddHook? || h.RemoveHook? || h.AddCleanup?) {
      HomeStepTurns(w.home, h);
    }
  }

  lemma OfferStays(offer: Offer, s: Home.State, h: Home.Action)
    requires Home.Enabled(s, h) && offer.hook in Home.Hooked(s.lists, offer.phase)
    requires h.RemoveHook? && h.phase == offer.phase && h.name == offer.hook.name ==> h.name == ""
    ensures offer.hook in Home.Hooked(Home.Apply(s, h).lists, offer.phase)
  {
    if h.RemoveHook? && h.name != "" {
      RemoveMembers(Home.Hooked(s.lists, h.phase), h.name);
    }
  }

  /** The offering hook comes to lie behind an Init only when its body answers nil: the snapshots contain it. */
  lemma PassedOnlyByAnswer(offer: Offer, s: Home.State, h: Home.Action)
    requires Home.StartPhase(offer.phase) && offer.hook.run.Some? && offer.hook in Home.Hooked(s.lists, offer.phase)
    requires Home.Enabled(s, h) && !(h.AddHook? || h.RemoveHook? || h.AddCleanup?)
    requires Passed(offer, Home.Apply(s, h).threads[h.t])
    ensures h.t in s.threads
      && (Passed(offer, s.threads[h.t]) || (h.EndHook? && h.ok && OfferingPc(offer, s.threads[h.t])))
  {
    OrderMembers(Home.Hooked(s.lists, offer.phase));
    if h.t in s.threads && s.threads[h.t].InPhase? && s.threads[h.t].todo != [] {
      var todo := s.threads[h.t].todo;
      assert todo == [todo[0]] + todo[1..];
    }
  }

  lemma OfferingOnlyByBegin(offer: Offer, s: Home.State, h: Home.Action)
    requires Home.Enabled(s, h) && !(h.AddHook? || h.RemoveHook? || h.AddCleanup?)
    requires OfferingPc(offer, Home.Apply(s, h).threads[h.t])
    ensures h.BeginHook? || (h.t in s.threads && OfferingPc(offer, s.threads[h.t]))
  {
  }

  lemma HomeStepServed(offer: Offer, w: World, h: Home.Action, owner: Option<Home.Thread>)
    requires Sound(offer, w, owner) && Possible(offer, w, AtHome(h))
    ensures Served(offer, After(offer, w, AtHome(h)))
  {
    var w' := After(offer, w, AtHome(h));
    HomeStepIsLocal(w.home, h);
    if !(h.AddHook? || h.RemoveHook? || h.AddCleanup?) && w'.hand == Some(h.t) {
      if Passed(offer, w'.home.threads[h.t]) {
        PassedOnlyByAnswer(offer, w.home, h);
      }
      if OfferingPc(offer, w'.home.threads[h.t]) {
        OfferingOnlyByBegin(offer, w.home, h);
      }
    }
  }

  lemma AtHomeKeeps(offer: Offer, w: World, h: Home.Action, owner: Option<Home.Thread>)
    returns (owner': Option<Home.Thread>)
    requires Sound(offer, w, owner) && Possible(offer, w, AtHome(h))
    ensures Sound(offer, After(offer, w, AtHome(h)), owner')
  {
    owner' := Home.OwnerAfter(w.home, owner, h);
    Accounts.StepKeepsExclusive(w.home, owner, h);
    OfferStays(offer, w.home, h);
    HomeStepAttended(offer, w, h);
    HomeStepServed(offer, w, h, owner);
  }

  // ----- moves on the registry ----------------------------------------------------------------

  lemma ProvideKeeps(offer: Offer, w: World, n: Name, c: Contract, impl: Impl, owner: Option<Home.Thread>)
    requires Sound(offer, w, owner) && Possible(offer, w, ProvideBy(n, c, impl))
    ensures Sound(offer, After(offer, w, ProvideBy(n, c, impl)), owner)
  {
    if c != offer.contract {
      ContractsAreIndependent(w.table, offer.contract, c, impl);
    }
  }

  /** A provider that is being torn down is neither up nor in a start hook. */
  lemma RevokeKeeps(offer: Offer, w: World, n: Name, c: Contract, owner: Option<Home.Thread>)
    requires Sound(offer, w, owner) && Possible(offer, w, RevokeBy(n, c))
    ensures Sound(offer, After(offer, w, RevokeBy(n, c)), owner)
  {
    if c != offer.contract {
      ContractsAreIndependent(w.table, offer.contract, c, offer.impl);
    } else {
      assert owner.Some? && !w.home.threads[owner.value].Over();
    }
  }

  // ----- whole runs ---------------------------------------------------------------------------

  lemma {:induction false} EvolutionKeeps(offer: Offer, w: World, owner: Option<Thread>, hand: Option<Home.Thread>,
                                          moves: seq<Move>, w': World)
    returns (owner': Option<Thread>, hand': Option<Home.Thread>)
    requires Core(w.run, owner) && Sound(offer, w, hand) && Evolves(offer, w, moves, w')
    ensures Core(w'.run, owner') && Sound(offer, w', hand')
    decreases |moves|
  {
    owner', hand' := owner, hand;
    if moves != [] {
      match moves[0] {
        case Manage(a) =>
          ManageKeeps(offer, w, a, owner, hand);
          StepKeeps(w.run, owner, a);
          owner' := OwnerAfter(w.run, owner, a);
        case AtHome(h) =>
          hand' := AtHomeKeeps(offer, w, h, hand);
        case ProvideBy(n, c, impl) =>
          ProvideKeeps(offer, w, n, c, impl, hand);
        case RevokeBy(n, c) =>
          RevokeKeeps(offer, w, n, c, hand);
      }
      owner', hand' := EvolutionKeeps(offer, After(offer, w, moves[0]), owner', hand', moves[1..], w');
    }
  }

  lemma FoundedSound(offer: Offer, w: World) returns (hand: Option<Home.Thread>)
    requires Founded(offer, w)
    ensures Core(w.run, None) && Sound(offer, w, hand)
  {
    hand := Accounts.ReachableAccounted(w.home);
    forall n ensures StatusOf([], n) == AtRest([], n) {
    }
  }

  /** Whenever the manager has the provider up, the contract leads to what it provides. */
  lemma UpMeansProvided(offer: Offer, w0: World, moves: seq<Move>, w: World)
    requires Founded(offer, w0) && Evolves(offer, w0, moves, w) && ProviderStatus(offer, w) == Up
    ensures Lookup(w.table, offer.contract) == Found(offer.impl)
  {
    var hand := FoundedSound(offer, w0);
    var owner', hand' := EvolutionKeeps(offer, w0, None, hand, moves, w);
  }

  /** From its Init until its Destroy has returned, a module that depends on the provider finds what it provides. */
  lemma RequireAlwaysFinds(offer: Offer, w0: World, moves: seq<Move>, w: World, consumer: Name)
    requires Founded(offer, w0) && Evolves(offer, w0, moves, w)
    requires Reaches(w.run.nodes, consumer, offer.provider) && StatusOf(w.run.log, consumer) != Down
    ensures Lookup(w.table, offer.contract) == Found(offer.impl)
  {
    var hand := FoundedSound(offer, w0);
    var owner', hand' := EvolutionKeeps(offer, w0, None, hand, moves, w);
    CoreCoherent(w.run, owner');
    RunSafety.CoherentReaches(w.run.nodes, w.run.log, consumer, offer.provider);
  }
}
