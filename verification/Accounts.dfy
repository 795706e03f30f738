/**
 * Cleanups and resources over concurrent runs of one BaseAppModule: nothing lost, nothing run twice, nothing held at
 * rest.
 */
module Accounts {
  import opened Basics
  import opened Hooks
  import opened BaseModule
  import opened Lifecycle

  /** What a running teardown has taken and not yet run is the part of its batch below left. */
  function Batch(s: State, owner: Option<Thread>): seq<nat> {
    if owner.Some? && owner.value in s.threads
      && s.threads[owner.value].Unwinding? then s.threads[owner.value].batch else []
  }

  function Left(s: State, owner: Option<Thread>): nat {
    if owner.Some? && owner.value in s.threads
      && s.threads[owner.value].Unwinding? then s.threads[owner.value].left else 0
  }

  /** numbers counts up from lo. */
  ghost predicate Consecutive(numbers: seq<nat>, lo: nat) {
    forall i :: 0 <= i < |numbers| ==> numbers[i] == lo + i
  }

  /**
   * Registration numbers fall into three intervals: executed, then taken by the running teardown, then pending.
   * Inside the batch it is the upper part that has been executed, and in falling order.
   */
  ghost predicate Conserved(cleanups: seq<nat>, registered: nat, executed: seq<nat>, batch: seq<nat>, left: nat) {
    && |cleanups| + |batch| <= registered && left <= |batch|
    && var first := registered - |cleanups|;
       var lo := first - |batch|;
    && Consecutive(cleanups, first) && Consecutive(batch, lo)
    && (forall i, j :: 0 <= i < j < |executed| ==> executed[i] != executed[j])
    && (forall k: nat :: k in executed <==> k < lo || lo + left <= k < first)
    && |batch| - left <= |executed|
    && (forall i :: left <= i < |batch| ==> executed[|executed| - 1 - (i - left)] == batch[i])
  }

  predicate Live(cleanups: seq<nat>, registered: nat, batch: seq<nat>, left: nat, k: nat) {
    && |cleanups| + |batch| <= registered && k < registered
    && var first := registered - |cleanups|;
       var lo := first - |batch|;
       first <= k || lo <= k < lo + left
  }

  /** Exactly the resources a running hook has just acquired or a live cleanup will release are held, each once. */
  ghost predicate Balanced(cleanups: seq<nat>, registered: seq<Option<Resource>>, acquiring: set<Resource>,
                           held: set<Resource>,
                           batch: seq<nat>, left: nat)
  {
    && (forall r :: r in held <==>
          r in acquiring || exists k: nat :: Live(cleanups, |registered|, batch, left, k) && registered[k] == Some(r))
    && (forall j: nat, k: nat ::
          (j < k && Live(cleanups, |registered|, batch, left, j) && Live(cleanups, |registered|, batch, left, k)
            && registered[j].Some?)
          ==> registered[j] != registered[k])
    && (forall k: nat ::
          (Live(cleanups, |registered|, batch, left, k) && registered[k].Some?) ==> registered[k].value !in acquiring)
  }

  /** No pending cleanup releases anything. */
  ghost predicate Bare(cleanups: seq<nat>, registered: seq<Option<Resource>>) {
    |cleanups| <= |registered| && forall k :: |registered| - |cleanups| <= k < |registered| ==> registered[k].None?
  }

  ghost predicate Accounted(s: State, owner: Option<Thread>) {
    && Exclusive(s, owner)
    && Conserved(s.cleanups, |s.registered|, s.executed, Batch(s, owner), Left(s, owner))
    && Balanced(s.cleanups, s.registered, s.acquiring, s.held, Batch(s, owner), Left(s, owner))
    && (s.acquiring != {} ==> owner.Some? && InsideStartHook(s, owner.value))
    && (MayInit(s.state) || (owner.Some? && s.threads[owner.value].Unwinding?) ==> Bare(s.cleanups, s.registered))
  }

  // ----- single steps on the books ------------------------------------------------------------

  lemma ConservedAdd(cleanups: seq<nat>, registered: nat, executed: seq<nat>, batch: seq<nat>, left: nat)
    requires Conserved(cleanups, registered, executed, batch, left)
    ensures Conserved(cleanups + [registered], registered + 1, executed, batch, left)
  {
  }

  lemma ConservedTake(cleanups: seq<nat>, registered: nat, executed: seq<nat>)
    requires Conserved(cleanups, registered, executed, [], 0)
    ensures Conserved([], registered, executed, cleanups, |cleanups|)
  {
  }

  lemma ConservedRun(cleanups: seq<nat>, registered: nat, executed: seq<nat>, batch: seq<nat>, left: nat)
    requires Conserved(cleanups, registered, executed, batch, left) && left > 0
    ensures Conserved(cleanups, registered, executed + [batch[left - 1]], batch, left - 1)
  {
    var k := batch[left - 1];
    var more := executed + [k];
    assert k !in executed;
    forall i | left - 1 <= i < |batch| ensures more[|more| - 1 - (i - (left - 1))] == batch[i] {
      if i >= left {
        assert more[|more| - 1 - (i - (left - 1))] == executed[|executed| - 1 - (i - left)];
      }
    }
  }

  lemma ConservedEnd(cleanups: seq<nat>, registered: nat, executed: seq<nat>, batch: seq<nat>)
    requires Conserved(cleanups, registered, executed, batch, 0)
    ensures Conserved(cleanups, registered, executed, [], 0)
  {
  }

  lemma BalancedAdd(cleanups: seq<nat>, registered: seq<Option<Resource>>, acquiring: set<Resource>,
                    held: set<Resource>,
                    batch: seq<nat>, left: nat)
    requires Balanced(cleanups, registered, acquiring, held, batch, left) && |cleanups| + |batch| <= |registered|
    ensures Balanced(cleanups + [|registered|], registered + [None], acquiring, held, batch, left)
  {
    var k := |registered|;
    forall j: nat ensures Live(cleanups + [k], k + 1, batch, left, j) <==> j == k || Live(cleanups, k, batch, left, j) {
    }
    forall r ensures r in held <==>
      r in acquiring
      || exists j: nat :: Live(cleanups + [k], k + 1, batch, left, j) && (registered + [None])[j] == Some(r)
    {
      if j: nat :| Live(cleanups, k, batch, left, j) && registered[j] == Some(r) {
        assert Live(cleanups + [k], k + 1, batch, left, j) && (registered + [None])[j] == Some(r);
      }
    }
  }

  lemma BalancedRelease(cleanups: seq<nat>, registered: seq<Option<Resource>>, acquiring: set<Resource>,
                        held: set<Resource>, r: Resource)
    requires Balanced(cleanups, registered, acquiring, held, [], 0) && |cleanups| <= |registered| && r in acquiring
    ensures Balanced(cleanups + [|registered|], registered + [Some(r)], acquiring - {r}, held, [], 0)
  {
    var k := |registered|;
    var more := registered + [Some(r)];
    forall j: nat ensures Live(cleanups + [k], k + 1, [], 0, j) <==> j == k || Live(cleanups, k, [], 0, j) {
    }
    forall q ensures q in held <==>
      q in acquiring - {r} || exists j: nat :: Live(cleanups + [k], k + 1, [], 0, j) && more[j] == Some(q)
    {
      if q == r {
        assert Live(cleanups + [k], k + 1, [], 0, k) && more[k] == Some(q);
      } else if j: nat :| Live(cleanups, k, [], 0, j) && registered[j] == Some(q) {
        assert Live(cleanups + [k], k + 1, [], 0, j) && more[j] == Some(q);
      }
    }
  }

  lemma BalancedTake(cleanups: seq<nat>, registered: seq<Option<Resource>>, acquiring: set<Resource>,
                     held: set<Resource>)
    requires Balanced(cleanups, registered, acquiring, held, [], 0) && |cleanups| <= |registered|
    ensures Balanced([], registered, acquiring, held, cleanups, |cleanups|)
  {
  }

  lemma BalancedRun(cleanups: seq<nat>, registered: seq<Option<Resource>>, held: set<Resource>, batch: seq<nat>,
                    left: nat)
    requires Balanced(cleanups, registered, {}, held, batch, left)
    requires 0 < left <= |batch| && |cleanups| + |batch| <= |registered|
    requires Consecutive(batch, |registered| - |cleanups| - |batch|)
    ensures var k := batch[left - 1];
      var gone := if registered[k].Some? then {registered[k].value} else {};
      Balanced(cleanups, registered, {}, held - gone, batch, left - 1)
  {
  }

  lemma BalancedEnd(cleanups: seq<nat>, registered: seq<Option<Resource>>, acquiring: set<Resource>,
                    held: set<Resource>, batch: seq<nat>)
    requires Balanced(cleanups, registered, acquiring, held, batch, 0) && |cleanups| + |batch| <= |registered|
    ensures Balanced(cleanups, registered, acquiring, held, [], 0)
  {
  }

  // ----- every step keeps the books -----------------------------------------------------------

  predicate Books(a: Action) {
    a.AddCleanup? || a.Acquire? || a.AddRelease? || a.TakeBatch? || a.RunCleanup? || a.EndUnwinding?
  }

  lemma StepKeepsExclusive(s: State, owner: Option<Thread>, a: Action)
    requires Exclusive(s, owner) && Enabled(s, a)
    ensures Exclusive(Apply(s, a), OwnerAfter(s, owner, a))
  {
    if Writes(s, a) {
      WritingKeepsExclusive(s, owner, a);
    } else {
      QuietKeepsExclusive(s, owner, a);
    }
  }

  lemma OtherStepsLeaveBooks(s: State, a: Action)
    requires Enabled(s, a) && !Books(a)
    ensures var s' := Apply(s, a);
      && s'.cleanups == s.cleanups && s'.registered == s.registered && s'.executed == s.executed
      && s'.acquiring == s.acquiring && s'.held == s.held
    ensures MayInit(Apply(s, a).state) ==> Apply(s, a).state == s.state
  {
  }

  lemma OtherStepsLeaveOwner(s: State, owner: Option<Thread>, a: Action)
    requires Exclusive(s, owner) && Enabled(s, a) && !Books(a)
    ensures var s', owner' := Apply(s, a), OwnerAfter(s, owner, a);
      && Batch(s', owner') == Batch(s, owner) && Left(s', owner') == Left(s, owner)
      && (owner'.Some? && s'.threads[owner'.value].Unwinding? ==> owner == owner' && s.threads[owner.value].Unwinding?)
      && (s.acquiring != {} && owner.Some? && InsideStartHook(s, owner.value) ==>
            owner' == owner && InsideStartHook(s', owner.value))
  {
  }

  lemma OtherStepsKeep(s: State, owner: Option<Thread>, a: Action)
    requires Accounted(s, owner) && Enabled(s, a) && !Books(a)
    ensures Accounted(Apply(s, a), OwnerAfter(s, owner, a))
  {
    StepKeepsExclusive(s, owner, a);
    OtherStepsLeaveBooks(s, a);
    OtherStepsLeaveOwner(s, owner, a);
  }

  lemma OwnerActs(s: State, owner: Option<Thread>, t: Thread)
    requires Exclusive(s, owner) && t in s.threads && Owning(s.threads[t])
    ensures owner == Some(t)
  {
  }

  lemma AddingKeeps(s: State, owner: Option<Thread>)
    requires Accounted(s, owner)
    ensures Accounted(Apply(s, AddCleanup), owner) && OwnerAfter(s, owner, AddCleanup) == owner
  {
    var s' := Apply(s, AddCleanup);
    assert s'.threads == s.threads && s'.history == s.history && s'.state == s.state;
    assert Batch(s', owner) == Batch(s, owner) && Left(s', owner) == Left(s, owner);
    ConservedAdd(s.cleanups, |s.registered|, s.executed, Batch(s, owner), Left(s, owner));
    BalancedAdd(s.cleanups, s.registered, s.acquiring, s.held, Batch(s, owner), Left(s, owner));
  }

  lemma AcquiringKeeps(s: State, owner: Option<Thread>, t: Thread, r: Resource)
    requires Accounted(s, owner) && Enabled(s, Acquire(t, r))
    ensures Accounted(Apply(s, Acquire(t, r)), owner) && OwnerAfter(s, owner, Acquire(t, r)) == owner
  {
    OwnerActs(s, owner, t);
    StepKeepsExclusive(s, owner, Acquire(t, r));
    var s' := Apply(s, Acquire(t, r));
    assert Batch(s', owner) == [] && Left(s', owner) == 0;
    forall k: nat | Live(s.cleanups, |s.registered|, [], 0, k) && s.registered[k].Some?
      ensures s.registered[k].value in s.held
    {
      assert s.registered[k] == Some(s.registered[k].value);
    }
  }

  lemma ReleasingKeeps(s: State, owner: Option<Thread>, t: Thread, r: Resource)
    requires Accounted(s, owner) && Enabled(s, AddRelease(t, r))
    ensures Accounted(Apply(s, AddRelease(t, r)), owner) && OwnerAfter(s, owner, AddRelease(t, r)) == owner
  {
    OwnerActs(s, owner, t);
    StepKeepsExclusive(s, owner, AddRelease(t, r));
    var s' := Apply(s, AddRelease(t, r));
    assert Batch(s', owner) == [] && Left(s', owner) == 0;
    ConservedAdd(s.cleanups, |s.registered|, s.executed, [], 0);
    BalancedRelease(s.cleanups, s.registered, s.acquiring, s.held, r);
  }

  lemma TakingKeeps(s: State, owner: Option<Thread>, t: Thread)
    requires Accounted(s, owner) && Enabled(s, TakeBatch(t))
    ensures Accounted(Apply(s, TakeBatch(t)), owner) && OwnerAfter(s, owner, TakeBatch(t)) == owner
  {
    OwnerActs(s, owner, t);
    StepKeepsExclusive(s, owner, TakeBatch(t));
    ConservedTake(s.cleanups, |s.registered|, s.executed);
    BalancedTake(s.cleanups, s.registered, s.acquiring, s.held);
  }

  lemma RunningKeeps(s: State, owner: Option<Thread>, t: Thread, ok: bool)
    requires Accounted(s, owner) && Enabled(s, RunCleanup(t, ok))
    ensures Accounted(Apply(s, RunCleanup(t, ok)), owner) && OwnerAfter(s, owner, RunCleanup(t, ok)) == owner
  {
    OwnerActs(s, owner, t);
    StepKeepsExclusive(s, owner, RunCleanup(t, ok));
    var batch, left := Batch(s, owner), Left(s, owner);
    var s' := Apply(s, RunCleanup(t, ok));
    assert Batch(s', owner) == batch && Left(s', owner) == left - 1;
    ConservedRun(s.cleanups, |s.registered|, s.executed, batch, left);
    assert s.acquiring == {};
    BalancedRun(s.cleanups, s.registered, s.held, batch, left);
    assert batch[left - 1] < |s.registered| && s'.held == s.held - Released(s, batch[left - 1]);
  }

  lemma EndingKeeps(s: State, owner: Option<Thread>, t: Thread)
    requires Accounted(s, owner) && Enabled(s, EndUnwinding(t))
    ensures Accounted(Apply(s, EndUnwinding(t)), None) && OwnerAfter(s, owner, EndUnwinding(t)) == None
  {
    OwnerActs(s, owner, t);
    StepKeepsExclusive(s, owner, EndUnwinding(t));
    ConservedEnd(s.cleanups, |s.registered|, s.executed, Batch(s, owner));
    BalancedEnd(s.cleanups, s.registered, s.acquiring, s.held, Batch(s, owner));
  }

  lemma StepKeeps(s: State, owner: Option<Thread>, a: Action)
    requires Accounted(s, owner) && Enabled(s, a)
    ensures Accounted(Apply(s, a), OwnerAfter(s, owner, a))
  {
    if Books(a) {
      BookStepKeeps(s, owner, a);
    } else {
      OtherStepsKeep(s, owner, a);
    }
  }

  lemma BookStepKeeps(s: State, owner: Option<Thread>, a: Action)
    requires Accounted(s, owner) && Enabled(s, a) && Books(a)
    ensures Accounted(Apply(s, a), OwnerAfter(s, owner, a))
  {
    match a
    case AddCleanup => AddingKeeps(s, owner);
    case Acquire(t, r) => AcquiringKeeps(s, owner, t, r);
    case AddRelease(t, r) => ReleasingKeeps(s, owner, t, r);
    case TakeBatch(t) => TakingKeeps(s, owner, t);
    case RunCleanup(t, ok) => RunningKeeps(s, owner, t, ok);
    case EndUnwinding(t) => EndingKeeps(s, owner, t);
  }

  lemma {:induction false} RunKeeps(s: State, owner: Option<Thread>, acts: seq<Action>, s': State)
    returns (owner': Option<Thread>)
    requires Accounted(s, owner) && Leads(s, acts, s')
    ensures Accounted(s', owner')
    decreases |acts|
  {
    if acts == [] {
      owner' := owner;
    } else {
      StepKeeps(s, owner, acts[0]);
      owner' := RunKeeps(Apply(s, acts[0]), OwnerAfter(s, owner, acts[0]), acts[1..], s');
    }
  }

  lemma ReachableAccounted(s: State) returns (owner: Option<Thread>)
    requires Reachable(s)
    ensures Accounted(s, owner)
  {
    var acts :| Leads(Initial, acts, s);
    owner := RunKeeps(Initial, None, acts, s);
  }

  // ----- what every reachable state satisfies -------------------------------------------------

  /** The module is in transition exactly when one call owns the transition, and no two calls ever do. */
  lemma OneOwner(s: State)
    requires Reachable(s)
    ensures s.state == Initializing || s.state == Destroying <==> exists t :: t in s.threads && Owning(s.threads[t])
    ensures forall t, u :: t in s.threads && u in s.threads && Owning(s.threads[t]) && Owning(s.threads[u]) ==> t == u
  {
    var owner := ReachableAccounted(s);
    if owner.Some? {
      assert owner.value in s.threads && Owning(s.threads[owner.value]);
    }
  }

  /**
   * Init claims the module exactly when no call owns a transition and it is not running, that is, when it is created,
   * destroyed or failed; and it then has the BeforeStart hooks of that moment, sorted, ahead of it.
   */
  lemma InitClaims(s: State, t: Thread)
    requires Reachable(s) && t !in s.threads
    ensures Enabled(s, CallInit(t))
    ensures var s' := Apply(s, CallInit(t));
      && (s'.state != s.state <==> s.state != Running && forall u :: u in s.threads ==> !Owning(s.threads[u]))
      && (s'.state != s.state <==> s.state == Created || s.state == Destroyed || s.state == Failed)
      && (s'.state != s.state ==>
            s'.state == Initializing && s'.threads[t] == InPhase(BeforeStart, OrderHooks(s.lists.beforeStart), false))
      && (s'.state == s.state ==> s' == s.(threads := s.threads[t := Finished]))
  {
    OneOwner(s);
  }

  /** Destroy claims the module exactly when it is running. */
  lemma DestroyClaims(s: State, t: Thread)
    requires Reachable(s) && t !in s.threads
    ensures Enabled(s, CallDestroy(t))
    ensures var s' := Apply(s, CallDestroy(t));
      && (s'.state != s.state <==> s.state == Running)
      && (s'.state != s.state ==>
            s'.state == Destroying && s'.threads[t] == InPhase(BeforeDestroy, OrderHooks(s.lists.beforeDestroy), false))
      && (s'.state == s.state ==> s' == s.(threads := s.threads[t := Finished]))
  {
  }

  /**
   * A call in a phase is never stuck and its bodies may answer as they like; it may see its context cancelled before
   * any hook, and nowhere else. A phase without hooks left can only end.
   */
  lemma PhasesGoOn(s: State, t: Thread)
    requires Reachable(s) && t in s.threads && s.threads[t].InPhase?
    ensures var pc := s.threads[t];
      && (pc.running && s.acquiring == {} ==> Enabled(s, EndHook(t, true)) && Enabled(s, EndHook(t, false)))
      && (pc.running ==> !Enabled(s, SeeCancelled(t)))
      && (!pc.running && pc.todo != [] ==>
            && Enabled(s, SeeCancelled(t))
            && (pc.todo[0].run.Some? ==> Enabled(s, BeginHook(t)) && !Enabled(s, SkipHook(t)))
            && (pc.todo[0].run.None? ==> Enabled(s, SkipHook(t)) && !Enabled(s, BeginHook(t))))
      && (!pc.running && pc.todo == [] ==>
            && Enabled(s, EndPhase(t)) && !Enabled(s, SeeCancelled(t)) && !Enabled(s, BeginHook(t)))
    ensures var pc := s.threads[t];
      var rejected := match pc.phase
        case BeforeStart => InitRejected
        case AfterStart => InitRejected
        case BeforeDestroy => DestroyRejected
        case AfterDestroy => Finished;
      && (Enabled(s, SeeCancelled(t)) ==> Apply(s, SeeCancelled(t)).threads[t] == rejected)
      && (Enabled(s, EndHook(t, false)) ==>
            && Apply(s, EndHook(t, false)).threads[t] == rejected
            && Apply(s, EndHook(t, true)).threads[t] == InPhase(pc.phase, pc.todo[1..], false))
  {
    var acts :| Leads(Initial, acts, s);
    RunKeepsHooks(Initial, acts, s);
  }

  /** Inside the body of a start hook anything free may be acquired, and the release of what was acquired registered. */
  lemma StartHooksAcquire(s: State, t: Thread, r: Resource)
    requires t in s.threads && s.threads[t].InPhase? && s.threads[t].running
    requires s.threads[t].phase == BeforeStart || s.threads[t].phase == AfterStart
    ensures r !in s.held ==>
      && Enabled(s, Acquire(t, r))
      && Apply(s, Acquire(t, r)) == s.(held := s.held + {r}, acquiring := s.acquiring + {r})
    ensures r in s.acquiring ==>
      && Enabled(s, AddRelease(t, r))
      && Apply(s, AddRelease(t, r)) == s.(acquiring := s.acquiring - {r}, cleanups := s.cleanups + [|s.registered|],
        registered := s.registered + [Some(r)])
  {
  }

  /** A phase through which all hooks have gone leads on. */
  lemma PhasesEnd(s: State, t: Thread)
    requires t in s.threads && s.threads[t].InPhase? && s.threads[t].todo == [] && !s.threads[t].running
    ensures Enabled(s, EndPhase(t))
    ensures var phase, s' := s.threads[t].phase, Apply(s, EndPhase(t));
      && s'.state == (if phase == AfterStart then Running else s.state)
      && s'.threads[t] ==
         match phase
         case BeforeStart => BetweenPhases
         case AfterStart => Started
         case BeforeDestroy => Taking(true)
         case AfterDestroy => Finished
  {
  }

  /** A teardown goes through the batch whatever the cleanups answer and whatever is registered meanwhile. */
  lemma UnwindingsGoOn(s: State, t: Thread)
    requires Reachable(s) && t in s.threads && s.threads[t].Unwinding?
    ensures s.threads[t].left > 0 ==> Enabled(s, RunCleanup(t, true)) && Enabled(s, RunCleanup(t, false))
    ensures s.threads[t].left == 0 ==>
      && Enabled(s, EndUnwinding(t))
      && Apply(s, EndUnwinding(t)).state == (if s.threads[t].destroying then Destroyed else Failed)
      && Apply(s, EndUnwinding(t)).threads[t] ==
         if s.threads[t].destroying then InPhase(AfterDestroy, OrderHooks(s.lists.afterDestroy), false) else Finished
  {
    var owner := ReachableAccounted(s);
    OwnerActs(s, owner, t);
  }

  /**
   * Between its phases a call is never stuck and has one way to go: Init to its second phase, with the hooks there are
   * by then, or on to its rollback, a teardown to its batch, and a rejected Destroy back to where it came from.
   */
  lemma CallsGoOn(s: State, t: Thread)
    requires t in s.threads && !s.threads[t].InPhase? && !s.threads[t].Unwinding?
    ensures match s.threads[t]
      case BetweenPhases =>
        && Enabled(s, TakeAfterStart(t))
        && Apply(s, TakeAfterStart(t)).threads[t] == InPhase(AfterStart, OrderHooks(s.lists.afterStart), false)
      case InitRejected =>
        && Enabled(s, MarkDestroying(t))
        && Apply(s, MarkDestroying(t)).state == Destroying && Apply(s, MarkDestroying(t)).threads[t] == Taking(false)
      case Taking(destroying) =>
        && Enabled(s, TakeBatch(t)) && Apply(s, TakeBatch(t)).cleanups == []
        && Apply(s, TakeBatch(t)).threads[t] == Unwinding(s.cleanups, |s.cleanups|, destroying)
      case DestroyRejected =>
        && Enabled(s, BackToRunning(t))
        && Apply(s, BackToRunning(t)).state == Running && Apply(s, BackToRunning(t)).threads[t] == Finished
      case _ => true
    ensures s.threads[t].Over() ==>
      forall a: Action :: !a.AddHook? && !a.RemoveHook? && !a.AddCleanup? && a.t == t ==> !Enabled(s, a)
  {
  }

  /** Hooks and cleanups are added at the end of their list, in any state; no other list is touched. */
  lemma ListsChange(s: State, phase: Phase, hook: Hook, name: string)
    ensures var added := Apply(s, AddHook(phase, hook));
      added == s.(lists := match phase
        case BeforeStart => s.lists.(beforeStart := s.lists.beforeStart + [hook])
        case AfterStart => s.lists.(afterStart := s.lists.afterStart + [hook])
        case BeforeDestroy => s.lists.(beforeDestroy := s.lists.beforeDestroy + [hook])
        case AfterDestroy => s.lists.(afterDestroy := s.lists.afterDestroy + [hook]))
    ensures var removed := Apply(s, RemoveHook(phase, name));
      removed == s.(lists := match phase
        case BeforeStart => s.lists.(beforeStart := Remove(s.lists.beforeStart, name))
        case AfterStart => s.lists.(afterStart := Remove(s.lists.afterStart, name))
        case BeforeDestroy => s.lists.(beforeDestroy := Remove(s.lists.beforeDestroy, name))
        case AfterDestroy => s.lists.(afterDestroy := Remove(s.lists.afterDestroy, name)))
    ensures var more := Apply(s, AddCleanup);
      more == s.(cleanups := s.cleanups + [|s.registered|], registered := s.registered + [None])
  {
  }

  /** A call inside a body has the hook of that body first. */
  ghost predicate InHooks(s: State) {
    forall t :: t in s.threads && s.threads[t].InPhase? && s.threads[t].running ==> s.threads[t].todo != []
  }

  lemma StepKeepsHooks(s: State, a: Action)
    requires InHooks(s) && Enabled(s, a)
    ensures InHooks(Apply(s, a))
  {
  }

  lemma {:induction false} RunKeepsHooks(s: State, acts: seq<Action>, s': State)
    requires InHooks(s) && Leads(s, acts, s')
    ensures InHooks(s')
    decreases |acts|
  {
    if acts != [] {
      StepKeepsHooks(s, acts[0]);
      RunKeepsHooks(Apply(s, acts[0]), acts[1..], s');
    }
  }

  /** Only the call that owns the transition, or the one that claims it, changes the state. */
  lemma OnlyOwnerWrites(s: State, a: Action)
    requires Reachable(s) && Enabled(s, a) && Apply(s, a).state != s.state
    ensures if s.state == Initializing || s.state == Destroying then
        !a.CallInit? && !a.CallDestroy? && Writes(s, a) && a.t in s.threads && Owning(s.threads[a.t])
      else
        || (a.CallInit? && (s.state == Created || s.state == Destroyed || s.state == Failed))
        || (a.CallDestroy? && s.state == Running)
  {
    var owner := ReachableAccounted(s);
    if Writes(s, a) && !a.CallInit? && !a.CallDestroy? {
      assert Owning(s.threads[a.t]);
      OwnerActs(s, owner, a.t);
    }
  }

  /** The states a module goes through form a path of the lifecycle diagram. */
  lemma HistoryIsLawful(s: State)
    requires Reachable(s)
    ensures |s.history| > 0 && s.history[0] == Created && s.history[|s.history| - 1] == s.state
    ensures forall i :: 0 <= i < |s.history| - 1 ==>
      var next := s.history[i + 1];
      && (s.history[i] == Created || s.history[i] == Destroyed || s.history[i] == Failed ==> next == Initializing)
      && (s.history[i] == Initializing ==> next == Running || next == Destroying)
      && (s.history[i] == Running ==> next == Destroying)
      && (s.history[i] == Destroying ==> next == Running || next == Destroyed || next == Failed)
    ensures forall i :: 0 < i < |s.history| - 1 && s.history[i] == Destroying ==>
      if s.history[i - 1] == Initializing then s.history[i + 1] == Failed
      else s.history[i + 1] == Running || s.history[i + 1] == Destroyed
  {
    var owner := ReachableAccounted(s);
    forall i | 0 < i < |s.history| - 1
      ensures Fork(s.history[i - 1], s.history[i], s.history[i + 1])
    {
      var k := i - 1;
      assert Fork(s.history[k], s.history[k + 1], s.history[k + 2]);
    }
  }

  /** Number k sits in the part of a batch that a running teardown has not come to yet. */
  ghost predicate Taken(s: State, k: nat) {
    exists t, i :: t in s.threads && s.threads[t].Unwinding? && 0 <= i < s.threads[t].left && i < |s.threads[t].batch|
      && s.threads[t].batch[i] == k
  }

  lemma TakenIsBelow(s: State, owner: Option<Thread>, k: nat)
    requires Accounted(s, owner)
    ensures Taken(s, k) <==>
      var lo := |s.registered| - |s.cleanups| - |Batch(s, owner)|;
      lo <= k < lo + Left(s, owner)
  {
    var batch, left := Batch(s, owner), Left(s, owner);
    var lo := |s.registered| - |s.cleanups| - |batch|;
    if Taken(s, k) {
      var t, i :| t in s.threads && s.threads[t].Unwinding? && 0 <= i < s.threads[t].left && i < |s.threads[t].batch|
        && s.threads[t].batch[i] == k;
      OwnerActs(s, owner, t);
      assert batch[i] == k;
    }
    if lo <= k < lo + left {
      assert batch[k - lo] == k;
      assert s.threads[owner.value].batch[k - lo] == k;
    }
  }

  /** Every cleanup ever registered is in exactly one place: executed, taken by the teardown in progress, or pending. */
  lemma CleanupsAreConserved(s: State, k: nat)
    requires Reachable(s) && k < |s.registered|
    ensures k in s.executed || Taken(s, k) || k in s.cleanups
    ensures !(k in s.executed && Taken(s, k)) && !(k in s.executed && k in s.cleanups)
      && !(Taken(s, k) && k in s.cleanups)
  {
    var owner := ReachableAccounted(s);
    TakenIsBelow(s, owner, k);
    var first := |s.registered| - |s.cleanups|;
    if k >= first {
      assert s.cleanups[k - first] == k;
    }
  }

  /** No cleanup runs twice, and none that was not registered. */
  lemma CleanupsRunOnce(s: State)
    requires Reachable(s)
    ensures forall i, j :: 0 <= i < j < |s.executed| ==> s.executed[i] != s.executed[j]
    ensures forall k :: k in s.executed ==> k < |s.registered|
  {
    var owner := ReachableAccounted(s);
  }

  /**
   * A teardown runs its batch in exact reverse registration order, and what is added meanwhile is numbered after the
   * batch and stays pending.
   */
  lemma BatchRunsInReverse(s: State, t: Thread)
    requires Reachable(s) && t in s.threads && s.threads[t].Unwinding?
    ensures var batch, left := s.threads[t].batch, s.threads[t].left;
      && left <= |batch| && |batch| - left <= |s.executed|
      && (forall i, j :: 0 <= i < j < |batch| ==> batch[i] < batch[j])
      && (forall i :: left <= i < |batch| ==> s.executed[|s.executed| - 1 - (i - left)] == batch[i])
      && (forall k, i :: k in s.cleanups && 0 <= i < |batch| ==> batch[i] < k)
  {
    var owner := ReachableAccounted(s);
    OwnerActs(s, owner, t);
  }

  /**
   * Nothing is held by a module that is created, destroyed or failed, however often it has been through the lifecycle.
   */
  lemma NothingHeldAtRest(s: State)
    requires Reachable(s) && (s.state == Created || s.state == Destroyed || s.state == Failed)
    ensures s.held == {}
  {
    var owner := ReachableAccounted(s);
    assert forall k: nat :: Live(s.cleanups, |s.registered|, [], 0, k) ==> s.registered[k].None?;
    assert forall r :: r !in s.held;
  }

  /** Everything a running module holds has its release pending, so the next teardown will let go of it. */
  lemma HeldWhileRunningIsPending(s: State, r: Resource)
    requires Reachable(s) && s.state == Running && r in s.held
    ensures exists k :: k in s.cleanups && k < |s.registered| && s.registered[k] == Some(r)
  {
    var owner := ReachableAccounted(s);
    var k: nat :| Live(s.cleanups, |s.registered|, [], 0, k) && s.registered[k] == Some(r);
    var first := |s.registered| - |s.cleanups|;
    assert s.cleanups[k - first] == k;
  }

  /** While BeforeDestroy runs, and when it fails, nothing is released or executed. */
  lemma BeforeDestroyReleasesNothing(s: State, t: Thread, a: Action)
    requires Reachable(s) && Enabled(s, a)
    requires t in s.threads
      && ((s.threads[t].InPhase? && s.threads[t].phase == BeforeDestroy) || s.threads[t].DestroyRejected?)
    ensures var s' := Apply(s, a);
      && s'.executed == s.executed && s'.held == s.held
      && (forall k :: k in s.cleanups ==> k in s'.cleanups)
      && (a == BackToRunning(t) ==> s'.state == Running)
  {
    var owner := ReachableAccounted(s);
    OwnerActs(s, owner, t);
    assert forall u :: u in s.threads && u != t ==> !Owning(s.threads[u]);
  }

  predicate Adds(a: Action) {
    a.AddCleanup? || a.AddRelease?
  }

  ghost predicate NoneTaken(acts: seq<Action>, i: nat) {
    forall j :: i <= j < |acts| ==> !acts[j].TakeBatch?
  }

  /** Something has been registered since the last time a teardown took the list. */
  ghost predicate AddedSince(acts: seq<Action>) {
    exists i :: 0 <= i < |acts| && Adds(acts[i]) && NoneTaken(acts, i)
  }

  lemma {:induction false} PendingMeans(s: State, acts: seq<Action>, s': State)
    requires Leads(s, acts, s')
    ensures s'.cleanups != [] <==> AddedSince(acts) || (s.cleanups != [] && NoneTaken(acts, 0))
    decreases |acts|
  {
    if acts != [] {
      var a, rest := acts[0], acts[1..];
      PendingMeans(Apply(s, a), rest, s');
      assert Apply(s, a).cleanups != [] <==> Adds(a) || (s.cleanups != [] && !a.TakeBatch?);
      SinceSplits(acts);
    }
  }

  lemma SinceSplits(acts: seq<Action>)
    requires acts != []
    ensures NoneTaken(acts, 0) <==> !acts[0].TakeBatch? && NoneTaken(acts[1..], 0)
    ensures AddedSince(acts) <==> AddedSince(acts[1..]) || (Adds(acts[0]) && NoneTaken(acts[1..], 0))
  {
    var rest := acts[1..];
    forall i | 0 <= i < |rest| ensures rest[i] == acts[i + 1] && (NoneTaken(rest, i) <==> NoneTaken(acts, i + 1)) {
      assert forall j :: i + 1 <= j < |acts| ==> acts[j] == rest[j - 1];
    }
    assert NoneTaken(acts, 1) <==> NoneTaken(rest, 0) by {
      assert forall j :: 1 <= j < |acts| ==> acts[j] == rest[j - 1];
    }
    if AddedSince(rest) {
      var i :| 0 <= i < |rest| && Adds(rest[i]) && NoneTaken(rest, i);
      assert Adds(acts[i + 1]) && NoneTaken(acts, i + 1);
    }
    if AddedSince(acts) {
      var i :| 0 <= i < |acts| && Adds(acts[i]) && NoneTaken(acts, i);
      if i > 0 {
        assert Adds(rest[i - 1]) && NoneTaken(rest, i - 1);
      }
    }
  }

  /**
   * The list is empty exactly when nothing has been registered since a teardown last took it; an Init starts with it as
   * it is.
   */
  lemma EmptyListAtInit(acts: seq<Action>, s: State, t: Thread)
    requires Leads(Initial, acts, s) && t !in s.threads
    requires s.state == Created || s.state == Destroyed || s.state == Failed
    ensures Apply(s, CallInit(t)).cleanups == [] <==> !AddedSince(acts)
    ensures Apply(s, CallInit(t)).cleanups == [] <==> |s.executed| == |s.registered|
  {
    PendingMeans(Initial, acts, s);
    assert Reachable(s);
    var owner := ReachableAccounted(s);
    var first := |s.registered| - |s.cleanups|;
    CountBelow(s.executed, first);
  }

  lemma {:induction false} CountBelow(numbers: seq<nat>, n: nat)
    requires forall i, j :: 0 <= i < j < |numbers| ==> numbers[i] != numbers[j]
    requires forall k: nat :: k in numbers <==> k < n
    ensures |numbers| == n
    decreases n
  {
    if n == 0 {
      Inhabited(numbers);
    } else {
      assert n - 1 in numbers;
      var i :| 0 <= i < |numbers| && numbers[i] == n - 1;
      var rest := numbers[..i] + numbers[i + 1..];
      assert forall k: nat :: k in rest <==> k in numbers && k != n - 1 by {
        assert numbers == numbers[..i] + [n - 1] + numbers[i + 1..];
      }
      CountBelow(rest, n - 1);
    }
  }

  /** What the bodies of a call observe: only AfterDestroy bodies depend on what other callers do. */
  lemma BodiesObserve(s: State, t: Thread)
    requires Reachable(s) && t in s.threads
    ensures s.threads[t].InPhase? && StartPhase(s.threads[t].phase) ==> s.state == Initializing
    ensures s.threads[t].InPhase? && s.threads[t].phase == BeforeDestroy ==> s.state == Destroying
    ensures s.threads[t].Unwinding? ==> s.state == Destroying
    ensures s.threads[t].InPhase? && s.threads[t].phase == AfterDestroy ==>
      (s.state == Initializing || s.state == Destroying <==>
         exists u :: u in s.threads && u != t && Owning(s.threads[u]))
  {
    var owner := ReachableAccounted(s);
    if Owning(s.threads[t]) {
      OwnerActs(s, owner, t);
    } else if owner.Some? {
      assert owner.value != t && Owning(s.threads[owner.value]);
    }
  }

  lemma {:induction false} HistoryGrows(s: State, acts: seq<Action>, s': State)
    requires Leads(s, acts, s')
    ensures |s.history| <= |s'.history|
    decreases |acts|
  {
    if acts != [] {
      HistoryGrows(Apply(s, acts[0]), acts[1..], s');
    }
  }

  lemma DestroyedStays(s: State, a: Action)
    requires Exclusive(s, None) && s.state == Destroyed && Enabled(s, a) && !a.CallInit?
    ensures Exclusive(Apply(s, a), None) && Apply(s, a).state == Destroyed && Apply(s, a).history == s.history
  {
    assert !Writes(s, a);
    QuietKeepsExclusive(s, None, a);
  }

  lemma {:induction false} DestroyedUntil(s: State, acts: seq<Action>, s': State)
    requires Exclusive(s, None) && s.state == Destroyed && Leads(s, acts, s')
    ensures s'.history == s.history <==> forall i :: 0 <= i < |acts| ==> !acts[i].CallInit?
    ensures s'.history == s.history ==> s'.state == Destroyed
    decreases |acts|
  {
    if acts != [] {
      var rest := acts[1..];
      if acts[0].CallInit? {
        HistoryGrows(Apply(s, acts[0]), rest, s');
      } else {
        DestroyedStays(s, acts[0]);
        DestroyedUntil(Apply(s, acts[0]), rest, s');
        assert forall i :: 0 <= i < |acts| ==> acts[i] == if i == 0 then acts[0] else rest[i - 1];
      }
    }
  }

  /**
   * From the step that publishes Destroyed and opens the AfterDestroy phase, its hooks observe Destroyed until some
   * caller of Init claims the module; the state has changed in between exactly if one did.
   */
  lemma AfterDestroyObserves(s: State, t: Thread, acts: seq<Action>, s': State)
    requires Reachable(s) && t in s.threads && s.threads[t].Unwinding? && s.threads[t].destroying
      && s.threads[t].left == 0
    requires Leads(Apply(s, EndUnwinding(t)), acts, s')
    ensures var published := Apply(s, EndUnwinding(t));
      && published.state == Destroyed && published.threads[t].InPhase? && published.threads[t].phase == AfterDestroy
      && (s'.history == published.history <==> forall i :: 0 <= i < |acts| ==> !acts[i].CallInit?)
      && (s'.history == published.history ==> s'.state == Destroyed)
  {
    var owner := ReachableAccounted(s);
    OwnerActs(s, owner, t);
    StepKeepsExclusive(s, owner, EndUnwinding(t));
    DestroyedUntil(Apply(s, EndUnwinding(t)), acts, s');
  }

  // ----- two documented claims the code does not keep -----------------------------------------

  lemma {:induction false} LeadsOn(s: State, acts: seq<Action>, mid: State, a: Action)
    requires Leads(s, acts, mid) && Enabled(mid, a)
    ensures Leads(s, acts + [a], Apply(mid, a))
    decreases |acts|
  {
    if acts == [] {
      assert [] + [a] == [a];
      assert Leads(Apply(s, a), [], Apply(s, a));
    } else {
      LeadsOn(Apply(s, acts[0]), acts[1..], mid, a);
      assert (acts + [a])[1..] == acts[1..] + [a];
    }
  }

  lemma ReachOn(s: State, a: Action)
    requires Reachable(s) && Enabled(s, a)
    ensures Reachable(Apply(s, a))
  {
    var acts :| Leads(Initial, acts, s);
    LeadsOn(Initial, acts, s, a);
  }

  /**
   * AddCleanup after Destroy: a module initialized again can start with a non-empty list. EmptyListAtInit says exactly
   * when.
   */
  lemma InitMayStartWithCleanups()
    ensures exists s, t ::
      Reachable(s) && s.state == Destroyed && t !in s.threads && Apply(s, CallInit(t)).cleanups != []
  {
    assert Leads(Initial, [], Initial);
    var s1 := EmptyInit(Initial, 0);
    var s2 := EmptyDestroy(s1, 1);
    ReachOn(s2, AddCleanup);
    var s3 := Apply(s2, AddCleanup);
    assert 2 !in s3.threads && s3.cleanups != [] && Apply(s3, CallInit(2)).cleanups == s3.cleanups;
  }

  /**
   * An AfterDestroy hook can run while a new Init has the module Initializing, so teardown hooks do not always see
   * Destroying.
   */
  lemma AfterDestroyMayOverlapInit(h: Hook)
    requires h.run.Some?
    ensures exists s ::
      Reachable(s) && s.state == Initializing && 1 in s.threads && s.threads[1] == InPhase(AfterDestroy, [h], true)
  {
    assert Leads(Initial, [], Initial);
    ReachOn(Initial, AddHook(AfterDestroy, h));
    var s1 := Apply(Initial, AddHook(AfterDestroy, h));
    assert [] + [h] == [h] && OrderHooks([h]) == [h];
    var s2 := EmptyInit(s1, 0);
    var s3 := EmptyDestroy(s2, 1);
    var s4 := InitDuringHook(s3, 1, 2, h);
    assert s4.threads[1] == InPhase(AfterDestroy, [h], true);
  }

  /** An Init of u that begins while t is inside an AfterDestroy hook. */
  lemma InitDuringHook(s: State, t: Thread, u: Thread, h: Hook) returns (s': State)
    requires Reachable(s) && s.state == Destroyed && t in s.threads && u !in s.threads
    requires s.threads[t] == InPhase(AfterDestroy, [h], false) && h.run.Some?
    ensures Reachable(s') && s'.state == Initializing && t in s'.threads
      && s'.threads[t] == InPhase(AfterDestroy, [h], true)
  {
    ReachOn(s, BeginHook(t));
    var s1 := Apply(s, BeginHook(t));
    ReachOn(s1, CallInit(u));
    s' := Apply(s1, CallInit(u));
  }

  /** An Init without start hooks. */
  lemma EmptyInit(s: State, t: Thread) returns (s': State)
    requires Reachable(s) && t !in s.threads && (s.state == Created || s.state == Destroyed || s.state == Failed)
    requires s.lists.beforeStart == [] && s.lists.afterStart == []
    ensures Reachable(s') && s'.state == Running && s'.lists == s.lists && s'.threads.Keys == s.threads.Keys + {t}
  {
    ReachOn(s, CallInit(t));
    var s1 := Apply(s, CallInit(t));
    assert s1.threads == s.threads[t := InPhase(BeforeStart, [], false)];
    var s2 := EmptyPhase(s1, t);
    ReachOn(s2, TakeAfterStart(t));
    var s3 := Apply(s2, TakeAfterStart(t));
    assert s3.threads[t] == InPhase(AfterStart, [], false);
    s' := EmptyPhase(s3, t);
  }

  /** A phase of Init with no hooks left. */
  lemma EmptyPhase(s: State, t: Thread) returns (s': State)
    requires Reachable(s) && t in s.threads && s.threads[t].InPhase? && StartPhase(s.threads[t].phase)
    requires s.threads[t].todo == [] && !s.threads[t].running
    ensures Reachable(s') && s'.lists == s.lists && s'.threads.Keys == s.threads.Keys
    ensures if s.threads[t].phase == BeforeStart then s'.threads[t] == BetweenPhases else s'.state == Running
  {
    ReachOn(s, EndPhase(t));
    s' := Apply(s, EndPhase(t));
  }

  /** A Destroy without BeforeDestroy hooks or cleanups, up to its AfterDestroy phase. */
  lemma EmptyDestroy(s: State, t: Thread) returns (s': State)
    requires Reachable(s) && s.state == Running && t !in s.threads && s.lists.beforeDestroy == []
    ensures Reachable(s') && s'.state == Destroyed && s'.lists == s.lists && s'.threads.Keys == s.threads.Keys + {t}
    ensures s'.threads[t] == InPhase(AfterDestroy, OrderHooks(s.lists.afterDestroy), false)
  {
    ReachOn(s, CallDestroy(t));
    var s1 := Apply(s, CallDestroy(t));
    ReachOn(s1, EndPhase(t));
    var s2 := Apply(s1, EndPhase(t));
    ReachOn(s2, TakeBatch(t));
    var s3 := Apply(s2, TakeBatch(t));
    s' := EmptyBatch(s3, t);
  }

  lemma {:induction false} EmptyBatch(s: State, t: Thread) returns (s': State)
    requires Reachable(s) && t in s.threads && s.threads[t].Unwinding? && s.threads[t].destroying
    ensures Reachable(s') && s'.state == Destroyed && s'.lists == s.lists && s'.threads.Keys == s.threads.Keys
    ensures s'.threads[t] == InPhase(AfterDestroy, OrderHooks(s.lists.afterDestroy), false)
  {
    var s1 := WholeBatch(s, t);
    ReachOn(s1, EndUnwinding(t));
    s' := Apply(s1, EndUnwinding(t));
  }

  /** The cleanups of a batch one after the other, whatever they answer. */
  lemma {:induction false} WholeBatch(s: State, t: Thread) returns (s': State)
    requires Reachable(s) && t in s.threads && s.threads[t].Unwinding?
    ensures Reachable(s') && s'.state == s.state && s'.lists == s.lists && s'.history == s.history
    ensures s'.threads == s.threads[t := s.threads[t].(left := 0)]
    decreases s.threads[t].left
  {
    if s.threads[t].left == 0 {
      s' := s;
      assert s.threads == s.threads[t := s.threads[t].(left := 0)];
    } else {
      BatchRunsInReverse(s, t);
      ReachOn(s, RunCleanup(t, true));
      var next := Apply(s, RunCleanup(t, true));
      s' := WholeBatch(next, t);
      assert s'.threads == s.threads[t := s.threads[t].(left := 0)];
    }
  }

  /** A start that fails ends Failed, and the module can be initialized again from there. */
  lemma RetryAfterFailure(h: Hook)
    ensures exists s :: Reachable(s) && s.history == [Created, Initializing, Destroying, Failed, Initializing]
  {
    assert Leads(Initial, [], Initial);
    ReachOn(Initial, AddHook(BeforeStart, h));
    var s1 := Apply(Initial, AddHook(BeforeStart, h));
    assert [] + [h] == [h] && OrderHooks([h]) == [h];
    var s2 := Rejects(s1, 0);
    var s3 := RollsBack(s2, 0);
    ReachOn(s3, CallInit(1));
    assert Apply(s3, CallInit(1)).history == [Created, Initializing, Destroying, Failed, Initializing];
  }

  lemma Rejects(s: State, t: Thread) returns (s': State)
    requires Reachable(s) && t !in s.threads && s.state == Created && OrderHooks(s.lists.beforeStart) != []
    ensures Reachable(s') && s'.history == s.history + [Initializing] && s'.threads == s.threads[t := InitRejected]
  {
    ReachOn(s, CallInit(t));
    var s1 := Apply(s, CallInit(t));
    ReachOn(s1, SeeCancelled(t));
    s' := Apply(s1, SeeCancelled(t));
    assert s'.threads == s.threads[t := InitRejected];
  }

  lemma RollsBack(s: State, t: Thread) returns (s': State)
    requires Reachable(s) && t in s.threads && s.threads[t] == InitRejected
    ensures Reachable(s') && s'.state == Failed && s'.history == s.history + [Destroying, Failed]
    ensures s'.threads.Keys == s.threads.Keys
  {
    ReachOn(s, MarkDestroying(t));
    var s1 := Apply(s, MarkDestroying(t));
    ReachOn(s1, TakeBatch(t));
    var s2 := WholeBatch(Apply(s1, TakeBatch(t)), t);
    ReachOn(s2, EndUnwinding(t));
    s' := Apply(s2, EndUnwinding(t));
    assert s.history + [Destroying] + [Failed] == s.history + [Destroying, Failed];
  }
}
