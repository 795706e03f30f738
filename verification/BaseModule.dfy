/** The BaseAppModule object: hooks, cleanups and the two transitions Init and Destroy, as one caller sees them. */
module BaseModule {
  import opened Basics
  import opened Hooks

  datatype ModuleState = Created | Initializing | Running | Destroying | Destroyed | Failed

  /** The states Init may be called in. */
  predicate MayInit(state: ModuleState) {
    state == Created || state == Destroyed || state == Failed
  }

  /** A body that ran, and the state it observed. */
  datatype Step = HookRan(body: Body, observed: ModuleState) | CleanupRan(cleanup: Cleanup, observed: ModuleState)

  /** A cleanup that failed, by its position in the batch. */
  datatype CleanupError = CleanupFailed(index: nat, answer: Answer)

  datatype InitResult =
    | Initialized
    | AlreadyInitialized
    | InitFailed(phase: Phase, cause: PhaseError, rollback: seq<CleanupError>)

  datatype DestroyResult =
    | NotInitialized
    | StillRunning(cause: PhaseError)
    | TornDown(cleanupErrors: seq<CleanupError>, after: Option<PhaseError>)

  // ----- what bodies leave behind -------------------------------------------------------------

  function AddedHooks(effects: seq<Effect>, phase: Phase): seq<Hook> {
    if effects == [] then []
    else if effects[0].HookAdded? && effects[0].phase == phase then [effects[0].hook] + AddedHooks(effects[1..], phase)
    else AddedHooks(effects[1..], phase)
  }

  function AddedCleanups(effects: seq<Effect>): seq<Cleanup> {
    if effects == [] then []
    else if effects[0].CleanupAdded? then [effects[0].cleanup] + AddedCleanups(effects[1..])
    else AddedCleanups(effects[1..])
  }

  lemma {:induction false} AddedHooksConcat(a: seq<Effect>, b: seq<Effect>, phase: Phase)
    ensures AddedHooks(a + b, phase) == AddedHooks(a, phase) + AddedHooks(b, phase)
  {
    if a == [] {
      assert a + b == b;
    } else {
      AddedHooksConcat(a[1..], b, phase);
      assert (a + b)[1..] == a[1..] + b && (a + b)[0] == a[0];
      if a[0].HookAdded? {
        ConcatAssociative([a[0].hook], AddedHooks(a[1..], phase), AddedHooks(b, phase));
      }
    }
  }

  lemma {:induction false} AddedCleanupsConcat(a: seq<Effect>, b: seq<Effect>)
    ensures AddedCleanups(a + b) == AddedCleanups(a) + AddedCleanups(b)
  {
    if a == [] {
      assert a + b == b;
    } else {
      AddedCleanupsConcat(a[1..], b);
      assert (a + b)[1..] == a[1..] + b && (a + b)[0] == a[0];
      if a[0].CleanupAdded? {
        ConcatAssociative([a[0].cleanup], AddedCleanups(a[1..]), AddedCleanups(b));
      }
    }
  }

  /** The effects of the bodies, in the order they ran. */
  function EffectsOf(bodies: seq<Body>): seq<Effect> {
    if bodies == [] then [] else bodies[0].effects + EffectsOf(bodies[1..])
  }

  function CleanupEffects(cleanups: seq<Cleanup>): seq<Effect> {
    if cleanups == [] then [] else cleanups[0].effects + CleanupEffects(cleanups[1..])
  }

  function Observed(bodies: seq<Body>, state: ModuleState): seq<Step> {
    seq(|bodies|, i requires 0 <= i < |bodies| => HookRan(bodies[i], state))
  }

  function Unwound(cleanups: seq<Cleanup>, state: ModuleState): seq<Step> {
    seq(|cleanups|, i requires 0 <= i < |cleanups| => CleanupRan(cleanups[i], state))
  }

  function Reversed(cleanups: seq<Cleanup>): seq<Cleanup> {
    if cleanups == [] then [] else [cleanups[|cleanups| - 1]] + Reversed(cleanups[..|cleanups| - 1])
  }

  lemma {:induction false} ReversedAt(cleanups: seq<Cleanup>, k: nat)
    requires k < |cleanups|
    ensures |Reversed(cleanups)| == |cleanups|
    ensures Reversed(cleanups)[k] == cleanups[|cleanups| - 1 - k]
  {
    if |cleanups| > 1 {
      ReversedAt(cleanups[..|cleanups| - 1], if k > 0 then k - 1 else 0);
    }
  }

  lemma ReversedEverywhere(cleanups: seq<Cleanup>)
    ensures |Reversed(cleanups)| == |cleanups|
    ensures forall k :: 0 <= k < |cleanups| ==> Reversed(cleanups)[|cleanups| - 1 - k] == cleanups[k]
  {
    forall k | 0 <= k < |cleanups|
      ensures |Reversed(cleanups)| == |cleanups| && Reversed(cleanups)[|cleanups| - 1 - k] == cleanups[k]
    {
      ReversedAt(cleanups, |cleanups| - 1 - k);
    }
  }

  /** The failures of a batch, last registered first, each under its registration position. */
  function CleanupErrors(cleanups: seq<Cleanup>): seq<CleanupError> {
    if cleanups == [] then []
    else
      var i := |cleanups| - 1;
      if cleanups[i].answer != Ok then [CleanupFailed(i, cleanups[i].answer)] + CleanupErrors(cleanups[..i])
      else CleanupErrors(cleanups[..i])
  }

  lemma {:induction false} CleanupErrorsListed(batch: seq<Cleanup>, i: nat, a: Answer)
    ensures CleanupFailed(i, a) in CleanupErrors(batch) <==> i < |batch| && batch[i].answer == a && a != Ok
  {
    if batch != [] {
      var k := |batch| - 1;
      CleanupErrorsListed(batch[..k], i, a);
      if batch[k].answer != Ok {
        assert CleanupErrors(batch) == [CleanupFailed(k, batch[k].answer)] + CleanupErrors(batch[..k]);
      } else {
        assert CleanupErrors(batch) == CleanupErrors(batch[..k]);
      }
    }
  }

  ghost predicate Falling(errs: seq<CleanupError>, below: int) {
    && (forall p :: 0 <= p < |errs| ==> errs[p].index < below)
    && (forall p, q :: 0 <= p < q < |errs| ==> errs[q].index < errs[p].index)
  }

  lemma {:induction false} CleanupErrorsFall(batch: seq<Cleanup>)
    ensures Falling(CleanupErrors(batch), |batch|)
  {
    if batch != [] {
      CleanupErrorsFall(batch[..|batch| - 1]);
    }
  }

  /** The errors are exactly the failures of the batch, one each, in the order the cleanups run. */
  lemma CleanupErrorsMean(batch: seq<Cleanup>)
    ensures var errs := CleanupErrors(batch);
      && (forall i: nat, a :: CleanupFailed(i, a) in errs <==> i < |batch| && batch[i].answer == a && a != Ok)
      && (forall p, q :: 0 <= p < q < |errs| ==> errs[q].index < errs[p].index)
  {
    forall i: nat, a ensures
      CleanupFailed(i, a) in CleanupErrors(batch) <==> i < |batch| && batch[i].answer == a && a != Ok
    {
      CleanupErrorsListed(batch, i, a);
    }
    CleanupErrorsFall(batch);
  }

  /** The hook lists, the pending cleanups and the record of what ran, as one value. */
  datatype Fields = Fields(beforeStart: seq<Hook>, afterStart: seq<Hook>, beforeDestroy: seq<Hook>,
    afterDestroy: seq<Hook>,
                           cleanups: seq<Cleanup>, ran: seq<Step>)

  /** The fields after bodies with these effects have run as these steps. */
  function Grow(f: Fields, effects: seq<Effect>, steps: seq<Step>): Fields {
    Fields(f.beforeStart + AddedHooks(effects, BeforeStart), f.afterStart + AddedHooks(effects, AfterStart),
           f.beforeDestroy + AddedHooks(effects, BeforeDestroy), f.afterDestroy + AddedHooks(effects, AfterDestroy),
           f.cleanups + AddedCleanups(effects), f.ran + steps)
  }

  lemma GrowTwice(f: Fields, a: seq<Effect>, s: seq<Step>, b: seq<Effect>, t: seq<Step>)
    ensures Grow(Grow(f, a, s), b, t) == Grow(f, a + b, s + t)
  {
    AddedHooksConcat(a, b, BeforeStart);
    ConcatAssociative(f.beforeStart, AddedHooks(a, BeforeStart), AddedHooks(b, BeforeStart));
    AddedHooksConcat(a, b, AfterStart);
    ConcatAssociative(f.afterStart, AddedHooks(a, AfterStart), AddedHooks(b, AfterStart));
    AddedHooksConcat(a, b, BeforeDestroy);
    ConcatAssociative(f.beforeDestroy, AddedHooks(a, BeforeDestroy), AddedHooks(b, BeforeDestroy));
    AddedHooksConcat(a, b, AfterDestroy);
    ConcatAssociative(f.afterDestroy, AddedHooks(a, AfterDestroy), AddedHooks(b, AfterDestroy));
    AddedCleanupsConcat(a, b);
    ConcatAssociative(f.cleanups, AddedCleanups(a), AddedCleanups(b));
    ConcatAssociative(f.ran, s, t);
  }

  lemma OneEffect(e: Effect)
    ensures forall p :: AddedHooks([e], p) == if e.HookAdded? && e.phase == p then [e.hook] else []
    ensures AddedCleanups([e]) == if e.CleanupAdded? then [e.cleanup] else []
  {
  }

  lemma GrowNothing(f: Fields)
    ensures Grow(f, [], []) == f
  {
  }

  /** One more body at the end. */
  lemma {:induction false} EffectsSnoc(bodies: seq<Body>, body: Body)
    ensures EffectsOf(bodies + [body]) == EffectsOf(bodies) + body.effects
  {
    if bodies == [] {
      assert bodies + [body] == [body];
      assert EffectsOf([body]) == body.effects + EffectsOf([]);
    } else {
      EffectsSnoc(bodies[1..], body);
      assert (bodies + [body])[1..] == bodies[1..] + [body] && (bodies + [body])[0] == bodies[0];
      ConcatAssociative(bodies[0].effects, EffectsOf(bodies[1..]), body.effects);
    }
  }

  lemma {:induction false} CleanupEffectsSnoc(cleanups: seq<Cleanup>, cleanup: Cleanup)
    ensures CleanupEffects(cleanups + [cleanup]) == CleanupEffects(cleanups) + cleanup.effects
  {
    if cleanups == [] {
      assert cleanups + [cleanup] == [cleanup];
      assert CleanupEffects([cleanup]) == cleanup.effects + CleanupEffects([]);
    } else {
      CleanupEffectsSnoc(cleanups[1..], cleanup);
      assert (cleanups + [cleanup])[1..] == cleanups[1..] + [cleanup] && (cleanups + [cleanup])[0] == cleanups[0];
      ConcatAssociative(cleanups[0].effects, CleanupEffects(cleanups[1..]), cleanup.effects);
    }
  }

  lemma UnwoundSnoc(cleanups: seq<Cleanup>, cleanup: Cleanup, state: ModuleState)
    ensures Unwound(cleanups + [cleanup], state) == Unwound(cleanups, state) + [CleanupRan(cleanup, state)]
    ensures Unwound([cleanup], state) == [CleanupRan(cleanup, state)]
  {
  }

  lemma LastFirst(batch: seq<Cleanup>, i: nat)
    requires i < |batch|
    ensures Reversed(batch[..i + 1]) == [batch[i]] + Reversed(batch[..i])
    ensures CleanupErrors(batch[..i + 1]) ==
      if batch[i].answer != Ok then [CleanupFailed(i, batch[i].answer)] + CleanupErrors(batch[..i])
        else CleanupErrors(batch[..i])
  {
    assert batch[..i + 1][..i] == batch[..i];
  }

  lemma {:induction false} EffectsConcat(a: seq<Body>, b: seq<Body>)
    ensures EffectsOf(a + b) == EffectsOf(a) + EffectsOf(b)
  {
    if a == [] {
      assert a + b == b;
    } else {
      EffectsConcat(a[1..], b);
      assert (a + b)[1..] == a[1..] + b && (a + b)[0] == a[0];
      ConcatAssociative(a[0].effects, EffectsOf(a[1..]), EffectsOf(b));
    }
  }

  lemma ObservedConcat(a: seq<Body>, b: seq<Body>, state: ModuleState)
    ensures Observed(a + b, state) == Observed(a, state) + Observed(b, state)
  {
  }

  lemma ConcatNothing(bodies: seq<Body>)
    ensures bodies + [] == bodies
  {
  }

  lemma OneMoreBody(f: Fields, sofar: seq<Body>, body: Body, state: ModuleState)
    ensures Grow(Grow(f, EffectsOf(sofar), Observed(sofar, state)), body.effects, [HookRan(body, state)]) ==
      Grow(f, EffectsOf(sofar + [body]), Observed(sofar + [body], state))
  {
    EffectsSnoc(sofar, body);
    ObservedConcat(sofar, [body], state);
    assert Observed([body], state) == [HookRan(body, state)];
    GrowTwice(f, EffectsOf(sofar), Observed(sofar, state), body.effects, [HookRan(body, state)]);
  }

  // ----- what a start amounts to --------------------------------------------------------------

  /** The BeforeStart phase of an Init. */
  function FirstPhase(f: Fields, ctx: Context): PhaseRun {
    RunHooks(OrderHooks(f.beforeStart), 0, ctx)
  }

  /** Its AfterStart phase: hooks that BeforeStart bodies have added to AfterStart take part. */
  function SecondPhase(f: Fields, ctx: Context): PhaseRun {
    var before := FirstPhase(f, ctx);
    RunHooks(OrderHooks(f.afterStart + AddedHooks(EffectsOf(before.ran), AfterStart)), 0, before.ctx)
  }

  predicate Starts(f: Fields, ctx: Context) {
    FirstPhase(f, ctx).error.None? && SecondPhase(f, ctx).error.None?
  }

  /** Every hook a start has to get through: both lists, and what the BeforeStart bodies add to the second. */
  function StartHooks(f: Fields): seq<Hook> {
    f.beforeStart + (f.afterStart + AddedHooks(EffectsOf(Bodies(OrderHooks(f.beforeStart))), AfterStart))
  }

  /** A start goes through exactly if none of its hooks fails and the context survives one check for each of them. */
  lemma StartsIff(f: Fields, ctx: Context)
    ensures Starts(f, ctx) <==>
      (forall h :: h in StartHooks(f) ==> !Fails(h)) && ctx.LiveFor(|StartHooks(f)|) == |StartHooks(f)|
  {
    OrderMembers(f.beforeStart);
    PhaseSucceeds(OrderHooks(f.beforeStart), ctx);
    var second := f.afterStart + AddedHooks(EffectsOf(FirstPhase(f, ctx).ran), AfterStart);
    OrderMembers(second);
    PhaseSucceeds(OrderHooks(second), FirstPhase(f, ctx).ctx);
    assert |StartHooks(f)| >= |f.beforeStart|;
    if FirstPhase(f, ctx).error.None? {
      assert StartHooks(f) == f.beforeStart + second;
    }
  }

  /** Under a context cancelled beforehand Init succeeds all the same exactly if the module has no start hooks. */
  lemma CancelledStart(f: Fields)
    ensures Starts(f, Expires(0)) <==> f.beforeStart == [] && f.afterStart == []
  {
    StartsIff(f, Expires(0));
    if f.beforeStart == [] {
      assert Bodies(OrderHooks(f.beforeStart)) == [];
    }
  }

  /** When Init has answered nil every one of its hooks with a body has run and answered nil. */
  lemma EveryHookAnswered(f: Fields, ctx: Context, h: Hook)
    requires Starts(f, ctx) && h.run.Some?
    requires h in f.beforeStart + f.afterStart + AddedHooks(EffectsOf(FirstPhase(f, ctx).ran), AfterStart)
    ensures h.run.value.answer == Ok && h.run.value in FirstPhase(f, ctx).ran + SecondPhase(f, ctx).ran
  {
    StartsIff(f, ctx);
    OrderMembers(f.beforeStart);
    PhaseSucceeds(OrderHooks(f.beforeStart), ctx);
    var second := f.afterStart + AddedHooks(EffectsOf(FirstPhase(f, ctx).ran), AfterStart);
    OrderMembers(second);
    PhaseSucceeds(OrderHooks(second), FirstPhase(f, ctx).ctx);
    if h in f.beforeStart {
      BodiesHas(OrderHooks(f.beforeStart), h);
    } else {
      BodiesHas(OrderHooks(second), h);
    }
  }

  // ----- the object ---------------------------------------------------------------------------

  class BaseAppModule {
    var state: ModuleState
    var beforeStart: seq<Hook>
    var afterStart: seq<Hook>
    var beforeDestroy: seq<Hook>
    var afterDestroy: seq<Hook>
    var cleanups: seq<Cleanup>
    /** Every body that has run. */
    ghost var ran: seq<Step>

    constructor ()
      ensures state == Created && cleanups == [] && ran == []
      ensures Now() == Fields([], [], [], [], [], [])
    {
      state, cleanups, ran := Created, [], [];
      beforeStart, afterStart, beforeDestroy, afterDestroy := [], [], [], [];
    }

    ghost function Now(): (f: Fields)
      reads this`beforeStart, this`afterStart, this`beforeDestroy, this`afterDestroy, this`cleanups, this`ran
      ensures f.beforeStart == beforeStart && f.afterStart == afterStart
      ensures f.beforeDestroy == beforeDestroy && f.afterDestroy == afterDestroy
      ensures f.cleanups == cleanups && f.ran == ran
    {
      Fields(beforeStart, afterStart, beforeDestroy, afterDestroy, cleanups, ran)
    }

    function HooksFor(phase: Phase): (hooks: seq<Hook>)
      reads this`beforeStart, this`afterStart, this`beforeDestroy, this`afterDestroy
      ensures phase == BeforeStart ==> hooks == beforeStart
      ensures phase == AfterStart ==> hooks == afterStart
      ensures phase == BeforeDestroy ==> hooks == beforeDestroy
      ensures phase == AfterDestroy ==> hooks == afterDestroy
    {
      match phase
      case BeforeStart => beforeStart
      case AfterStart => afterStart
      case BeforeDestroy => beforeDestroy
      case AfterDestroy => afterDestroy
    }

    method SetHooks(phase: Phase, hooks: seq<Hook>)
      modifies this`beforeStart, this`afterStart, this`beforeDestroy, this`afterDestroy
      ensures forall p :: HooksFor(p) == if p == phase then hooks else old(HooksFor(p))
    {
      match phase
      case BeforeStart => beforeStart := hooks;
      case AfterStart => afterStart := hooks;
      case BeforeDestroy => beforeDestroy := hooks;
      case AfterDestroy => afterDestroy := hooks;
    }

    method AddHook(phase: Phase, hook: Hook)
      modifies this`beforeStart, this`afterStart, this`beforeDestroy, this`afterDestroy
      ensures forall p :: HooksFor(p) == old(HooksFor(p)) + if p == phase then [hook] else []
    {
      SetHooks(phase, HooksFor(phase) + [hook]);
    }

    /** Removes every hook of that name from the phase and reports whether there was one. */
    method RemoveHook(phase: Phase, name: string) returns (removed: bool)
      modifies this`beforeStart, this`afterStart, this`beforeDestroy, this`afterDestroy
      ensures forall p :: HooksFor(p) == if p == phase then Remove(old(HooksFor(p)), name) else old(HooksFor(p))
      ensures removed <==> name != "" && exists h :: h in old(HooksFor(phase)) && h.name == name
      ensures OrderHooks(HooksFor(phase)) == Remove(OrderHooks(old(HooksFor(phase))), name)
    {
      RemoveCommutes(HooksFor(phase), name);
      if name == "" {
        return false;
      }
      RemoveMembers(HooksFor(phase), name);
      var kept := Remove(HooksFor(phase), name);
      removed := |kept| != |HooksFor(phase)|;
      SetHooks(phase, kept);
    }

    /** A nil function is ignored. */
    method AddCleanup(fn: Option<Cleanup>)
      modifies this`cleanups
      ensures cleanups == old(cleanups) + if fn.Some? then [fn.value] else []
    {
      if fn.Some? {
        cleanups := cleanups + [fn.value];
      }
    }

    /** Carries out what a body does to its module. */
    method Perform(effects: seq<Effect>)
      modifies this`beforeStart, this`afterStart, this`beforeDestroy, this`afterDestroy, this`cleanups
      ensures Now() == Grow(old(Now()), effects, [])
    {
      GrowNothing(Now());
      for i := 0 to |effects|
        invariant Now() == Grow(old(Now()), effects[..i], [])
      {
        assert effects[..i + 1] == effects[..i] + [effects[i]];
        GrowTwice(old(Now()), effects[..i], [], [effects[i]], []);
        OneEffect(effects[i]);
        ghost var before := Now();
        match effects[i] {
          case HookAdded(phase, hook) =>
            AddHook(phase, hook);
          case CleanupAdded(cleanup) =>
            AddCleanup(Some(cleanup));
        }
        assert HooksFor(BeforeStart) == before.beforeStart + AddedHooks([effects[i]], BeforeStart);
        assert HooksFor(AfterStart) == before.afterStart + AddedHooks([effects[i]], AfterStart);
        assert HooksFor(BeforeDestroy) == before.beforeDestroy + AddedHooks([effects[i]], BeforeDestroy);
        assert HooksFor(AfterDestroy) == before.afterDestroy + AddedHooks([effects[i]], AfterDestroy);
        assert Now() == Grow(before, [effects[i]], []);
      }
      assert effects[..|effects|] == effects;
    }

    /** Runs one hook body; a panic comes back as an answer. */
    method RunHook(body: Body) returns (answer: Answer)
      modifies this`beforeStart, this`afterStart, this`beforeDestroy, this`afterDestroy, this`cleanups, this`ran
      ensures answer == body.answer
      ensures Now() == Grow(old(Now()), body.effects, [HookRan(body, state)])
    {
      ran := ran + [HookRan(body, state)];
      Perform(body.effects);
      answer := body.answer;
    }

    /** Runs the hooks in order until one fails, the context is seen cancelled, or none are left. */
    method RunPhase(hooks: seq<Hook>, ctx: Context) returns (err: Option<PhaseError>, ctx': Context)
      modifies this`beforeStart, this`afterStart, this`beforeDestroy, this`afterDestroy, this`cleanups, this`ran
      ensures var run := RunHooks(OrderHooks(hooks), 0, ctx);
        && err == run.error && ctx' == run.ctx
        && Now() == Grow(old(Now()), EffectsOf(run.ran), Observed(run.ran, state))
    {
      var sorted := OrderHooks(hooks);
      ghost var sofar: seq<Body> := [];
      err, ctx' := None, ctx;
      GrowNothing(Now());
      for i := 0 to |sorted|
        invariant err == None
        invariant RunHooks(sorted, 0, ctx) == RunHooks(sorted, i, ctx').(ran := sofar + RunHooks(sorted, i, ctx').ran)
        invariant Now() == Grow(old(Now()), EffectsOf(sofar), Observed(sofar, state))
      {
        if ctx'.Cancelled() {
          ConcatNothing(sofar);
          return Some(Interrupted), ctx';
        }
        ctx' := ctx'.Checked();
        if sorted[i].run.Some? {
          var body := sorted[i].run.value;
          var answer := RunHook(body);
          OneMoreBody(old(Now()), sofar, body, state);
          if answer != Ok {
            sofar := sofar + [body];
            return Some(HookFailed(i, sorted[i].name, answer)), ctx';
          }
          ConcatAssociative(sofar, [body], RunHooks(sorted, i + 1, ctx').ran);
          sofar := sofar + [body];
        }
      }
      ConcatNothing(sofar);
    }

    /** Takes the pending cleanups and runs every one of them, last registered first. */
    method RunCleanups() returns (errs: seq<CleanupError>)
      modifies this`beforeStart, this`afterStart, this`beforeDestroy, this`afterDestroy, this`cleanups, this`ran
      ensures errs == CleanupErrors(old(cleanups))
      ensures forall i: nat, a ::
        CleanupFailed(i, a) in errs <==> i < |old(cleanups)| && old(cleanups)[i].answer == a && a != Ok
      ensures forall p, q :: 0 <= p < q < |errs| ==> errs[q].index < errs[p].index
      ensures var batch := Reversed(old(cleanups));
        Now() == Grow(old(Now()).(cleanups := []), CleanupEffects(batch), Unwound(batch, state))
      ensures |ran| == |old(ran)| + |old(cleanups)|
      ensures forall k :: 0 <= k < |old(cleanups)| ==> ran[|ran| - 1 - k] == CleanupRan(old(cleanups)[k], state)
    {
      var batch := cleanups;
      cleanups := [];
      errs := [];
      ghost var was, done: seq<Cleanup> := Now(), [];
      GrowNothing(was);
      var i := |batch|;
      assert batch[..i] == batch;
      while i > 0
        invariant 0 <= i <= |batch|
        invariant done + Reversed(batch[..i]) == Reversed(batch)
        invariant errs + CleanupErrors(batch[..i]) == CleanupErrors(batch)
        invariant Now() == Grow(was, CleanupEffects(done), Unwound(done, state))
      {
        i := i - 1;
        var cleanup := batch[i];
        LastFirst(batch, i);
        ran := ran + [CleanupRan(cleanup, state)];
        Perform(cleanup.effects);
        CleanupEffectsSnoc(done, cleanup);
        GrowTwice(was, CleanupEffects(done), Unwound(done, state), cleanup.effects, Unwound([cleanup], state));
        UnwoundSnoc(done, cleanup, state);
        ConcatAssociative(done, [cleanup], Reversed(batch[..i]));
        done := done + [cleanup];
        if cleanup.answer != Ok {
          ConcatAssociative(errs, [CleanupFailed(i, cleanup.answer)], CleanupErrors(batch[..i]));
          errs := errs + [CleanupFailed(i, cleanup.answer)];
        }
      }
      assert done + [] == done;
      ReversedEverywhere(batch);
      CleanupErrorsMean(batch);
    }

    /** Both start phases and then Running, or an unwinding of everything registered and then Failed. */
    method Init(ctx: Context) returns (r: InitResult)
      modifies this
      ensures r.AlreadyInitialized? <==> old(state) == Initializing || old(state) == Running || old(state) == Destroying
      ensures r.AlreadyInitialized? ==> state == old(state) && Now() == old(Now())
      ensures !r.AlreadyInitialized? ==>
        var before := RunHooks(OrderHooks(old(beforeStart)), 0, ctx);
        // hooks that BeforeStart bodies add to AfterStart take part
        var hooks := old(afterStart) + AddedHooks(EffectsOf(before.ran), AfterStart);
        var after := RunHooks(OrderHooks(hooks), 0, before.ctx);
        if before.error.Some? then
          && r.InitFailed? && r.phase == BeforeStart && r.cause == before.error.value
          && Unwinds(old(Now()), before.ran, r.rollback, state, Now())
        else if after.error.Some? then
          && r.InitFailed? && r.phase == AfterStart && r.cause == after.error.value
          && Unwinds(old(Now()), before.ran + after.ran, r.rollback, state, Now())
        else
          var bodies := before.ran + after.ran;
          && r == Initialized && state == Running
          && Now() == Grow(old(Now()), EffectsOf(bodies), Observed(bodies, Initializing))
      ensures r.Initialized? <==>
        (old(state) == Created || old(state) == Destroyed || old(state) == Failed) && Starts(old(Now()), ctx)
      ensures r.Initialized? <==>
        && (old(state) == Created || old(state) == Destroyed || old(state) == Failed)
        && (forall h :: h in StartHooks(old(Now())) ==> h.run.None? || h.run.value.answer == Ok)
        && ctx.LiveFor(|StartHooks(old(Now()))|) == |StartHooks(old(Now()))|
    {
      StartsIff(Now(), ctx);
      if !MayInit(state) {
        return AlreadyInitialized;
      }
      state := Initializing;
      ghost var was := Now();
      var hooks := beforeStart;
      ghost var before := RunHooks(OrderHooks(hooks), 0, ctx);
      var err, c := RunPhase(hooks, ctx);
      if err.Some? {
        var errs := FailInit(was, before.ran);
        return InitFailed(BeforeStart, err.value, errs);
      }
      hooks := afterStart;
      ghost var after := RunHooks(OrderHooks(hooks), 0, c);
      err, c := RunPhase(hooks, c);
      EffectsConcat(before.ran, after.ran);
      ObservedConcat(before.ran, after.ran, Initializing);
      GrowTwice(was, EffectsOf(before.ran), Observed(before.ran, Initializing), EffectsOf(after.ran),
        Observed(after.ran, Initializing));
      if err.Some? {
        var errs := FailInit(was, before.ran + after.ran);
        return InitFailed(AfterStart, err.value, errs);
      }
      state := Running;
      return Initialized;
    }

    /** The rollback of a failed Init: cleanups only, under the state teardown code expects. */
    method FailInit(ghost was: Fields, ghost bodies: seq<Body>) returns (errs: seq<CleanupError>)
      requires Now() == Grow(was, EffectsOf(bodies), Observed(bodies, Initializing))
      modifies this
      ensures Unwinds(was, bodies, errs, state, Now())
    {
      state := Destroying;
      errs := RunCleanups();
      state := Failed;
    }

    /** Retryable until BeforeDestroy has passed; then the cleanups, then Destroyed, then AfterDestroy. */
    method Destroy(ctx: Context) returns (r: DestroyResult)
      modifies this
      ensures r.NotInitialized? <==> old(state) != Running
      ensures r.NotInitialized? ==> state == old(state) && Now() == old(Now())
      ensures !r.NotInitialized? ==>
        var before := RunHooks(OrderHooks(old(beforeDestroy)), 0, ctx);
        if before.error.Some? then
          && r == StillRunning(before.error.value) && state == Running
          && Now() == Grow(old(Now()), EffectsOf(before.ran), Observed(before.ran, Destroying))
        else
          && r.TornDown? && state == Destroyed
          && TearsDown(old(Now()), before, r.cleanupErrors, r.after, Now())
    {
      if state != Running {
        return NotInitialized;
      }
      state := Destroying;
      var err, c := RunPhase(beforeDestroy, ctx);
      if err.Some? {
        state := Running;
        return StillRunning(err.value);
      }
      var errs := RunCleanups();
      state := Destroyed;
      err, c := RunPhase(afterDestroy, c);
      return TornDown(errs, err);
    }
  }

  /** What the bodies of a phase have added, and the record of them. */
  lemma GrowMeans(was: Fields, bodies: seq<Body>, state: ModuleState)
    ensures var f := Grow(was, EffectsOf(bodies), Observed(bodies, state));
      && f.beforeStart == was.beforeStart + AddedHooks(EffectsOf(bodies), BeforeStart)
      && f.afterStart == was.afterStart + AddedHooks(EffectsOf(bodies), AfterStart)
      && f.beforeDestroy == was.beforeDestroy + AddedHooks(EffectsOf(bodies), BeforeDestroy)
      && f.afterDestroy == was.afterDestroy + AddedHooks(EffectsOf(bodies), AfterDestroy)
      && f.cleanups == was.cleanups + AddedCleanups(EffectsOf(bodies))
      && was.ran <= f.ran && |f.ran| == |was.ran| + |bodies|
      && forall i :: 0 <= i < |bodies| ==> f.ran[|was.ran| + i] == HookRan(bodies[i], state)
  {
  }

  /** Every pending cleanup run once under Destroying, last registered first; what they add is pending now. */
  function Emptied(pending: Fields): Fields {
    var batch := Reversed(pending.cleanups);
    Grow(pending.(cleanups := []), CleanupEffects(batch), Unwound(batch, Destroying))
  }

  /** By position: the cleanup registered k-th has run k-th from the end, and is not pending any more. */
  lemma EmptiedMeans(pending: Fields)
    ensures var f := Emptied(pending);
      && pending.ran <= f.ran && |f.ran| == |pending.ran| + |pending.cleanups|
      && (forall k :: 0 <= k < |pending.cleanups| ==>
            f.ran[|f.ran| - 1 - k] == CleanupRan(pending.cleanups[k], Destroying))
      && f.cleanups == AddedCleanups(CleanupEffects(Reversed(pending.cleanups)))
    ensures var f, effects := Emptied(pending), CleanupEffects(Reversed(pending.cleanups));
      && f.beforeStart == pending.beforeStart + AddedHooks(effects, BeforeStart)
      && f.afterStart == pending.afterStart + AddedHooks(effects, AfterStart)
      && f.beforeDestroy == pending.beforeDestroy + AddedHooks(effects, BeforeDestroy)
      && f.afterDestroy == pending.afterDestroy + AddedHooks(effects, AfterDestroy)
    ensures forall i: nat, a ::
      CleanupFailed(i, a) in CleanupErrors(pending.cleanups) <==>
        i < |pending.cleanups| && pending.cleanups[i].answer == a && a != Ok
    ensures forall p, q :: 0 <= p < q < |CleanupErrors(pending.cleanups)| ==>
      CleanupErrors(pending.cleanups)[q].index < CleanupErrors(pending.cleanups)[p].index
  {
    ReversedEverywhere(pending.cleanups);
    CleanupErrorsMean(pending.cleanups);
  }

  /**
   * A failed Init: the bodies ran while Initializing, then every cleanup pending by then once, in reverse, while
   * Destroying.
   */
  ghost predicate Unwinds(was: Fields, bodies: seq<Body>, errs: seq<CleanupError>, state: ModuleState, now: Fields) {
    var pending := Grow(was, EffectsOf(bodies), Observed(bodies, Initializing));
    state == Failed && errs == CleanupErrors(pending.cleanups) && now == Emptied(pending)
  }

  /**
   * By position: every cleanup that was registered before the Init or by one of its bodies has run, last first, and the
   * failures among them are exactly what is reported.
   */
  lemma UnwindsMeans(was: Fields, bodies: seq<Body>, errs: seq<CleanupError>, state: ModuleState, now: Fields)
    requires Unwinds(was, bodies, errs, state, now)
    ensures var pending := was.cleanups + AddedCleanups(EffectsOf(bodies));
      && state == Failed && was.ran <= now.ran && |now.ran| == |was.ran| + |bodies| + |pending|
      && (forall i :: 0 <= i < |bodies| ==> now.ran[|was.ran| + i] == HookRan(bodies[i], Initializing))
      && (forall k :: 0 <= k < |pending| ==> now.ran[|now.ran| - 1 - k] == CleanupRan(pending[k], Destroying))
      && (forall i: nat, a :: CleanupFailed(i, a) in errs <==> i < |pending| && pending[i].answer == a && a != Ok)
      && (forall p, q :: 0 <= p < q < |errs| ==> errs[q].index < errs[p].index)
    ensures now.cleanups ==
      AddedCleanups(CleanupEffects(Reversed(was.cleanups + AddedCleanups(EffectsOf(bodies)))))
  {
    GrowMeans(was, bodies, Initializing);
    EmptiedMeans(Grow(was, EffectsOf(bodies), Observed(bodies, Initializing)));
  }

  /** The end of a Destroy: the AfterDestroy hooks there are by then, once the module is published as Destroyed. */
  ghost predicate Concludes(left: Fields, ctx: Context, failure: Option<PhaseError>, now: Fields) {
    var after := RunHooks(OrderHooks(left.afterDestroy), 0, ctx);
    failure == after.error && now == Grow(left, EffectsOf(after.ran), Observed(after.ran, Destroyed))
  }

  /**
   * A Destroy past its BeforeDestroy phase: every cleanup pending by then once, in reverse, while Destroying, and then
   * the AfterDestroy hooks there are by then.
   */
  ghost predicate TearsDown(was: Fields, before: PhaseRun, errs: seq<CleanupError>, failure: Option<PhaseError>,
                            now: Fields)
  {
    var pending := Grow(was, EffectsOf(before.ran), Observed(before.ran, Destroying));
    errs == CleanupErrors(pending.cleanups) && Concludes(Emptied(pending), before.ctx, failure, now)
  }

  /**
   * By position: every cleanup that was registered before the Destroy or by one of its BeforeDestroy bodies has run
   * between the two phases, last first, and the failures among them are exactly what is reported.
   */
  lemma TearsDownMeans(was: Fields, before: PhaseRun, errs: seq<CleanupError>, failure: Option<PhaseError>, now: Fields)
    requires TearsDown(was, before, errs, failure, now)
    ensures var pending := was.cleanups + AddedCleanups(EffectsOf(before.ran));
      var upTo := |was.ran| + |before.ran| + |pending|;
      && was.ran <= now.ran && upTo <= |now.ran|
      && (forall i :: 0 <= i < |before.ran| ==> now.ran[|was.ran| + i] == HookRan(before.ran[i], Destroying))
      && (forall k :: 0 <= k < |pending| ==> now.ran[upTo - 1 - k] == CleanupRan(pending[k], Destroying))
      && (forall i :: upTo <= i < |now.ran| ==> now.ran[i].HookRan? && now.ran[i].observed == Destroyed)
      && (forall i: nat, a :: CleanupFailed(i, a) in errs <==> i < |pending| && pending[i].answer == a && a != Ok)
      && (forall p, q :: 0 <= p < q < |errs| ==> errs[q].index < errs[p].index)
  {
    GrowMeans(was, before.ran, Destroying);
    var pending := Grow(was, EffectsOf(before.ran), Observed(before.ran, Destroying));
    EmptiedMeans(pending);
    var left := Emptied(pending);
    GrowMeans(left, RunHooks(OrderHooks(left.afterDestroy), 0, before.ctx).ran, Destroyed);
  }

  /** Where a Destroy stands before its AfterDestroy phase: what its bodies and cleanups have added is there. */
  lemma BatchIsThrough(was: Fields, bodies: seq<Body>)
    ensures var left := Emptied(Grow(was, EffectsOf(bodies), Observed(bodies, Destroying)));
      var pending := was.cleanups + AddedCleanups(EffectsOf(bodies));
      var more := CleanupEffects(Reversed(pending));
      && left.afterDestroy == was.afterDestroy + AddedHooks(EffectsOf(bodies) + more, AfterDestroy)
      && left.cleanups == AddedCleanups(more) && |left.ran| == |was.ran| + |bodies| + |pending|
  {
    GrowMeans(was, bodies, Destroying);
    var pending := Grow(was, EffectsOf(bodies), Observed(bodies, Destroying));
    EmptiedMeans(pending);
    var more := CleanupEffects(Reversed(pending.cleanups));
    AddedHooksConcat(EffectsOf(bodies), more, AfterDestroy);
    ConcatAssociative(was.afterDestroy, AddedHooks(EffectsOf(bodies), AfterDestroy), AddedHooks(more, AfterDestroy));
  }

  lemma TearsDownGoesOn(was: Fields, before: PhaseRun, errs: seq<CleanupError>, failure: Option<PhaseError>,
                        now: Fields)
    requires TearsDown(was, before, errs, failure, now)
    ensures var pending := Grow(was, EffectsOf(before.ran), Observed(before.ran, Destroying));
      Concludes(Emptied(pending), before.ctx, failure, now)
  {
  }

  /** From there all AfterDestroy hooks there are run, and what they answer is reported; nothing pending is run. */
  lemma AfterDestroyMeans(left: Fields, ctx: Context, failure: Option<PhaseError>, now: Fields)
    requires Concludes(left, ctx, failure, now)
    ensures var after := RunHooks(OrderHooks(left.afterDestroy), 0, ctx);
      && failure == after.error && left.ran <= now.ran && |now.ran| == |left.ran| + |after.ran|
      && (forall i :: 0 <= i < |after.ran| ==> now.ran[|left.ran| + i] == HookRan(after.ran[i], Destroyed))
      && now.cleanups == left.cleanups + AddedCleanups(EffectsOf(after.ran))
      && now.afterDestroy == left.afterDestroy + AddedHooks(EffectsOf(after.ran), AfterDestroy)
  {
    GrowMeans(left, RunHooks(OrderHooks(left.afterDestroy), 0, ctx).ran, Destroyed);
  }

  /** A module whose Init has failed can be initialized again, and comes up if its hooks and the context let it. */
  method InitAgain(m: BaseAppModule, first: Context, second: Context)
    returns (r: InitResult, r': InitResult, ghost between: Fields)
    modifies m
    ensures r.InitFailed? ==>
      (r'.Initialized? <==>
         && (forall h :: h in StartHooks(between) ==> h.run.None? || h.run.value.answer == Ok)
         && second.LiveFor(|StartHooks(between)|) == |StartHooks(between)|)
  {
    r := m.Init(first);
    between := m.Now();
    r' := m.Init(second);
  }
}
