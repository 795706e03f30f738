/** What Start and Stop report and what calls they make, with the loop invariants of the methods that do it. */
module Outcomes {
  import opened Basics
  import opened Graphs
  import opened Planning
  import opened Teardown

  /** A module that failed to start or stop, with its error. */
  datatype Failure = Failure(name: Name, error: Error)

  datatype StopError = TeardownFailed(failure: Failure) | TeardownAborted

  datatype StartResult =
    | Started
    | AlreadyStarted
    | Unplannable(plan: PlanResult)
    | Rejected(cancelled: bool, causes: seq<Failure>, teardown: seq<StopError>)

  /** How each module's Init or Destroy would answer; None is success. */
  type Answers = Name -> Option<Error>

  datatype Kind = InitCall | DestroyCall

  /** A call into a module, logged when it returns. */
  datatype Call = Call(kind: Kind, name: Name, answer: Option<Error>)

  // ----- failures in a fixed order ------------------------------------------------------------

  function FailuresOf(names: seq<Name>, answers: Answers): seq<Failure> {
    if names == [] then []
    else if answers(names[0]).Some? then [Failure(names[0], answers(names[0]).value)] + FailuresOf(names[1..], answers)
    else FailuresOf(names[1..], answers)
  }

  function Compact(slots: seq<Option<Failure>>): seq<Failure> {
    if slots == [] then []
    else if slots[0].Some? then [slots[0].value] + Compact(slots[1..])
    else Compact(slots[1..])
  }

  function Wrapped(failures: seq<Failure>): seq<StopError> {
    if failures == [] then [] else [TeardownFailed(failures[0])] + Wrapped(failures[1..])
  }

  lemma {:induction false} WrappedConcat(a: seq<Failure>, b: seq<Failure>)
    ensures Wrapped(a + b) == Wrapped(a) + Wrapped(b)
  {
    if a == [] {
      assert a + b == b;
    } else {
      WrappedConcat(a[1..], b);
      assert (a + b)[1..] == a[1..] + b && (a + b)[0] == a[0];
      ConcatAssociative([TeardownFailed(a[0])], Wrapped(a[1..]), Wrapped(b));
    }
  }

  lemma {:induction false} FailuresConcat(a: seq<Name>, b: seq<Name>, answers: Answers)
    ensures FailuresOf(a + b, answers) == FailuresOf(a, answers) + FailuresOf(b, answers)
  {
    if a == [] {
      assert a + b == b;
    } else {
      FailuresConcat(a[1..], b, answers);
      assert (a + b)[1..] == a[1..] + b && (a + b)[0] == a[0];
      if answers(a[0]).Some? {
        ConcatAssociative([Failure(a[0], answers(a[0]).value)], FailuresOf(a[1..], answers), FailuresOf(b, answers));
      }
    }
  }

  /** Dropping the empty slots of a layer leaves its failures in layer order. */
  lemma {:induction false} CompactFailures(layer: seq<Name>, known: set<Name>, slots: seq<Option<Failure>>,
                                           answers: Answers)
    requires |slots| == |layer|
    requires forall i :: 0 <= i < |layer| ==>
      slots[i] == if layer[i] in known then Slot(layer[i], answers) else None
    ensures Compact(slots) == FailuresOf(Restrict(layer, known), answers)
  {
    if layer != [] {
      CompactFailures(layer[1..], known, slots[1..], answers);
      if layer[0] in known {
        assert Restrict(layer, known)[1..] == Restrict(layer[1..], known);
      }
    }
  }

  lemma {:induction false} FlattenSnoc(layers: seq<seq<Name>>, layer: seq<Name>)
    ensures Flatten(layers + [layer]) == Flatten(layers) + layer
  {
    if layers == [] {
      assert layers + [layer] == [layer];
      assert Flatten([layer]) == layer + Flatten([]);
    } else {
      FlattenSnoc(layers[1..], layer);
      assert (layers + [layer])[1..] == layers[1..] + [layer] && (layers + [layer])[0] == layers[0];
      ConcatAssociative(layers[0], Flatten(layers[1..]), layer);
    }
  }

  lemma {:induction false} FailuresIffAny(names: seq<Name>, answers: Answers)
    ensures FailuresOf(names, answers) == [] <==> forall n :: n in names ==> answers(n).None?
  {
    if names != [] {
      FailuresIffAny(names[1..], answers);
      assert names == [names[0]] + names[1..];
    }
  }

  // ----- what a stretch of the call log amounts to --------------------------------------------

  /** calls holds one call of the given kind for each name of the layer, in any order, and nothing else. */
  ghost predicate Covers(calls: seq<Call>, kind: Kind, layer: seq<Name>, answers: Answers) {
    CoversPart(calls, kind, Elements(layer), answers)
  }

  /** The same for a set of names. */
  ghost predicate CoversPart(calls: seq<Call>, kind: Kind, names: set<Name>, answers: Answers) {
    && (forall i, j :: 0 <= i < j < |calls| ==> calls[i].name != calls[j].name)
    && (forall c :: c in calls <==> c.kind == kind && c.name in names && c.answer == answers(c.name))
  }

  /** The modules whose calls succeeded, in the order of the calls. */
  function UpOf(calls: seq<Call>): seq<Name> {
    if calls == [] then []
    else UpOf(calls[..|calls| - 1]) + if calls[|calls| - 1].answer.None? then [calls[|calls| - 1].name] else []
  }

  lemma UpOfSnoc(calls: seq<Call>, c: Call)
    ensures UpOf(calls + [c]) == if c.answer.None? then UpOf(calls) + [c.name] else UpOf(calls)
  {
    assert (calls + [c])[..|calls|] == calls;
  }

  lemma {:induction false} UpOfConcat(a: seq<Call>, b: seq<Call>)
    ensures UpOf(a + b) == UpOf(a) + UpOf(b)
  {
    if b == [] {
      assert a + b == a;
    } else {
      var init, last := b[..|b| - 1], b[|b| - 1];
      UpOfConcat(a, init);
      ConcatAssociative(a, init, [last]);
      assert b == init + [last];
      UpOfSnoc(a + init, last);
      ConcatAssociative(UpOf(a), UpOf(init), [last.name]);
    }
  }

  /** calls goes through the layers one after the other, in any order inside a layer. */
  ghost predicate CoversLayers(calls: seq<Call>, kind: Kind, layers: seq<seq<Name>>, answers: Answers)
    decreases |layers|
  {
    if layers == [] then calls == []
    else
      exists k :: 0 <= k <= |calls|
        && CoversLayers(calls[..k], kind, layers[..|layers| - 1], answers)
        && Covers(calls[k..], kind, layers[|layers| - 1], answers)
  }

  lemma CoversSnoc(calls: seq<Call>, more: seq<Call>, kind: Kind, layers: seq<seq<Name>>, layer: seq<Name>,
                   answers: Answers)
    requires CoversLayers(calls, kind, layers, answers) && Covers(more, kind, layer, answers)
    ensures CoversLayers(calls + more, kind, layers + [layer], answers)
  {
    assert (layers + [layer])[..|layers|] == layers;
    assert (calls + more)[..|calls|] == calls && (calls + more)[|calls|..] == more;
  }

  lemma CoversNext(calls: seq<Call>, more: seq<Call>, kind: Kind, layers: seq<seq<Name>>, i: nat, answers: Answers)
    requires i < |layers| && CoversLayers(calls, kind, layers[..i], answers) && Covers(more, kind, layers[i], answers)
    ensures CoversLayers(calls + more, kind, layers[..i + 1], answers)
  {
    CoversSnoc(calls, more, kind, layers[..i], layers[i], answers);
    assert layers[..i + 1] == layers[..i] + [layers[i]];
  }

  lemma CoversJoin(a: seq<Call>, b: seq<Call>, kind: Kind, la: seq<Name>, lb: seq<Name>, answers: Answers)
    requires Covers(a, kind, la, answers) && Covers(b, kind, lb, answers)
    requires forall n :: n in la ==> n !in lb
    ensures Covers(a + b, kind, la + lb, answers)
  {
  }

  /** Layer by layer without repetition means each name is called exactly once. */
  lemma {:induction false} CoversOnce(calls: seq<Call>, kind: Kind, layers: seq<seq<Name>>, answers: Answers)
    requires CoversLayers(calls, kind, layers, answers) && Disjoint(layers)
    ensures Covers(calls, kind, Flatten(layers), answers)
    decreases |layers|
  {
    if layers != [] {
      var last := |layers| - 1;
      var init := layers[..last];
      var k :| 0 <= k <= |calls| && CoversLayers(calls[..k], kind, init, answers)
        && Covers(calls[k..], kind, layers[last], answers);
      CoversOnce(calls[..k], kind, init, answers);
      FlattenNames(init);
      forall n | n in Flatten(init) ensures n !in layers[last] {
        ApartFromLast(layers, n);
      }
      CoversJoin(calls[..k], calls[k..], kind, Flatten(init), layers[last], answers);
      assert calls == calls[..k] + calls[k..];
      FlattenSnoc(init, layers[last]);
      assert layers == init + [layers[last]];
    }
  }

  lemma ApartFromLast(layers: seq<seq<Name>>, n: Name)
    requires Disjoint(layers) && layers != [] && n in Names(layers[..|layers| - 1])
    ensures n !in layers[|layers| - 1]
  {
    var init := layers[..|layers| - 1];
    NamesMean(init, n);
    var i :| 0 <= i < |init| && n in init[i];
    assert n in layers[i];
  }

  lemma {:induction false} FlattenNames(layers: seq<seq<Name>>)
    ensures Elements(Flatten(layers)) == Names(layers)
    ensures forall n :: n in Flatten(layers) <==> n in Names(layers)
  {
    if layers != [] {
      FlattenNames(layers[1..]);
    }
  }

  // ----- what Stop and Start amount to --------------------------------------------------------

  /** Stop's effect: the first k teardown layers are destroyed and forgotten, k being how far the context lasts. */
  ghost predicate StopOutcome(g: Graph, before: seq<Name>, ctx: Context, destroy: Answers,
                              errs: seq<StopError>, after: seq<Name>, made: seq<Call>)
  {
    LoweredOutcome(StopLayersOf(g, before), before, ctx, destroy, errs, after, made)
  }

  ghost predicate LoweredOutcome(layers: seq<seq<Name>>, before: seq<Name>, ctx: Context, destroy: Answers,
                                 errs: seq<StopError>, after: seq<Name>, made: seq<Call>)
  {
    var k := ctx.LiveFor(|layers|);
    && after == Without(before, Names(layers[..k]))
    && errs == Wrapped(FailuresOf(Flatten(layers[..k]), destroy)) + (if k < |layers| then [TeardownAborted] else [])
    && CoversLayers(made, DestroyCall, layers[..k], destroy)
  }

  /** How many layers Start completes before it meets a cancelled context or a module that fails. */
  function Reached(layers: seq<seq<Name>>, ctx: Context, init: Answers): nat {
    if layers == [] || ctx.Cancelled() || FailuresOf(layers[0], init) != [] then 0
    else 1 + Reached(layers[1..], ctx.Checked(), init)
  }

  /** The layers a start attempt went into before giving up. */
  function Tried(layers: seq<seq<Name>>, ctx: Context, init: Answers, cancelled: bool): seq<seq<Name>>
    requires Reached(layers, ctx, init) < |layers|
  {
    var k := Reached(layers, ctx, init);
    if cancelled then layers[..k] else layers[..k + 1]
  }

  /**
   * A start attempt that gives up does so at the first layer not completed, over the context or over modules of that
   * layer.
   */
  ghost predicate Blocked(layers: seq<seq<Name>>, ctx: Context, init: Answers,
                          cancelled: bool, causes: seq<Failure>, inits: seq<Call>)
  {
    var k := Reached(layers, ctx, init);
    && k < |layers|
    && cancelled == (ctx == Expires(k))
    && (if cancelled then causes == [] else
          causes != [] && NoDup(causes)
          && forall f :: f in causes <==> f.name in layers[k] && init(f.name) == Some(f.error))
    && CoversLayers(inits, InitCall, Tried(layers, ctx, init, cancelled), init)
  }

  /** Blocked, with exactly the modules that came up listed as started. */
  ghost predicate BlockedWith(layers: seq<seq<Name>>, ctx: Context, init: Answers,
                              cancelled: bool, causes: seq<Failure>, now: seq<Name>, inits: seq<Call>)
  {
    Blocked(layers, ctx, init, cancelled, causes, inits) && now == UpOf(inits)
    && Elements(now) == UpAmong(Tried(layers, ctx, init, cancelled), init)
  }

  /**
   * A rejected Start on the given layers: up lists the modules that came up, in the order they did, and all of them
   * went down again in the teardown order of g, the graph by then.
   */
  ghost predicate RollbackOutcome(g: Graph, layers: seq<seq<Name>>, ctx: Context, init: Answers, destroy: Answers,
                                  r: StartResult, inits: seq<Call>, up: seq<Name>, destroys: seq<Call>)
    requires r.Rejected?
  {
    && BlockedWith(layers, ctx, init, r.cancelled, r.causes, up, inits) && Sound(g, up)
    && RolledBack(g, up, destroy, r.teardown, destroys)
  }

  function UpAmong(layers: seq<seq<Name>>, init: Answers): set<Name> {
    set n | n in Names(layers) && init(n).None?
  }

  /** The modules of up were destroyed as stopLayers groups them, and teardown lists those that failed to stop. */
  ghost predicate RolledBack(g: Graph, up: seq<Name>, destroy: Answers, teardown: seq<StopError>, destroys: seq<Call>) {
    var down := StopLayersOf(g, up);
    teardown == Wrapped(FailuresOf(Flatten(down), destroy)) && CoversLayers(destroys, DestroyCall, down, destroy)
  }

  /** A Stop that cannot be cancelled leaves nothing started. */
  lemma WholeStop(g: Graph, before: seq<Name>, destroy: Answers, errs: seq<StopError>, after: seq<Name>,
                  made: seq<Call>)
    requires Sound(g, before) && StopOutcome(g, before, Live, destroy, errs, after, made)
    ensures after == [] && RolledBack(g, before, destroy, errs, made)
  {
    StopLayersSafe(g, before);
    var down := StopLayersOf(g, before);
    assert down[..|down|] == down;
    WithoutElements(before, Names(down));
    Inhabited(after);
  }

  // ----- the loops of startLayer, stopLayer, stopLayers, Stop and Start ----------------------

  /** startLayer once the goroutines of the modules in finished are through. */
  ghost predicate Coming(finished: set<Name>, errs: seq<Failure>, made: seq<Call>, answers: Answers) {
    && NoDup(errs) && (forall f :: f in errs <==> f.name in finished && answers(f.name) == Some(f.error))
    && CoversPart(made, InitCall, finished, answers)
  }

  lemma ComingOn(finished: set<Name>, errs: seq<Failure>, made: seq<Call>, answers: Answers, name: Name)
    requires Coming(finished, errs, made, answers) && name !in finished
    ensures var errs' := if answers(name).Some? then errs + [Failure(name, answers(name).value)] else errs;
      Coming(finished + {name}, errs', made + [Call(InitCall, name, answers(name))], answers)
  {
  }

  lemma ListedOn(base: seq<Name>, earlier: seq<Call>, made: seq<Call>, c: Call)
    ensures earlier + (made + [c]) == earlier + made + [c]
    ensures base + UpOf(made + [c]) == if c.answer.None? then base + UpOf(made) + [c.name] else base + UpOf(made)
  {
    UpOfSnoc(made, c);
    ConcatAssociative(base, UpOf(made), [c.name]);
  }

  lemma {:induction false} UpOfHas(made: seq<Call>, n: Name)
    ensures n in UpOf(made) <==> exists i :: 0 <= i < |made| && made[i].name == n && made[i].answer.None?
  {
    if made != [] {
      var k := |made| - 1;
      UpOfHas(made[..k], n);
      if i :| 0 <= i < |made| && made[i].name == n && made[i].answer.None? {
        assert i < k ==> made[..k][i] == made[i];
      }
      if i :| 0 <= i < k && made[..k][i].name == n && made[..k][i].answer.None? {
        assert made[i] == made[..k][i];
      }
    }
  }

  /** The modules that came up are listed once each. */
  lemma {:induction false} UpOfOnce(made: seq<Call>)
    requires forall i, j :: 0 <= i < j < |made| ==> made[i].name != made[j].name
    ensures NoDup(UpOf(made))
  {
    if made != [] {
      var k := |made| - 1;
      UpOfOnce(made[..k]);
      UpOfHas(made[..k], made[k].name);
    }
  }

  lemma ComingThrough(finished: set<Name>, errs: seq<Failure>, made: seq<Call>, answers: Answers)
    requires Coming(finished, errs, made, answers)
    ensures NoDup(UpOf(made)) && forall n :: n in UpOf(made) <==> n in finished && answers(n).None?
  {
    UpOfOnce(made);
    forall n ensures n in UpOf(made) <==> n in finished && answers(n).None? {
      UpOfHas(made, n);
      if n in finished {
        assert Call(InitCall, n, answers(n)) in made;
      }
      if i :| 0 <= i < |made| && made[i].name == n && made[i].answer.None? {
        assert made[i] in made;
      }
    }
  }

  function Slot(name: Name, answers: Answers): Option<Failure> {
    if answers(name).Some? then Some(Failure(name, answers(name).value)) else None
  }

  /** stopLayer while the goroutines of the positions in running are still at work and those of gone have finished. */
  ghost predicate Halfway(layer: seq<Name>, known: set<Name>, running: set<int>, gone: set<Name>,
                          slots: seq<Option<Failure>>, made: seq<Call>, answers: Answers)
  {
    && |slots| == |layer| && gone <= Elements(layer) * known
    && (forall i :: i in running ==> 0 <= i < |layer| && layer[i] in known && slots[i].None?)
    && (forall i :: 0 <= i < |layer| && layer[i] !in known ==> slots[i].None?)
    && (forall i :: 0 <= i < |layer| && layer[i] in known ==> (layer[i] in gone <==> i !in running))
    && (forall i :: 0 <= i < |layer| && layer[i] in gone ==> slots[i] == Slot(layer[i], answers))
    && CoversPart(made, DestroyCall, gone, answers)
  }

  lemma HalfwayOn(layer: seq<Name>, known: set<Name>, running: set<int>, gone: set<Name>,
                  slots: seq<Option<Failure>>, made: seq<Call>, answers: Answers, i: int)
    requires Halfway(layer, known, running, gone, slots, made, answers) && NoDup(layer) && i in running
    ensures Halfway(layer, known, running - {i}, gone + {layer[i]}, slots[i := Slot(layer[i], answers)],
                    made + [Call(DestroyCall, layer[i], answers(layer[i]))], answers)
  {
  }

  lemma HalfwayThere(layer: seq<Name>, known: set<Name>, gone: set<Name>, slots: seq<Option<Failure>>,
                     made: seq<Call>, answers: Answers)
    requires Halfway(layer, known, {}, gone, slots, made, answers)
    ensures gone == Elements(layer) * known
    ensures Compact(slots) == FailuresOf(Restrict(layer, known), answers)
    ensures Covers(made, DestroyCall, Restrict(layer, known), answers)
  {
    CompactFailures(layer, known, slots, answers);
    RestrictElements(layer, known);
  }

  lemma NotLater(layers: seq<seq<Name>>, i: nat, n: Name)
    requires Disjoint(layers) && i < |layers| && n in layers[i]
    ensures n !in Names(layers[i + 1..])
  {
    var later := layers[i + 1..];
    NamesMean(later, n);
    forall j | 0 <= j < |later| ensures n !in later[j] {
      assert later[j] == layers[i + 1 + j];
    }
  }

  lemma ReversedSnoc(out: seq<seq<Name>>, layers: seq<seq<Name>>, keep: set<Name>, i: nat)
    requires i < |layers|
    ensures var layer := Restrict(layers[i], keep);
      out + Reversed(layers[..i + 1], keep) ==
        (if layer == [] then out else out + [layer]) + Reversed(layers[..i], keep)
  {
    ReversedStep(layers, keep, i + 1);
    var layer := Restrict(layers[i], keep);
    if layer == [] {
      assert [] + Reversed(layers[..i], keep) == Reversed(layers[..i], keep);
    } else {
      ConcatAssociative(out, [layer], Reversed(layers[..i], keep));
    }
  }

  lemma SerialSnoc(names: seq<Name>, n: Name)
    ensures Serial(names + [n]) == [[n]] + Serial(names)
  {
  }

  lemma {:induction false} RestrictIsWithout(s: seq<Name>, keep: set<Name>, gone: set<Name>)
    requires keep == Elements(s) - gone
    ensures Restrict(s, keep) == Without(s, gone)
  {
    RestrictComplement(s, keep, gone);
  }

  lemma {:induction false} RestrictComplement(s: seq<Name>, keep: set<Name>, gone: set<Name>)
    requires forall x :: x in s ==> (x in keep <==> x !in gone)
    ensures Restrict(s, keep) == Without(s, gone)
  {
    if s != [] {
      RestrictComplement(s[1..], keep, gone);
    }
  }

  lemma NothingTorn(g: Graph, ctx: Context, destroy: Answers)
    ensures StopOutcome(g, [], ctx, destroy, [], [], [])
  {
    StopLayersSafe(g, []);
    FallsInhabited(g, StopLayersOf(g, []));
  }

  /** Stop after i layers, each preceded by one check of the context. */
  ghost predicate Torn(g: Graph, was: seq<Name>, layers: seq<seq<Name>>, i: nat, ctx: Context, c: Context,
                       destroy: Answers, errs: seq<StopError>, now: seq<Name>, made: seq<Call>)
    requires i <= |layers|
  {
    && ctx.LiveFor(i) == i && c == ctx.After(i)
    && Falls(g, layers[i..]) && Names(layers[i..]) == Elements(now) && Sound(g, now)
    && now == Without(was, Names(layers[..i]))
    && errs == Wrapped(FailuresOf(Flatten(layers[..i]), destroy))
    && CoversLayers(made, DestroyCall, layers[..i], destroy)
  }

  lemma TornStart(g: Graph, was: seq<Name>, layers: seq<seq<Name>>, ctx: Context, destroy: Answers)
    requires Sound(g, was) && Falls(g, layers) && Names(layers) == Elements(was)
    ensures Torn(g, was, layers, 0, ctx, ctx, destroy, [], was, [])
  {
    WithoutNone(was, {});
    assert layers[0..] == layers;
  }

  lemma TornValid(g: Graph, was: seq<Name>, layers: seq<seq<Name>>, i: nat, ctx: Context, c: Context,
                  destroy: Answers, errs: seq<StopError>, now: seq<Name>, made: seq<Call>)
    requires i < |layers| && Torn(g, was, layers, i, ctx, c, destroy, errs, now, made)
    ensures NoDup(layers[i])
  {
  }

  lemma TornAborted(g: Graph, was: seq<Name>, layers: seq<seq<Name>>, i: nat, ctx: Context, c: Context,
                    destroy: Answers, errs: seq<StopError>, now: seq<Name>, made: seq<Call>)
    requires i < |layers| && Torn(g, was, layers, i, ctx, c, destroy, errs, now, made)
    requires c.Cancelled()
    ensures LoweredOutcome(layers, was, ctx, destroy, errs + [TeardownAborted], now, made) && Sound(g, now)
  {
  }

  lemma TornWhole(g: Graph, was: seq<Name>, layers: seq<seq<Name>>, ctx: Context, c: Context,
                  destroy: Answers, errs: seq<StopError>, now: seq<Name>, made: seq<Call>)
    requires Torn(g, was, layers, |layers|, ctx, c, destroy, errs, now, made)
    ensures LoweredOutcome(layers, was, ctx, destroy, errs, now, made) && Sound(g, now)
  {
  }

  lemma TornOn(g: Graph, was: seq<Name>, layers: seq<seq<Name>>, i: nat, ctx: Context, c: Context,
               destroy: Answers, errs: seq<StopError>, before: seq<Name>, made: seq<Call>,
               failed: seq<Failure>, after: seq<Name>, more: seq<Call>)
    requires i < |layers| && Torn(g, was, layers, i, ctx, c, destroy, errs, before, made) && !c.Cancelled()
    requires failed == FailuresOf(Restrict(layers[i], g.Keys), destroy)
    requires after == Without(before, Elements(layers[i]) * g.Keys)
    requires Covers(more, DestroyCall, Restrict(layers[i], g.Keys), destroy)
    ensures Torn(g, was, layers, i + 1, ctx, c.Checked(), destroy, errs + Wrapped(failed), after, made + more)
  {
    TornKnown(g, layers, i);
    TornForget(g, was, layers, i, before);
    TornErrors(layers, i, destroy);
    CoversNext(made, more, DestroyCall, layers, i, destroy);
  }

  lemma TornErrors(layers: seq<seq<Name>>, i: nat, destroy: Answers)
    requires i < |layers|
    ensures Wrapped(FailuresOf(Flatten(layers[..i + 1]), destroy)) ==
      Wrapped(FailuresOf(Flatten(layers[..i]), destroy)) + Wrapped(FailuresOf(layers[i], destroy))
  {
    assert layers[..i + 1] == layers[..i] + [layers[i]];
    FlattenSnoc(layers[..i], layers[i]);
    FailuresConcat(Flatten(layers[..i]), layers[i], destroy);
    WrappedConcat(FailuresOf(Flatten(layers[..i]), destroy), FailuresOf(layers[i], destroy));
  }

  lemma TornKnown(g: Graph, layers: seq<seq<Name>>, i: nat)
    requires i < |layers| && Falls(g, layers[i..])
    ensures Restrict(layers[i], g.Keys) == layers[i] && Elements(layers[i]) * g.Keys == Elements(layers[i])
  {
    assert layers[i..][0] == layers[i];
    RestrictAll(layers[i], g.Keys);
  }

  lemma TornForget(g: Graph, was: seq<Name>, layers: seq<seq<Name>>, i: nat, before: seq<Name>)
    requires i < |layers| && Falls(g, layers[i..]) && Names(layers[i..]) == Elements(before) && Sound(g, before)
    requires before == Without(was, Names(layers[..i]))
    ensures var after := Without(before, Elements(layers[i]));
      && Falls(g, layers[i + 1..]) && Names(layers[i + 1..]) == Elements(after) && Sound(g, after)
      && after == Without(was, Names(layers[..i + 1]))
  {
    var rest := layers[i..];
    assert rest[0] == layers[i] && rest[1..] == layers[i + 1..];
    ForgetFirstLayer(g, before, rest);
    WithoutElements(before, Elements(layers[i]));
    var prefix := layers[..i + 1];
    assert prefix[..i] == layers[..i];
    NamesSnoc(prefix);
    WithoutTwice(was, Names(layers[..i]), Elements(layers[i]));
  }

  /** i layers have been completed, each preceded by one check of the context. */
  ghost predicate Completed(layers: seq<seq<Name>>, i: nat, ctx: Context, c: Context, init: Answers)
    requires i <= |layers|
  {
    && ctx.LiveFor(i) == i && c == ctx.After(i)
    && i + Reached(layers[i..], c, init) == Reached(layers, ctx, init)
  }

  /** The modules of the first i layers are up, as the calls tell, and the other layers can follow. */
  ghost predicate Raised(g: Graph, layers: seq<seq<Name>>, i: nat, init: Answers, now: seq<Name>, inits: seq<Call>)
    requires i <= |layers|
  {
    && Elements(now) == Names(layers[..i]) && Sound(g, now) && Rises(g, Elements(now), layers[i..])
    && CoversLayers(inits, InitCall, layers[..i], init)
    && (forall n :: n in now ==> init(n).None?) && now == UpOf(inits)
  }

  /** Start after i layers. */
  ghost predicate Risen(g: Graph, layers: seq<seq<Name>>, i: nat, ctx: Context, c: Context, init: Answers,
                        now: seq<Name>, inits: seq<Call>)
    requires i <= |layers|
  {
    Completed(layers, i, ctx, c, init) && Raised(g, layers, i, init, now, inits)
  }

  /** The modules of a layer that came up, and the failures of those that did not. */
  ghost predicate Answered(layer: seq<Name>, init: Answers, causes: seq<Failure>, up: seq<Name>, more: seq<Call>) {
    && (forall n :: n in up <==> n in layer && init(n).None?)
    && NoDup(causes) && (forall f :: f in causes <==> f.name in layer && init(f.name) == Some(f.error))
    && Covers(more, InitCall, layer, init) && up == UpOf(more)
  }

  lemma AnsweredMeans(layer: seq<Name>, init: Answers, causes: seq<Failure>, up: seq<Name>, more: seq<Call>)
    requires Answered(layer, init, causes, up, more)
    ensures causes == [] <==> FailuresOf(layer, init) == []
    ensures causes == [] ==> Elements(up) == Elements(layer)
  {
    FailuresIffAny(layer, init);
    if causes == [] {
      forall n | n in layer ensures init(n).None? {
        var f := Failure(n, if init(n).Some? then init(n).value else 0);
        assert f !in causes;
      }
    } else {
      assert causes[0] in causes;
    }
  }

  lemma RisenStart(g: Graph, layers: seq<seq<Name>>, ctx: Context, init: Answers)
    requires Rises(g, {}, layers)
    ensures Risen(g, layers, 0, ctx, ctx, init, [], [])
  {
  }

  lemma RisenReady(g: Graph, layers: seq<seq<Name>>, i: nat, ctx: Context, c: Context, init: Answers,
                   now: seq<Name>, inits: seq<Call>)
    requires i < |layers| && Risen(g, layers, i, ctx, c, init, now, inits)
    ensures Sound(g, now) && NoDup(layers[i])
    ensures forall n :: n in layers[i] ==> n in g && n !in now && forall d :: d in g[n] ==> d in now
  {
  }

  lemma RisenOn(g: Graph, layers: seq<seq<Name>>, i: nat, ctx: Context, c: Context, init: Answers,
                before: seq<Name>, inits: seq<Call>, causes: seq<Failure>, up: seq<Name>, more: seq<Call>)
    requires i < |layers| && Risen(g, layers, i, ctx, c, init, before, inits) && !c.Cancelled()
    requires Answered(layers[i], init, causes, up, more) && causes == [] && Sound(g, before + up)
    ensures Risen(g, layers, i + 1, ctx, c.Checked(), init, before + up, inits + more)
  {
    AnsweredMeans(layers[i], init, causes, up, more);
    CompletedOn(layers, i, ctx, c, init);
    RaisedOn(g, layers, i, init, before, inits, up, more);
  }

  lemma CompletedOn(layers: seq<seq<Name>>, i: nat, ctx: Context, c: Context, init: Answers)
    requires i < |layers| && Completed(layers, i, ctx, c, init) && !c.Cancelled() && FailuresOf(layers[i], init) == []
    ensures Completed(layers, i + 1, ctx, c.Checked(), init)
  {
    assert layers[i..][0] == layers[i] && layers[i..][1..] == layers[i + 1..];
  }

  lemma RaisedOn(g: Graph, layers: seq<seq<Name>>, i: nat, init: Answers,
                 before: seq<Name>, inits: seq<Call>, up: seq<Name>, more: seq<Call>)
    requires i < |layers| && Raised(g, layers, i, init, before, inits)
    requires Covers(more, InitCall, layers[i], init) && up == UpOf(more) && Sound(g, before + up)
    requires Elements(up) == Elements(layers[i]) && forall n :: n in up ==> init(n).None?
    ensures Raised(g, layers, i + 1, init, before + up, inits + more)
  {
    NextLayer(layers, i, init, inits, more);
    assert layers[i..][0] == layers[i] && layers[i..][1..] == layers[i + 1..];
    assert Elements(before + up) == Elements(before) + Elements(layers[i]);
  }

  lemma NextLayer(layers: seq<seq<Name>>, i: nat, init: Answers, inits: seq<Call>, more: seq<Call>)
    requires i < |layers| && CoversLayers(inits, InitCall, layers[..i], init) && Covers(more, InitCall, layers[i], init)
    ensures CoversLayers(inits + more, InitCall, layers[..i + 1], init)
    ensures Names(layers[..i + 1]) == Names(layers[..i]) + Elements(layers[i])
    ensures UpOf(inits + more) == UpOf(inits) + UpOf(more)
  {
    CoversNext(inits, more, InitCall, layers, i, init);
    assert layers[..i + 1][..i] == layers[..i];
    NamesSnoc(layers[..i + 1]);
    UpOfConcat(inits, more);
  }

  lemma RisenWhole(g: Graph, layers: seq<seq<Name>>, ctx: Context, c: Context, init: Answers, now: seq<Name>,
                   inits: seq<Call>)
    requires Risen(g, layers, |layers|, ctx, c, init, now, inits)
    ensures Sound(g, now) && Elements(now) == Names(layers) && now == UpOf(inits)
    ensures Reached(layers, ctx, init) == |layers| && CoversLayers(inits, InitCall, layers, init)
  {
    assert layers[..|layers|] == layers;
  }

  lemma CancelledAt(g: Graph, layers: seq<seq<Name>>, i: nat, ctx: Context, c: Context, init: Answers,
                    now: seq<Name>, inits: seq<Call>)
    requires i < |layers| && Risen(g, layers, i, ctx, c, init, now, inits) && c.Cancelled()
    ensures BlockedWith(layers, ctx, init, true, [], now, inits)
  {
  }

  lemma FailedAt(g: Graph, layers: seq<seq<Name>>, i: nat, ctx: Context, c: Context, init: Answers,
                 before: seq<Name>, inits: seq<Call>, causes: seq<Failure>, up: seq<Name>, more: seq<Call>)
    requires i < |layers| && Risen(g, layers, i, ctx, c, init, before, inits) && !c.Cancelled()
    requires Answered(layers[i], init, causes, up, more) && causes != []
    ensures BlockedWith(layers, ctx, init, false, causes, before + up, inits + more)
  {
    AnsweredMeans(layers[i], init, causes, up, more);
    StuckAt(layers, i, ctx, c, init);
    NextLayer(layers, i, init, inits, more);
    UpAmongNext(g, layers, i, init, before, inits, up);
  }

  lemma StuckAt(layers: seq<seq<Name>>, i: nat, ctx: Context, c: Context, init: Answers)
    requires i < |layers| && Completed(layers, i, ctx, c, init) && !c.Cancelled() && FailuresOf(layers[i], init) != []
    ensures Reached(layers, ctx, init) == i && ctx != Expires(i)
  {
    assert layers[i..][0] == layers[i];
  }

  lemma UpAmongNext(g: Graph, layers: seq<seq<Name>>, i: nat, init: Answers, before: seq<Name>, inits: seq<Call>,
                    up: seq<Name>)
    requires i < |layers| && Raised(g, layers, i, init, before, inits)
    requires forall n :: n in up <==> n in layers[i] && init(n).None?
    ensures Elements(before + up) == UpAmong(layers[..i + 1], init)
  {
    assert layers[..i + 1][..i] == layers[..i];
    NamesSnoc(layers[..i + 1]);
  }
}
