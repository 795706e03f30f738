/** Lifecycle hooks: their order within a phase, and what running a phase amounts to. */
module Hooks {
  import opened Basics

  datatype Phase = BeforeStart | AfterStart | BeforeDestroy | AfterDestroy

  /** How a hook or cleanup body ends; a panic is recovered and reported like an error. */
  datatype Answer = Ok | Err(error: Error) | Panic(value: int)

  /** What a body may do to its module while it runs. */
  datatype Effect = HookAdded(phase: Phase, hook: Hook) | CleanupAdded(cleanup: Cleanup)

  datatype Body = Body(effects: seq<Effect>, answer: Answer)

  datatype Cleanup = Cleanup(effects: seq<Effect>, answer: Answer)

  /** An empty name is an anonymous hook; a missing body is skipped. */
  datatype Hook = Hook(name: string, priority: int, run: Option<Body>)

  // ----- order --------------------------------------------------------------------------------

  function Place(h: Hook, hooks: seq<Hook>): seq<Hook> {
    if hooks == [] then [h]
    else if hooks[0].priority < h.priority then [hooks[0]] + Place(h, hooks[1..])
    else [h] + hooks
  }

  /** What orderHooks returns: a copy sorted by ascending priority, ties in registration order. */
  function OrderHooks(hooks: seq<Hook>): seq<Hook> {
    if hooks == [] then [] else Place(hooks[0], OrderHooks(hooks[1..]))
  }

  ghost predicate ByPriority(hooks: seq<Hook>) {
    forall i, j :: 0 <= i < j < |hooks| ==> hooks[i].priority <= hooks[j].priority
  }

  function OfPriority(hooks: seq<Hook>, p: int): seq<Hook> {
    if hooks == [] then []
    else if hooks[0].priority == p then [hooks[0]] + OfPriority(hooks[1..], p)
    else OfPriority(hooks[1..], p)
  }

  /** r is sorted, and within each priority it lists the hooks in their original order. */
  ghost predicate StableSort(hooks: seq<Hook>, r: seq<Hook>) {
    ByPriority(r) && forall p :: OfPriority(r, p) == OfPriority(hooks, p)
  }

  lemma {:induction false} PlaceMembers(h: Hook, hooks: seq<Hook>)
    ensures multiset(Place(h, hooks)) == multiset{h} + multiset(hooks)
  {
    if hooks != [] {
      assert hooks == [hooks[0]] + hooks[1..];
      PlaceMembers(h, hooks[1..]);
    }
  }

  lemma {:induction false} PlaceSorted(h: Hook, hooks: seq<Hook>)
    requires ByPriority(hooks)
    ensures ByPriority(Place(h, hooks))
  {
    if hooks != [] && hooks[0].priority < h.priority {
      var rest := Place(h, hooks[1..]);
      PlaceSorted(h, hooks[1..]);
      PlaceMembers(h, hooks[1..]);
      forall j | 0 <= j < |rest| ensures hooks[0].priority <= rest[j].priority {
        assert rest[j] in multiset(rest);
        assert rest[j] == h || rest[j] in hooks[1..];
      }
    }
  }

  lemma {:induction false} PlaceStable(h: Hook, hooks: seq<Hook>, p: int)
    requires ByPriority(hooks)
    ensures OfPriority(Place(h, hooks), p) == if h.priority == p then [h] + OfPriority(hooks, p)
      else OfPriority(hooks, p)
  {
    if hooks != [] && hooks[0].priority < h.priority {
      PlaceStable(h, hooks[1..], p);
      if h.priority == p {
        NoneBelow(hooks[0], p);
      }
    } else {
      assert ([h] + hooks)[1..] == hooks;
    }
  }

  lemma NoneBelow(h: Hook, p: int)
    requires h.priority < p
    ensures OfPriority([h], p) == []
  {
  }

  /** orderHooks is a stable sort by priority. */
  lemma {:induction false} OrderIsStable(hooks: seq<Hook>)
    ensures StableSort(hooks, OrderHooks(hooks))
  {
    if hooks != [] {
      OrderIsStable(hooks[1..]);
      PlaceSorted(hooks[0], OrderHooks(hooks[1..]));
      forall p ensures OfPriority(OrderHooks(hooks), p) == OfPriority(hooks, p) {
        PlaceStable(hooks[0], OrderHooks(hooks[1..]), p);
      }
    }
  }

  /** Where Place puts a hook: behind everything of smaller priority and before everything else. */
  lemma {:induction false} PlaceAt(h: Hook, hooks: seq<Hook>) returns (j: nat)
    requires ByPriority(hooks)
    ensures j <= |hooks| && Place(h, hooks) == hooks[..j] + [h] + hooks[j..]
    ensures forall i :: 0 <= i < j ==> hooks[i].priority < h.priority
    ensures forall i :: j <= i < |hooks| ==> h.priority <= hooks[i].priority
  {
    j := 0;
    if hooks != [] && hooks[0].priority < h.priority {
      var k := PlaceAt(h, hooks[1..]);
      j := k + 1;
      assert hooks[..j] == [hooks[0]] + hooks[1..][..k] && hooks[j..] == hooks[1..][k..];
      forall i | 0 <= i < j ensures hooks[i].priority < h.priority {
        assert i > 0 ==> hooks[i] == hooks[1..][i - 1];
      }
      forall i | j <= i < |hooks| ensures h.priority <= hooks[i].priority {
        assert hooks[i] == hooks[1..][i - 1];
      }
    }
  }

  /** The positions the sorted hooks come from, in the order of the sort. */
  ghost predicate Arranges(hooks: seq<Hook>, r: seq<Hook>, perm: seq<nat>) {
    && |perm| == |hooks| == |r|
    && (forall k :: 0 <= k < |perm| ==> perm[k] < |hooks| && r[k] == hooks[perm[k]])
    && (forall k, l :: 0 <= k < l < |perm| ==>
          r[k].priority < r[l].priority || (r[k].priority == r[l].priority && perm[k] < perm[l]))
  }

  /** perm' follows perm with the new first hook put in at j. */
  ghost predicate Inserts(perm: seq<nat>, j: nat, perm': seq<nat>) {
    && j <= |perm| && |perm'| == |perm| + 1 && perm'[j] == 0
    && (forall k :: 0 <= k < j ==> perm'[k] == perm[k] + 1)
    && (forall k :: j < k < |perm'| ==> perm'[k] == perm[k - 1] + 1)
  }

  lemma {:induction false} InsertAt(perm: seq<nat>, j: nat) returns (perm': seq<nat>)
    requires j <= |perm|
    ensures Inserts(perm, j, perm')
  {
    perm' := seq(|perm| + 1, i requires 0 <= i <= |perm| => if i < j then perm[i] + 1 else if i == j then 0
      else perm[i - 1] + 1);
  }

  ghost predicate Spliced(r: seq<Hook>, j: nat, h: Hook, r': seq<Hook>) {
    && j <= |r| && |r'| == |r| + 1 && r'[j] == h
    && (forall k :: 0 <= k < j ==> r'[k] == r[k])
    && (forall k :: j < k < |r'| ==> r'[k] == r[k - 1])
  }

  lemma PlaceSplices(h: Hook, r: seq<Hook>) returns (j: nat)
    requires ByPriority(r)
    ensures Spliced(r, j, h, Place(h, r))
    ensures forall i :: 0 <= i < j ==> r[i].priority < h.priority
    ensures forall i :: j <= i < |r| ==> h.priority <= r[i].priority
  {
    j := PlaceAt(h, r);
  }

  lemma SpliceArranges(hooks: seq<Hook>, r: seq<Hook>, perm: seq<nat>, j: nat, r': seq<Hook>, perm': seq<nat>)
    requires hooks != [] && Arranges(hooks[1..], r, perm)
    requires Spliced(r, j, hooks[0], r') && Inserts(perm, j, perm')
    requires forall i :: 0 <= i < j ==> r[i].priority < hooks[0].priority
    requires forall i :: j <= i < |r| ==> hooks[0].priority <= r[i].priority
    ensures Arranges(hooks, r', perm')
  {
    forall k | 0 <= k < |r'| ensures perm'[k] < |hooks| && r'[k] == hooks[perm'[k]] {
      if k != j {
        var i := if k < j then k else k - 1;
        assert perm'[k] == perm[i] + 1 && r[i] == hooks[1..][perm[i]];
      }
    }
  }

  lemma PlaceArranges(hooks: seq<Hook>, r: seq<Hook>, perm: seq<nat>) returns (perm': seq<nat>)
    requires hooks != [] && Arranges(hooks[1..], r, perm)
    ensures Arranges(hooks, Place(hooks[0], r), perm')
  {
    var j := PlaceSplices(hooks[0], r);
    perm' := InsertAt(perm, j);
    SpliceArranges(hooks, r, perm, j, Place(hooks[0], r), perm');
  }

  lemma {:induction false} OrderArranges(hooks: seq<Hook>) returns (perm: seq<nat>)
    ensures Arranges(hooks, OrderHooks(hooks), perm)
  {
    if hooks == [] {
      perm := [];
    } else {
      perm := OrderArranges(hooks[1..]);
      perm := PlaceArranges(hooks, OrderHooks(hooks[1..]), perm);
    }
  }

  /**
   * orderHooks rearranges: perm says which position each hook comes from. Smaller priorities come first, and among
   * equal ones the hook registered earlier.
   */
  lemma OrderPermutes(hooks: seq<Hook>) returns (perm: seq<nat>)
    ensures |perm| == |hooks| == |OrderHooks(hooks)|
    ensures forall k :: 0 <= k < |perm| ==> perm[k] < |hooks| && OrderHooks(hooks)[k] == hooks[perm[k]]
    ensures forall k, l :: 0 <= k < l < |perm| ==> perm[k] != perm[l]
    ensures forall k, l :: 0 <= k < l < |perm| ==>
      && OrderHooks(hooks)[k].priority <= OrderHooks(hooks)[l].priority
      && (OrderHooks(hooks)[k].priority == OrderHooks(hooks)[l].priority ==> perm[k] < perm[l])
  {
    perm := OrderArranges(hooks);
  }

  lemma {:induction false} AbsentPriority(hooks: seq<Hook>, p: int)
    ensures OfPriority(hooks, p) == [] <==> forall i :: 0 <= i < |hooks| ==> hooks[i].priority != p
  {
    if hooks != [] {
      AbsentPriority(hooks[1..], p);
    }
  }

  /** There is only one stable sort. */
  lemma {:induction false} StableSortUnique(a: seq<Hook>, b: seq<Hook>)
    requires ByPriority(a) && ByPriority(b)
    requires forall p :: OfPriority(a, p) == OfPriority(b, p)
    ensures a == b
    decreases |a|
  {
    if a == [] {
      if b != [] {
        assert OfPriority(a, b[0].priority) == [];
        AbsentPriority(b, b[0].priority);
      }
    } else {
      SameHead(a, b);
      forall p ensures OfPriority(a[1..], p) == OfPriority(b[1..], p) {
        assert OfPriority(a, p) == OfPriority(b, p);
        if a[0].priority == p {
          assert OfPriority(a, p)[1..] == OfPriority(a[1..], p);
          assert OfPriority(b, p)[1..] == OfPriority(b[1..], p);
        }
      }
      StableSortUnique(a[1..], b[1..]);
      assert a == [a[0]] + a[1..] && b == [b[0]] + b[1..];
    }
  }

  /** A hook of a's first priority occurs in b, so b starts no higher. */
  lemma HeadNoHigher(a: seq<Hook>, b: seq<Hook>)
    requires ByPriority(b) && a != []
    requires OfPriority(a, a[0].priority) == OfPriority(b, a[0].priority)
    ensures b != [] && b[0].priority <= a[0].priority
  {
  }

  lemma SameHead(a: seq<Hook>, b: seq<Hook>)
    requires ByPriority(a) && ByPriority(b) && a != []
    requires forall p :: OfPriority(a, p) == OfPriority(b, p)
    ensures b != [] && a[0] == b[0]
  {
    HeadNoHigher(a, b);
    HeadNoHigher(b, a);
    assert OfPriority(a, a[0].priority)[0] == a[0];
    assert OfPriority(b, b[0].priority)[0] == b[0];
  }

  // ----- removal ------------------------------------------------------------------------------

  /** What RemoveHook leaves: every hook of that name is gone, and an anonymous name removes nothing. */
  function Remove(hooks: seq<Hook>, name: string): seq<Hook> {
    if name == "" || hooks == [] then hooks
    else if hooks[0].name == name then Remove(hooks[1..], name)
    else [hooks[0]] + Remove(hooks[1..], name)
  }

  lemma {:induction false} RemoveMembers(hooks: seq<Hook>, name: string)
    requires name != ""
    ensures forall h :: h in Remove(hooks, name) <==> h in hooks && h.name != name
    ensures |Remove(hooks, name)| == |hooks| <==> forall h :: h in hooks ==> h.name != name
    ensures |Remove(hooks, name)| <= |hooks|
  {
    if hooks != [] {
      RemoveMembers(hooks[1..], name);
      assert hooks == [hooks[0]] + hooks[1..];
    }
  }

  /** Each hook is kept or removed by itself, and those kept stay in order. */
  lemma {:induction false} RemoveConcat(a: seq<Hook>, b: seq<Hook>, name: string)
    ensures Remove(a + b, name) == Remove(a, name) + Remove(b, name)
    decreases |a|
  {
    if a == [] {
      assert a + b == b;
    } else if name != "" {
      RemoveConcat(a[1..], b, name);
      assert (a + b)[1..] == a[1..] + b && (a + b)[0] == a[0];
      if a[0].name != name {
        ConcatAssociative([a[0]], Remove(a[1..], name), Remove(b, name));
      }
    }
  }

  lemma RemoveOfOne(h: Hook, name: string)
    ensures Remove([h], name) == if name != "" && h.name == name then [] else [h]
  {
    assert [h][1..] == [];
  }

  lemma {:induction false} RemoveSorted(hooks: seq<Hook>, name: string)
    requires ByPriority(hooks)
    ensures ByPriority(Remove(hooks, name))
  {
    if name != "" && hooks != [] {
      RemoveSorted(hooks[1..], name);
      RemoveMembers(hooks[1..], name);
      var rest := Remove(hooks[1..], name);
      forall j | 0 <= j < |rest| ensures hooks[0].priority <= rest[j].priority {
        assert rest[j] in rest;
        var i :| 0 <= i < |hooks[1..]| && hooks[1..][i] == rest[j];
        assert hooks[i + 1] == rest[j];
      }
    }
  }

  lemma {:induction false} RemoveWithin(hooks: seq<Hook>, name: string, p: int)
    ensures OfPriority(Remove(hooks, name), p) == Remove(OfPriority(hooks, p), name)
  {
    if name != "" && hooks != [] {
      RemoveWithin(hooks[1..], name, p);
      var rest := OfPriority(hooks[1..], p);
      if hooks[0].priority == p {
        assert ([hooks[0]] + rest)[1..] == rest;
      }
    }
  }

  /** Removing a hook before or after sorting is the same. */
  lemma RemoveCommutes(hooks: seq<Hook>, name: string)
    ensures OrderHooks(Remove(hooks, name)) == Remove(OrderHooks(hooks), name)
  {
    var kept := Remove(hooks, name);
    OrderIsStable(hooks);
    OrderIsStable(kept);
    RemoveSorted(OrderHooks(hooks), name);
    forall p ensures OfPriority(OrderHooks(kept), p) == OfPriority(Remove(OrderHooks(hooks), name), p) {
      RemoveWithin(hooks, name, p);
      RemoveWithin(OrderHooks(hooks), name, p);
      assert OfPriority(OrderHooks(hooks), p) == OfPriority(hooks, p);
    }
    StableSortUnique(OrderHooks(kept), Remove(OrderHooks(hooks), name));
  }

  // ----- running a phase ----------------------------------------------------------------------

  /** Why a phase stopped: the context, or the hook at a position of the sorted list. */
  datatype PhaseError = Interrupted | HookFailed(index: nat, name: string, answer: Answer)

  /** The bodies that ran, the error if any, and the context as the phase leaves it. */
  datatype PhaseRun = PhaseRun(ran: seq<Body>, error: Option<PhaseError>, ctx: Context)

  /** runPhase over the sorted hooks from position index on. */
  function RunHooks(sorted: seq<Hook>, index: nat, ctx: Context): PhaseRun
    requires index <= |sorted|
    decreases |sorted| - index
  {
    if index == |sorted| then PhaseRun([], None, ctx)
    else if ctx.Cancelled() then PhaseRun([], Some(Interrupted), ctx)
    else
      var h := sorted[index];
      if h.run.None? then RunHooks(sorted, index + 1, ctx.Checked())
      else if h.run.value.answer != Ok then
        PhaseRun([h.run.value], Some(HookFailed(index, h.name, h.run.value.answer)), ctx.Checked())
      else
        var later := RunHooks(sorted, index + 1, ctx.Checked());
        later.(ran := [h.run.value] + later.ran)
  }

  function Bodies(hooks: seq<Hook>): seq<Body> {
    if hooks == [] then []
    else if hooks[0].run.Some? then [hooks[0].run.value] + Bodies(hooks[1..])
    else Bodies(hooks[1..])
  }

  predicate Fails(h: Hook) {
    h.run.Some? && h.run.value.answer != Ok
  }

  /**
   * stop is where a phase entered at index ends: at the first failing hook, at the check that sees the context
   * cancelled, or at the end.
   */
  ghost predicate EndsAt(sorted: seq<Hook>, index: nat, ctx: Context, stop: nat, run: PhaseRun) {
    && index <= stop <= |sorted|
    && (forall i :: index <= i < stop ==> !Fails(sorted[i]))
    && ctx.LiveFor(stop - index) == stop - index
    && match run.error
       case None => stop == |sorted| && run.ran == Bodies(sorted[index..])
       case Some(Interrupted) =>
         stop < |sorted| && ctx == Expires(stop - index) && run.ran == Bodies(sorted[index..stop])
       case Some(HookFailed(i, name, answer)) =>
         && i == stop < |sorted| && ctx.LiveFor(stop - index + 1) == stop - index + 1
         && Fails(sorted[stop]) && name == sorted[stop].name && answer == sorted[stop].run.value.answer
         && run.ran == Bodies(sorted[index..stop + 1])
  }

  lemma {:induction false} PhaseEnds(sorted: seq<Hook>, index: nat, ctx: Context) returns (stop: nat)
    requires index <= |sorted|
    ensures EndsAt(sorted, index, ctx, stop, RunHooks(sorted, index, ctx))
    decreases |sorted| - index
  {
    stop := index;
    if index < |sorted| && !ctx.Cancelled() {
      assert sorted[index..index + 1] == [sorted[index]];
      if !Fails(sorted[index]) {
        stop := PhaseEnds(sorted, index + 1, ctx.Checked());
        SplitBodies(sorted, index, |sorted|);
        SplitBodies(sorted, index, stop);
        if stop < |sorted| {
          SplitBodies(sorted, index, stop + 1);
        }
      }
    }
  }

  lemma SplitBodies(sorted: seq<Hook>, index: nat, stop: nat)
    requires index < stop <= |sorted|
    ensures Bodies(sorted[index..stop]) ==
      (if sorted[index].run.Some? then [sorted[index].run.value] else []) + Bodies(sorted[index + 1..stop])
  {
  }

  /**
   * A phase runs the bodies of a prefix of the sorted hooks, and its error says exactly why the prefix ends where it
   * does.
   */
  lemma PhaseMeans(sorted: seq<Hook>, ctx: Context) returns (stop: nat)
    ensures stop <= |sorted|
    ensures forall i :: 0 <= i < stop ==> sorted[i].run.None? || sorted[i].run.value.answer == Ok
    ensures var run := RunHooks(sorted, 0, ctx);
      match run.error
      case None => stop == |sorted| && run.ran == Bodies(sorted) && (ctx.Live? || stop <= ctx.checks)
      case Some(Interrupted) => stop < |sorted| && run.ran == Bodies(sorted[..stop]) && ctx == Expires(stop)
      case Some(HookFailed(i, name, answer)) =>
        && i == stop < |sorted| && run.ran == Bodies(sorted[..stop + 1]) && (ctx.Live? || stop < ctx.checks)
        && sorted[stop].run.Some? && answer == sorted[stop].run.value.answer != Ok && name == sorted[stop].name
  {
    stop := PhaseEnds(sorted, 0, ctx);
    assert sorted[0..] == sorted;
  }

  /** The bodies of hooks in their order, hooks without one passed over. */
  lemma {:induction false} BodiesConcat(a: seq<Hook>, b: seq<Hook>)
    ensures Bodies(a + b) == Bodies(a) + Bodies(b)
  {
    if a == [] {
      assert a + b == b;
    } else {
      BodiesConcat(a[1..], b);
      assert (a + b)[1..] == a[1..] + b && (a + b)[0] == a[0];
      if a[0].run.Some? {
        ConcatAssociative([a[0].run.value], Bodies(a[1..]), Bodies(b));
      }
    }
  }

  lemma BodyOfOne(h: Hook)
    ensures Bodies([h]) == if h.run.Some? then [h.run.value] else []
  {
    assert [h][1..] == [];
  }

  /**
   * A phase goes through exactly if no hook in it fails and the context survives one check a hook; then every body has
   * run.
   */
  lemma PhaseSucceeds(sorted: seq<Hook>, ctx: Context)
    ensures var run := RunHooks(sorted, 0, ctx);
      && (run.error.None? <==> (forall h :: h in sorted ==> !Fails(h)) && ctx.LiveFor(|sorted|) == |sorted|)
      && (run.error.None? ==> run.ran == Bodies(sorted) && run.ctx == ctx.After(|sorted|))
  {
    var stop := PhaseEnds(sorted, 0, ctx);
    assert sorted[0..] == sorted;
    ChecksOfPhase(sorted, 0, ctx);
  }

  lemma {:induction false} ChecksOfPhase(sorted: seq<Hook>, index: nat, ctx: Context)
    requires index <= |sorted|
    ensures var run := RunHooks(sorted, index, ctx);
      run.error.None? ==> run.ctx == ctx.After(|sorted| - index)
    decreases |sorted| - index
  {
    if index < |sorted| && !ctx.Cancelled() {
      ChecksOfPhase(sorted, index + 1, ctx.Checked());
    }
  }

  lemma {:induction false} OrderMembers(hooks: seq<Hook>)
    ensures multiset(OrderHooks(hooks)) == multiset(hooks)
    ensures |OrderHooks(hooks)| == |hooks| && forall h :: h in OrderHooks(hooks) <==> h in hooks
  {
    if hooks != [] {
      OrderMembers(hooks[1..]);
      PlaceMembers(hooks[0], OrderHooks(hooks[1..]));
      assert hooks == [hooks[0]] + hooks[1..];
    }
    assert |multiset(OrderHooks(hooks))| == |multiset(hooks)|;
    assert forall h :: h in OrderHooks(hooks) <==> h in multiset(OrderHooks(hooks));
  }

  lemma {:induction false} BodiesHas(hooks: seq<Hook>, h: Hook)
    requires h in hooks && h.run.Some?
    ensures h.run.value in Bodies(hooks)
  {
    if hooks[0] != h {
      BodiesHas(hooks[1..], h);
    }
  }
}
