/** The loops of Manager.plan on values: in-degree counting, releasing dependents, and sorting each new layer. */
module PlanLoop {
  import opened Graphs
  import opened Planning
  import opened Teardown

  // ----- in-degrees ---------------------------------------------------------------------------

  /** How many dependency entries are still outside done, duplicates counted. */
  function Outstanding(deps: seq<Name>, done: set<Name>): nat {
    if deps == [] then 0 else (if deps[0] in done then 0 else 1) + Outstanding(deps[1..], done)
  }

  lemma {:induction false} OutstandingAll(deps: seq<Name>)
    ensures Outstanding(deps, {}) == |deps|
  {
    if deps != [] {
      OutstandingAll(deps[1..]);
    }
  }

  lemma {:induction false} OutstandingNone(deps: seq<Name>, done: set<Name>)
    ensures Outstanding(deps, done) == 0 <==> forall d :: d in deps ==> d in done
  {
    if deps != [] {
      OutstandingNone(deps[1..], done);
      assert deps == [deps[0]] + deps[1..];
    }
  }

  /** Finishing one module lowers the count by its number of entries. */
  lemma {:induction false} OutstandingLess(deps: seq<Name>, done: set<Name>, n: Name)
    requires n !in done
    ensures Outstanding(deps, done + {n}) == Outstanding(deps, done) - multiset(deps)[n]
  {
    if deps != [] {
      OutstandingLess(deps[1..], done, n);
      assert deps == [deps[0]] + deps[1..];
    }
  }

  function Listed(dependents: map<Name, seq<Name>>, d: Name): seq<Name> {
    if d in dependents then dependents[d] else []
  }

  /** One entry in dependents[d] for every entry of d among the dependencies of a module in covered. */
  ghost predicate Transposed(g: Graph, covered: set<Name>, dependents: map<Name, seq<Name>>) {
    forall d, n :: multiset(Listed(dependents, d))[n] == if n in covered && n in g then multiset(g[n])[d] else 0
  }

  ghost predicate Counted(g: Graph, done: set<Name>, indeg: map<Name, int>) {
    indeg.Keys == g.Keys && forall n :: n in g ==> indeg[n] == Outstanding(g[n], done)
  }

  /** The loop over one module's dependencies: the module is appended to the dependents of each. */
  method AddDependent(name: Name, deps: seq<Name>, dependents: map<Name, seq<Name>>) returns (r: map<Name, seq<Name>>)
    ensures forall d, n ::
      multiset(Listed(r, d))[n] == multiset(Listed(dependents, d))[n] + if n == name then multiset(deps)[d] else 0
  {
    r := dependents;
    for j := 0 to |deps|
      invariant forall d, n ::
        multiset(Listed(r, d))[n] == multiset(Listed(dependents, d))[n] + if n == name then multiset(deps[..j])[d]
          else 0
    {
      assert deps[..j + 1] == deps[..j] + [deps[j]];
      ghost var before := r;
      r := r[deps[j] := Listed(r, deps[j]) + [name]];
      assert forall d :: d != deps[j] ==> Listed(r, d) == Listed(before, d);
    }
    assert deps[..|deps|] == deps;
  }

  // ----- one layer of plan's main loop --------------------------------------------------------

  /** Release after the first j entries of waiting. */
  ghost predicate Releasing(waiting: seq<Name>, j: nat, indeg: map<Name, int>, next: seq<Name>,
                            indeg': map<Name, int>, next': seq<Name>)
    requires j <= |waiting|
  {
    && indeg'.Keys == indeg.Keys && NoDup(next')
    && (forall x :: x in indeg ==> indeg'[x] == indeg[x] - multiset(waiting[..j])[x])
    && (forall x :: x in next' <==> x in next || (x in waiting[..j] && x in indeg' && indeg'[x] == 0))
  }

  lemma PrefixCounts(waiting: seq<Name>, j: nat)
    requires j < |waiting|
    ensures multiset(waiting[..j + 1]) == multiset(waiting[..j]) + multiset{waiting[j]}
    ensures multiset(waiting[..j])[waiting[j]] < multiset(waiting)[waiting[j]]
    ensures forall x :: x in waiting[..j + 1] <==> x in waiting[..j] || x == waiting[j]
  {
    assert waiting[..j + 1] == waiting[..j] + [waiting[j]];
    assert waiting == waiting[..j + 1] + waiting[j + 1..];
  }

  lemma ReleasingOn(waiting: seq<Name>, j: nat, indeg: map<Name, int>, next: seq<Name>,
                    indeg': map<Name, int>, next': seq<Name>)
    requires forall x :: x in waiting ==> x in indeg && x !in next && multiset(waiting)[x] <= indeg[x]
    requires j < |waiting| && Releasing(waiting, j, indeg, next, indeg', next')
    ensures waiting[j] in indeg'
    ensures var left := indeg'[waiting[j]] - 1;
      Releasing(waiting, j + 1, indeg, next, indeg'[waiting[j] := left], if left == 0 then next' + [waiting[j]]
        else next')
  {
    assert waiting[j] in waiting;
    PrefixCounts(waiting, j);
  }

  /**
   * The loop over dependents[name]: every entry costs its module one in-degree, and those that reach zero come next.
   */
  method Release(waiting: seq<Name>, indeg: map<Name, int>, next: seq<Name>)
    returns (indeg': map<Name, int>, next': seq<Name>)
    requires forall x :: x in waiting ==> x in indeg && x !in next && multiset(waiting)[x] <= indeg[x]
    requires NoDup(next)
    ensures indeg'.Keys == indeg.Keys
    ensures forall x :: x in indeg ==> indeg'[x] == indeg[x] - multiset(waiting)[x]
    ensures NoDup(next') && forall x :: x in next' <==> x in next || (x in waiting && indeg'[x] == 0)
  {
    indeg', next' := indeg, next;
    for j := 0 to |waiting|
      invariant Releasing(waiting, j, indeg, next, indeg', next')
    {
      ReleasingOn(waiting, j, indeg, next, indeg', next');
      var dep := waiting[j];
      indeg' := indeg'[dep := indeg'[dep] - 1];
      if indeg'[dep] == 0 {
        next' := next' + [dep];
      }
    }
    assert waiting[..|waiting|] == waiting;
  }

  /** Every module waiting for name still counts at least its entries for it. */
  lemma CanRelease(g: Graph, passed: set<Name>, dependents: map<Name, seq<Name>>, indeg: map<Name, int>, name: Name,
                   x: Name)
    requires Counted(g, passed, indeg) && Transposed(g, g.Keys, dependents) && name !in passed
    requires x in Listed(dependents, name)
    ensures x in g && 0 < multiset(Listed(dependents, name))[x] <= indeg[x]
  {
    assert multiset(Listed(dependents, name))[x] > 0;
    OutstandingLess(g[x], passed, name);
  }

  lemma AfterRelease(g: Graph, passed: set<Name>, dependents: map<Name, seq<Name>>, name: Name,
                     before: map<Name, int>, after: map<Name, int>)
    requires Counted(g, passed, before) && Transposed(g, g.Keys, dependents) && name !in passed
    requires after.Keys == before.Keys
    requires forall x :: x in before ==> after[x] == before[x] - multiset(Listed(dependents, name))[x]
    ensures Counted(g, passed + {name}, after)
  {
    forall x | x in g ensures after[x] == Outstanding(g[x], passed + {name}) {
      OutstandingLess(g[x], passed, name);
    }
  }

  /** next lists, without repetition, the modules outside base that wait for nothing; nothing in base waits either. */
  ghost predicate Queued(g: Graph, base: set<Name>, indeg: map<Name, int>, next: seq<Name>) {
    && indeg.Keys == g.Keys && NoDup(next)
    && (forall n :: n in base ==> n in g && indeg[n] == 0)
    && (forall n :: n in next <==> n in g && n !in base && indeg[n] == 0)
  }

  lemma CountedZero(g: Graph, done: set<Name>, indeg: map<Name, int>)
    requires Counted(g, done, indeg)
    ensures forall n :: n in g ==> (indeg[n] == 0 <==> forall d :: d in g[n] ==> d in done)
  {
    forall n | n in g ensures indeg[n] == 0 <==> forall d :: d in g[n] ==> d in done {
      OutstandingNone(g[n], done);
    }
  }

  /** What is queued behind the finished modules is what is ready next. */
  lemma QueuedIsReady(g: Graph, done: set<Name>, indeg: map<Name, int>, next: seq<Name>)
    requires Counted(g, done, indeg) && Queued(g, done, indeg, next)
    ensures forall n :: n in next <==> n in Ready(g, done)
    ensures Queued(g, done + Elements(next), indeg, [])
  {
    CountedZero(g, done, indeg);
  }

  /** The body of the loop over current. */
  method Finish(ghost g: Graph, ghost base: set<Name>, ghost passed: set<Name>, name: Name,
                dependents: map<Name, seq<Name>>, indeg: map<Name, int>, next: seq<Name>)
    returns (indeg': map<Name, int>, next': seq<Name>)
    requires Counted(g, passed, indeg) && Transposed(g, g.Keys, dependents) && name !in passed
    requires Queued(g, base, indeg, next)
    ensures Counted(g, passed + {name}, indeg')
    ensures Queued(g, base, indeg', next')
  {
    var waiting := Listed(dependents, name);
    forall x | x in waiting ensures x in g && 0 < multiset(waiting)[x] <= indeg[x] {
      CanRelease(g, passed, dependents, indeg, name, x);
    }
    indeg', next' := Release(waiting, indeg, next);
    AfterRelease(g, passed, dependents, name, indeg, indeg');
    assert forall n :: n !in waiting ==> multiset(waiting)[n] == 0;
  }

  /** One round over current: afterwards next holds, unsorted, exactly the modules that became ready. */
  method Advance(ghost g: Graph, ghost done: set<Name>, current: seq<Name>,
                 dependents: map<Name, seq<Name>>, indeg: map<Name, int>, processed: nat)
    returns (next: seq<Name>, indeg': map<Name, int>, processed': nat)
    requires Counted(g, done, indeg) && Transposed(g, g.Keys, dependents)
    requires NoDup(current) && forall n :: n in current ==> n !in done
    requires Queued(g, done + Elements(current), indeg, [])
    ensures Counted(g, done + Elements(current), indeg')
    ensures Queued(g, done + Elements(current), indeg', next)
    ensures processed' == processed + |current|
  {
    next, indeg', processed' := [], indeg, processed;
    ghost var base := done + Elements(current);
    ghost var passed := done;
    for i := 0 to |current|
      invariant passed == done + Elements(current[..i])
      invariant Counted(g, passed, indeg') && Queued(g, base, indeg', next)
      invariant processed' == processed + i
    {
      assert current[i] in current && current[i] !in passed;
      processed' := processed' + 1;
      indeg', next := Finish(g, base, passed, current[i], dependents, indeg', next);
      passed := passed + {current[i]};
      assert current[..i + 1] == current[..i] + [current[i]];
    }
    assert current[..|current|] == current;
  }

  /** slices.Sort on a queue. */
  method Sort(ghost g: Graph, ghost done: set<Name>, ghost indeg: map<Name, int>, next: seq<Name>)
    returns (r: seq<Name>)
    requires Queued(g, done, indeg, next)
    ensures r == SortNames(next) && Queued(g, done, indeg, r) && Ascends(r)
  {
    r := SortNames(next);
    SortNamesAscends(next);
    AscendsNoDup(r);
  }

  /** An ascending listing of the ready modules is the layer the peeling prescribes. */
  lemma CurrentIsLayer(g: Graph, done: set<Name>, current: seq<Name>)
    requires Ascends(current) && forall n :: n in current <==> n in Ready(g, done)
    ensures current == Sorted(Ready(g, done)) && Elements(current) == Ready(g, done)
    ensures |done + Ready(g, done)| == |done| + |current|
  {
    var ready := Ready(g, done);
    SortedArranges(ready);
    AscendingUnique(current, Sorted(ready));
    AscendsNoDup(current);
    NoDupSize(current, ready);
    assert done !! ready;
  }

  lemma NoDupSize(s: seq<Name>, names: set<Name>)
    requires NoDup(s) && forall n :: n in s <==> n in names
    ensures |s| == |names|
  {
    NoDupCounts(s);
    assert Elements(s) == names;
    assert |multiset(names)| == |names|;
  }

  /** layers and done are what |layers| rounds of peeling give. */
  ghost predicate Peeling(g: Graph, layers: seq<seq<Name>>, done: set<Name>) {
    && done == Done(g, |layers|)
    && (forall i: nat :: i < |layers| ==> !Stalls(g, i))
    && (forall i :: 0 <= i < |layers| ==> layers[i] == Sorted(Ready(g, Done(g, i))))
  }

  lemma PeelingGoesOn(g: Graph, layers: seq<seq<Name>>, done: set<Name>, current: seq<Name>)
    requires Peeling(g, layers, done) && Ready(g, done) != {} && current == Sorted(Ready(g, done))
    ensures Peeling(g, layers + [current], done + Ready(g, done))
  {
    assert !Stalls(g, |layers|);
    var more := layers + [current];
    assert |more| == |layers| + 1;
    forall i | 0 <= i < |more| ensures more[i] == Sorted(Ready(g, Done(g, i))) {
      if i == |layers| {
        assert more[i] == current;
      } else {
        assert more[i] == layers[i];
      }
    }
  }

  lemma FewerLeft(g: Graph, done: set<Name>)
    requires Ready(g, done) != {}
    ensures g.Keys - (done + Ready(g, done)) < g.Keys - done
  {
  }

  lemma PeelingIsPeeled(g: Graph, layers: seq<seq<Name>>)
    requires |layers| == Rounds(g) && forall i :: 0 <= i < |layers| ==> layers[i] == Sorted(Ready(g, Done(g, i)))
    ensures layers == Peeled(g)
  {
    PeeledLength(g, 0);
    forall i | 0 <= i < |layers| ensures layers[i] == Peeled(g)[i] {
      PeeledEntry(g, 0, i);
    }
  }

  lemma PeelingStops(g: Graph, layers: seq<seq<Name>>, done: set<Name>)
    requires Closed(g) && Peeling(g, layers, done) && Ready(g, done) == {}
    ensures PlanOf(g) == if |done| == |g.Keys| then Layers(layers) else DependencyCycle
  {
    assert Stalls(g, |layers|);
    assert Rounds(g) == |layers|;
    PeelingIsPeeled(g, layers);
    SubsetSize(done, g.Keys);
    assert Residue(g) == g.Keys - done;
  }
}
