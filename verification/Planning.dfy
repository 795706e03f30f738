/** Manager.plan as mathematics: peeling a dependency graph into layers, and what those layers mean. */
module Planning {
  import opened Graphs

  /** UnknownDependency and DependencyCycle are the two sentinel errors plan returns. */
  datatype PlanResult = UnknownDependency | DependencyCycle | Layers(layers: seq<seq<Name>>)

  /** The modules outside done whose dependencies all lie in done. */
  ghost function Ready(g: Graph, done: set<Name>): set<Name> {
    set n | n in g && n !in done && forall d :: d in g[n] ==> d in done
  }

  /** The modules removed by the first k rounds of peeling. */
  ghost function Done(g: Graph, k: nat): (r: set<Name>)
    ensures r <= g.Keys
  {
    if k == 0 then {} else Done(g, k - 1) + Ready(g, Done(g, k - 1))
  }

  /** The round after k removes nothing. */
  ghost predicate Stalls(g: Graph, k: nat) {
    Ready(g, Done(g, k)) == {}
  }

  ghost predicate FirstStall(g: Graph, k: nat) {
    Stalls(g, k) && forall j: nat :: j < k ==> !Stalls(g, j)
  }

  /** The number of rounds that remove something. */
  ghost function Rounds(g: Graph): (k: nat)
    ensures FirstStall(g, k)
  {
    StallExists(g);
    var k :| FirstStall(g, k);
    k
  }

  /** The modules no round removes. */
  ghost function Residue(g: Graph): set<Name> {
    g.Keys - Done(g, Rounds(g))
  }

  /** One ascending layer a round, from round k on. */
  ghost function PeeledFrom(g: Graph, k: nat): seq<seq<Name>>
    decreases Rounds(g) - k
  {
    if k >= Rounds(g) then [] else [Sorted(Ready(g, Done(g, k)))] + PeeledFrom(g, k + 1)
  }

  ghost function Peeled(g: Graph): seq<seq<Name>> {
    PeeledFrom(g, 0)
  }

  ghost function PlanOf(g: Graph): PlanResult {
    if !Closed(g) then UnknownDependency
    else if Residue(g) != {} then DependencyCycle
    else Layers(Peeled(g))
  }

  /** Every layer is ascending and non-empty, layer i holds the modules of height i, and no module is missing. */
  ghost predicate ExactLayering(g: Graph, layers: seq<seq<Name>>) {
    && (forall i :: 0 <= i < |layers| ==> Ascends(layers[i]) && layers[i] != [])
    && (forall i, n :: 0 <= i < |layers| ==> (n in layers[i] <==> Height(g, n, i)))
    && (forall n :: n in g ==> exists i :: 0 <= i < |layers| && n in layers[i])
  }

  lemma PeelShrinks(g: Graph, k: nat)
    requires !Stalls(g, k)
    ensures |g.Keys - Done(g, k + 1)| < |g.Keys - Done(g, k)|
  {
  }

  lemma {:induction false} SubsetSize<T>(a: set<T>, b: set<T>)
    requires a <= b
    ensures |a| <= |b|
    ensures |a| == |b| ==> a == b
  {
    if a != {} {
      var x :| x in a;
      SubsetSize(a - {x}, b - {x});
      assert a == (a - {x}) + {x} && b == (b - {x}) + {x};
    }
  }

  lemma {:induction false} DoneGrows(g: Graph, j: nat, k: nat)
    requires j <= k
    ensures Done(g, j) <= Done(g, k)
    decreases k - j
  {
    if j < k {
      DoneGrows(g, j, k - 1);
    }
  }

  /** Peeling measures chains: n is gone after k rounds exactly if no chain leaving n has more than k modules. */
  lemma {:induction false} DoneIffShort(g: Graph, n: Name, k: nat)
    requires Closed(g) && n in g
    ensures n in Done(g, k) <==> forall p :: ChainFrom(g, n, p) ==> |p| <= k
    decreases k
  {
    if k == 0 {
      assert ChainFrom(g, n, [n]);
    } else {
      if n in Done(g, k) {
        forall p | ChainFrom(g, n, p) ensures |p| <= k {
          if |p| >= 2 {
            DepDoneEarlier(g, n, p[1], k);
            ChainSuffix(g, p, 1);
            DoneIffShort(g, p[1], k - 1);
            assert ChainFrom(g, p[1], p[1..]);
          }
        }
      }
      if forall p :: ChainFrom(g, n, p) ==> |p| <= k {
        forall d | d in g[n] ensures d in Done(g, k - 1) {
          assert DependsOn(g, n, d);
          forall p | ChainFrom(g, d, p) ensures |p| <= k - 1 {
            ChainCons(g, n, p);
          }
          DoneIffShort(g, d, k - 1);
        }
      }
    }
  }

  lemma {:induction false} DepDoneEarlier(g: Graph, n: Name, d: Name, k: nat)
    requires k > 0 && n in Done(g, k) && DependsOn(g, n, d)
    ensures d in Done(g, k - 1)
    decreases k
  {
    if n in Done(g, k - 1) {
      DepDoneEarlier(g, n, d, k - 1);
    }
  }

  /** Round i removes exactly the modules of height i. */
  lemma ReadyIsHeight(g: Graph, n: Name, i: nat)
    requires Closed(g)
    ensures n in Ready(g, Done(g, i)) <==> Height(g, n, i)
  {
    if n in g {
      DoneIffShort(g, n, i);
      DoneIffShort(g, n, i + 1);
      if n in Ready(g, Done(g, i)) {
        assert n in Done(g, i + 1);
        var p :| ChainFrom(g, n, p) && |p| > i;
        assert |p| == i + 1;
      }
      if Height(g, n, i) {
        var p :| ChainFrom(g, n, p) && |p| == i + 1;
        assert n !in Done(g, i);
        assert n in Done(g, i + 1);
      }
    } else if Height(g, n, i) {
      HeightInGraph(g, n, i);
    }
  }

  ghost function Left(g: Graph, k: nat): nat {
    |g.Keys - Done(g, k)|
  }

  lemma {:induction false} StallsEventually(g: Graph, k: nat) returns (r: nat)
    ensures Stalls(g, r)
    decreases Left(g, k)
  {
    if Stalls(g, k) {
      r := k;
    } else {
      PeelShrinks(g, k);
      r := StallsEventually(g, k + 1);
    }
  }

  lemma {:induction false} StallsFirst(g: Graph, k: nat) returns (r: nat)
    requires Stalls(g, k)
    ensures FirstStall(g, r)
    decreases k
  {
    if j: nat :| j < k && Stalls(g, j) {
      r := StallsFirst(g, j);
    } else {
      r := k;
    }
  }

  lemma StallExists(g: Graph)
    ensures exists k :: FirstStall(g, k)
  {
    var a := StallsEventually(g, 0);
    var b := StallsFirst(g, a);
  }

  lemma {:induction false} PeeledEntry(g: Graph, k: nat, j: nat)
    requires k <= j < Rounds(g)
    ensures j - k < |PeeledFrom(g, k)| && PeeledFrom(g, k)[j - k] == Sorted(Ready(g, Done(g, j)))
    decreases j - k
  {
    if k < j {
      PeeledEntry(g, k + 1, j);
    }
  }

  lemma {:induction false} PeeledLength(g: Graph, k: nat)
    requires k <= Rounds(g)
    ensures |PeeledFrom(g, k)| == Rounds(g) - k
    decreases Rounds(g) - k
  {
    if k < Rounds(g) {
      PeeledLength(g, k + 1);
    }
  }

  lemma PeeledAt(g: Graph, i: nat)
    requires i < |Peeled(g)|
    ensures Ascends(Peeled(g)[i]) && Peeled(g)[i] != []
    ensures forall n :: n in Peeled(g)[i] <==> n in Ready(g, Done(g, i))
  {
    PeeledLength(g, 0);
    PeeledEntry(g, 0, i);
    var ready := Ready(g, Done(g, i));
    assert !Stalls(g, i);
    SortedArranges(ready);
    var n :| n in ready;
    assert n in Sorted(ready);
    assert Peeled(g)[i] == Sorted(ready);
  }

  // ----- plan decides acyclicity --------------------------------------------------------------

  /** A module outside Done when peeling has stopped still waits for another such module. */
  lemma ResidueStep(g: Graph, n: Name) returns (d: Name)
    requires Closed(g) && n in Residue(g)
    ensures DependsOn(g, n, d) && d in Residue(g)
  {
    assert Stalls(g, Rounds(g));
    assert n !in Ready(g, Done(g, Rounds(g)));
    d :| d in g[n] && d !in Done(g, Rounds(g));
    assert DependsOn(g, n, d);
  }

  /** Such modules form chains of any length. */
  lemma {:induction false} ResidueWalk(g: Graph, n: Name, len: nat) returns (p: seq<Name>)
    requires Closed(g) && n in Residue(g) && len > 0
    ensures ChainFrom(g, n, p) && |p| == len
    ensures forall x :: x in p ==> x in Residue(g)
    decreases len
  {
    if len == 1 {
      p := [n];
    } else {
      var d := ResidueStep(g, n);
      var q := ResidueWalk(g, d, len - 1);
      ChainCons(g, n, q);
      p := [n] + q;
    }
  }

  /** When plan reports a cycle there is one, made of the modules it never processed. */
  lemma CycleInResidue(g: Graph) returns (p: seq<Name>)
    requires PlanOf(g) == DependencyCycle
    ensures Cycle(g, p)
    ensures forall x :: x in p ==> x in Residue(g)
  {
    var rest := Residue(g);
    assert rest != {};
    var n :| n in rest;
    var walk := ResidueWalk(g, n, |rest| + 1);
    if NoDup(walk) {
      NoDupFits(walk, rest);
      assert false;
    }
    var i, j :| 0 <= i < j < |walk| && walk[i] == walk[j];
    ChainSuffix(g, walk, i);
    var tail := walk[i..];
    p := tail[..j - i + 1];
    forall k | 0 <= k < |p| - 1 ensures DependsOn(g, p[k], p[k + 1]) {
      assert DependsOn(g, tail[k], tail[k + 1]);
    }
    assert p[|p| - 1] == walk[j];
    forall x | x in p ensures x in rest {
      assert x in walk;
    }
  }

  /** Walking round a cycle again and again gives chains of any length. */
  lemma {:induction false} CycleUnrolls(g: Graph, p: seq<Name>, len: nat) returns (q: seq<Name>)
    requires Cycle(g, p)
    ensures ChainFrom(g, p[0], q) && |q| > len
    decreases len
  {
    if len == 0 {
      q := p;
    } else {
      var r := CycleUnrolls(g, p, len - 1);
      var lap := p[..|p| - 1];
      q := lap + r;
      forall k | 0 <= k < |q| - 1 ensures DependsOn(g, q[k], q[k + 1]) {
        if k < |lap| {
          assert DependsOn(g, p[k], p[k + 1]);
        } else {
          assert DependsOn(g, r[k - |lap|], r[k - |lap| + 1]);
        }
      }
      assert q[0] == p[0];
    }
  }

  /** plan succeeds exactly on closed acyclic graphs, and each of its two errors means what its name says. */
  lemma PlanDecides(g: Graph)
    ensures PlanOf(g).UnknownDependency? <==> exists a, b :: DependsOn(g, a, b) && b !in g
    ensures PlanOf(g).DependencyCycle? <==> Closed(g) && exists p :: Cycle(g, p)
    ensures PlanOf(g).Layers? <==> Closed(g) && Acyclic(g)
  {
    if PlanOf(g).DependencyCycle? {
      var p := CycleInResidue(g);
    }
    if Closed(g) && exists p :: Cycle(g, p) {
      var p :| Cycle(g, p);
      var len := Rounds(g);
      var q := CycleUnrolls(g, p, len);
      assert p[0] in g;
      DoneIffShort(g, p[0], len);
      assert p[0] in Residue(g);
    }
  }

  // ----- exact, minimal, unique layers --------------------------------------------------------

  lemma {:induction false} DoneIsLayered(g: Graph, n: Name, k: nat) returns (i: nat)
    requires n in Done(g, k)
    ensures i < k && n in Ready(g, Done(g, i))
    decreases k
  {
    if n in Done(g, k - 1) {
      i := DoneIsLayered(g, n, k - 1);
    } else {
      i := k - 1;
    }
  }

  /** The index of a module's layer is the length of its longest dependency chain. */
  lemma PlanExact(g: Graph)
    requires PlanOf(g).Layers?
    ensures ExactLayering(g, PlanOf(g).layers)
  {
    var layers := Peeled(g);
    forall i | 0 <= i < |layers| ensures Ascends(layers[i]) && layers[i] != [] {
      PeeledAt(g, i);
    }
    forall i, n | 0 <= i < |layers| ensures n in layers[i] <==> Height(g, n, i) {
      PeeledAt(g, i);
      ReadyIsHeight(g, n, i);
    }
    forall n | n in g ensures exists i :: 0 <= i < |layers| && n in layers[i] {
      assert n !in Residue(g);
      var i := DoneIsLayered(g, n, Rounds(g));
      PeeledLength(g, 0);
      PeeledAt(g, i);
    }
  }

  lemma HeightUnique(g: Graph, n: Name, h: nat, k: nat)
    requires Height(g, n, h) && Height(g, n, k)
    ensures h == k
  {
  }

  /** Nothing about the iteration order of a map survives in the plan: exact layerings are unique. */
  lemma ExactLayeringUnique(g: Graph, a: seq<seq<Name>>, b: seq<seq<Name>>)
    requires ExactLayering(g, a) && ExactLayering(g, b)
    ensures a == b
  {
    NoMoreLayers(g, a, b);
    NoMoreLayers(g, b, a);
    forall i | 0 <= i < |a| ensures a[i] == b[i] {
      forall x ensures x in a[i] <==> x in b[i] {
        assert x in a[i] <==> Height(g, x, i);
      }
      AscendingUnique(a[i], b[i]);
    }
  }

  lemma NoMoreLayers(g: Graph, a: seq<seq<Name>>, b: seq<seq<Name>>)
    requires ExactLayering(g, a) && ExactLayering(g, b)
    ensures |a| <= |b|
  {
    if a != [] {
      var top := |a| - 1;
      var n := a[top][0];
      assert n in a[top];
      var p :| ChainFrom(g, n, p) && |p| == top + 1;
      assert p[0] in g;
      var i :| 0 <= i < |b| && n in b[i];
      HeightUnique(g, n, top, i);
    }
  }

  /** What plan decides, in one place. */
  lemma PlanMeans(g: Graph)
    ensures PlanOf(g).UnknownDependency? <==> !Closed(g)
    ensures PlanOf(g).DependencyCycle? <==> Closed(g) && !Acyclic(g)
    ensures PlanOf(g).Layers? ==> ExactLayering(g, PlanOf(g).layers)
  {
    PlanDecides(g);
    if PlanOf(g).Layers? {
      PlanExact(g);
    }
  }

  /** An exact layering of a closed graph is what plan returns, and the other way round. */
  lemma PlanIffExact(g: Graph, layers: seq<seq<Name>>)
    requires Closed(g)
    ensures PlanOf(g) == Layers(layers) <==> ExactLayering(g, layers)
  {
    if ExactLayering(g, layers) {
      forall p ensures !Cycle(g, p) {
        if Cycle(g, p) {
          assert p[0] in g;
          var i :| 0 <= i < |layers| && p[0] in layers[i];
          var q := CycleUnrolls(g, p, i + 1);
          assert false;
        }
      }
      PlanDecides(g);
    }
    if PlanOf(g).Layers? {
      PlanExact(g);
      if ExactLayering(g, layers) {
        ExactLayeringUnique(g, layers, PlanOf(g).layers);
      }
    }
  }

  // ----- the same in plain terms --------------------------------------------------------------

  /** plan reports an unknown dependency exactly if some entry names no module. */
  lemma PlanMisses(g: Graph)
    ensures PlanOf(g).UnknownDependency? <==> exists a, b :: a in g && b in g[a] && b !in g
  {
    if a, b :| a in g && b in g[a] && b !in g {
      assert DependsOn(g, a, b);
    }
    PlanDecides(g);
  }

  /** When plan reports a cycle there are modules that all wait for one another. */
  lemma PlanStuck(g: Graph) returns (s: set<Name>)
    requires PlanOf(g).DependencyCycle?
    ensures s != {} && forall n :: n in s ==> n in g && exists d :: d in g[n] && d in s
  {
    s := Residue(g);
    forall n | n in s ensures n in g && exists d :: d in g[n] && d in s {
      var d := ResidueStep(g, n);
    }
  }

  /** The layers of a plan: every module exactly once, behind everything it depends on, and nothing else. */
  lemma PlanPlaces(g: Graph, layers: seq<seq<Name>>)
    requires PlanOf(g) == Layers(layers)
    ensures forall i :: 0 <= i < |layers| ==> layers[i] != []
    ensures forall n :: n in g <==> exists i :: 0 <= i < |layers| && n in layers[i]
    ensures forall i, j, p, q ::
      (0 <= i < |layers| && 0 <= j < |layers| && 0 <= p < |layers[i]| && 0 <= q < |layers[j]|
       && layers[i][p] == layers[j][q]) ==> i == j && p == q
    ensures forall i, n, d :: 0 <= i < |layers| && n in layers[i] && n in g && d in g[n] ==>
      exists j :: 0 <= j < i && d in layers[j]
  {
    PlanExact(g);
    PlanDisjoint(g);
    PlanOrders(g);
    forall i, j, p, q | 0 <= i < |layers| && 0 <= j < |layers| && 0 <= p < |layers[i]| && 0 <= q < |layers[j]|
      && layers[i][p] == layers[j][q] ensures i == j && p == q
    {
      assert layers[i][p] in layers[i] && layers[j][q] in layers[j];
      assert NoDup(layers[i]);
    }
  }

  /** No module could come earlier: each behind the first layer depends on one of the layer before. */
  lemma PlanTight(g: Graph, layers: seq<seq<Name>>, i: nat, n: Name) returns (d: Name)
    requires PlanOf(g) == Layers(layers) && 0 < i < |layers| && n in layers[i]
    ensures n in g && d in g[n] && d in layers[i - 1]
  {
    PlanExact(g);
    d := StepDown(g, n, i);
    assert Height(g, d, i - 1);
  }

  /** The second module of a longest chain has the height below. */
  lemma StepDown(g: Graph, n: Name, i: nat) returns (d: Name)
    requires i > 0 && Height(g, n, i)
    ensures n in g && d in g[n] && Height(g, d, i - 1)
  {
    var p :| ChainFrom(g, n, p) && |p| == i + 1;
    d := p[1];
    assert DependsOn(g, p[0], p[0 + 1]);
    ChainSuffix(g, p, 1);
    assert ChainFrom(g, d, p[1..]);
    forall q | ChainFrom(g, d, q) ensures |q| <= i {
      ChainCons(g, n, q);
    }
  }

  /** Inside a layer the earlier name is a proper prefix of the later or has the smaller character where they differ. */
  lemma PlanAscends(g: Graph, layers: seq<seq<Name>>, i: nat, p: nat, q: nat) returns (k: nat)
    requires PlanOf(g) == Layers(layers) && i < |layers| && p < q < |layers[i]|
    ensures var a, b := layers[i][p].text, layers[i][q].text;
      k <= |a| && k < |b| && a[..k] == b[..k] && (k == |a| || a[k] < b[k])
  {
    PlanExact(g);
    var a, b := layers[i][p].text, layers[i][q].text;
    assert Before(layers[i][p], layers[i][q]);
    LessMeans(a, b);
    k :| 0 <= k <= |a| && k < |b| && a[..k] == b[..k] && (k == |a| || a[k] < b[k]);
  }

  /** Any assignment of ranks that puts dependencies strictly lower. */
  ghost predicate Ranking(g: Graph, rank: map<Name, nat>, ranks: nat) {
    && (forall n :: n in g ==> n in rank && rank[n] < ranks)
    && (forall a, b :: DependsOn(g, a, b) && b in g ==> rank[b] < rank[a])
  }

  lemma {:induction false} RanksFall(g: Graph, rank: map<Name, nat>, ranks: nat, p: seq<Name>)
    requires Ranking(g, rank, ranks) && Chain(g, p)
    ensures |p| <= rank[p[0]] + 1
  {
    if |p| >= 2 {
      ChainSuffix(g, p, 1);
      assert DependsOn(g, p[0], p[0 + 1]);
      RanksFall(g, rank, ranks, p[1..]);
    }
  }

  /** No valid layering of the graph has fewer layers than the plan. */
  lemma PlanMinimal(g: Graph, rank: map<Name, nat>, ranks: nat)
    requires PlanOf(g).Layers? && Ranking(g, rank, ranks)
    ensures |PlanOf(g).layers| <= ranks
  {
    var layers := PlanOf(g).layers;
    PlanExact(g);
    if layers != [] {
      var top := |layers| - 1;
      assert layers[top][0] in layers[top];
      var p :| ChainFrom(g, layers[top][0], p) && |p| == top + 1;
      RanksFall(g, rank, ranks, p);
      assert p[0] in g;
    }
  }

  // ----- consequences the orchestration uses --------------------------------------------------

  /** Names do not repeat within or across layers. */
  ghost predicate Disjoint(layers: seq<seq<Name>>) {
    && (forall i :: 0 <= i < |layers| ==> NoDup(layers[i]))
    && (forall i, j, n :: 0 <= i < |layers| && 0 <= j < |layers| && n in layers[i] && n in layers[j] ==> i == j)
  }

  /** Every module of a layer is registered and all its dependencies sit in strictly earlier layers. */
  ghost predicate DependenciesFirst(g: Graph, layers: seq<seq<Name>>) {
    forall i, n :: 0 <= i < |layers| && n in layers[i] ==>
      n in g && forall d :: d in g[n] ==> exists j :: 0 <= j < i && d in layers[j]
  }

  lemma PlanDisjoint(g: Graph)
    requires PlanOf(g).Layers?
    ensures Disjoint(PlanOf(g).layers)
  {
    var layers := PlanOf(g).layers;
    PlanExact(g);
    forall i | 0 <= i < |layers| ensures NoDup(layers[i]) {
      AscendsNoDup(layers[i]);
    }
    forall i, j, n | 0 <= i < |layers| && 0 <= j < |layers| && n in layers[i] && n in layers[j] ensures i == j {
      HeightUnique(g, n, i, j);
    }
  }

  lemma ExactOrders(g: Graph, layers: seq<seq<Name>>)
    requires Closed(g) && ExactLayering(g, layers)
    ensures DependenciesFirst(g, layers)
  {
    forall i, n | 0 <= i < |layers| && n in layers[i]
      ensures n in g && forall d :: d in g[n] ==> exists j :: 0 <= j < i && d in layers[j]
    {
      HeightInGraph(g, n, i);
      forall d | d in g[n] ensures exists j :: 0 <= j < i && d in layers[j] {
        assert DependsOn(g, n, d);
        var j :| 0 <= j < |layers| && d in layers[j];
        var q :| ChainFrom(g, d, q) && |q| == j + 1;
        ChainCons(g, n, q);
        assert |[n] + q| <= i + 1;
      }
    }
  }

  /** Each dependency is in a strictly earlier layer than its dependent. */
  lemma PlanOrders(g: Graph)
    requires PlanOf(g).Layers?
    ensures DependenciesFirst(g, PlanOf(g).layers)
  {
    PlanExact(g);
    ExactOrders(g, PlanOf(g).layers);
  }

  /** Registering more modules never moves an old one to another layer. */
  lemma HeightStable(g: Graph, g': Graph, n: Name, h: nat)
    requires Closed(g) && Extends(g', g) && n in g
    ensures Height(g, n, h) <==> Height(g', n, h)
  {
    forall p | p != [] && p[0] == n ensures ChainFrom(g, n, p) <==> ChainFrom(g', n, p) {
      ChainStable(g, g', p);
    }
    if Height(g, n, h) {
      var p :| ChainFrom(g, n, p) && |p| == h + 1;
      assert ChainFrom(g', n, p);
    }
    if Height(g', n, h) {
      var p :| ChainFrom(g', n, p) && |p| == h + 1;
      assert ChainFrom(g, n, p);
    }
  }

  lemma LayerStable(g: Graph, g': Graph, a: seq<seq<Name>>, b: seq<seq<Name>>, i: nat)
    requires Closed(g) && Extends(g', g) && ExactLayering(g, a) && ExactLayering(g', b) && i < |b|
    ensures Restrict(b[i], g.Keys) == if i < |a| then a[i] else []
  {
    var kept := Restrict(b[i], g.Keys);
    var want := if i < |a| then a[i] else [];
    RestrictElements(b[i], g.Keys);
    forall x ensures x in kept <==> x in want {
      if x in g {
        HeightStable(g, g', x, i);
        var j :| 0 <= j < |a| && x in a[j];
        if Height(g, x, i) {
          HeightUnique(g, x, i, j);
        }
      } else if x in want {
        HeightInGraph(g, x, i);
      }
    }
    RestrictAscends(b[i], g.Keys);
    AscendingUnique(kept, want);
  }

  lemma NoFewerLayers(g: Graph, g': Graph, a: seq<seq<Name>>, b: seq<seq<Name>>)
    requires Closed(g) && Extends(g', g) && ExactLayering(g, a) && ExactLayering(g', b)
    ensures |a| <= |b|
  {
    if a != [] {
      var top := |a| - 1;
      var n := a[top][0];
      assert n in a[top];
      HeightInGraph(g, n, top);
      HeightStable(g, g', n, top);
      var j :| 0 <= j < |b| && n in b[j];
      HeightUnique(g', n, top, j);
    }
  }

  lemma PlanStable(g: Graph, g': Graph)
    requires PlanOf(g).Layers? && PlanOf(g').Layers? && Extends(g', g)
    ensures |PlanOf(g).layers| <= |PlanOf(g').layers|
    ensures forall i :: 0 <= i < |PlanOf(g').layers| ==>
      Restrict(PlanOf(g').layers[i], g.Keys) == if i < |PlanOf(g).layers| then PlanOf(g).layers[i] else []
  {
    PlanExact(g);
    PlanExact(g');
    NoFewerLayers(g, g', PlanOf(g).layers, PlanOf(g').layers);
    forall i | 0 <= i < |PlanOf(g').layers|
      ensures Restrict(PlanOf(g').layers[i], g.Keys) == if i < |PlanOf(g).layers| then PlanOf(g).layers[i] else []
    {
      LayerStable(g, g', PlanOf(g).layers, PlanOf(g').layers, i);
    }
  }

  lemma HeightInGraph(g: Graph, n: Name, h: nat)
    requires Height(g, n, h)
    ensures n in g
  {
  }
}
