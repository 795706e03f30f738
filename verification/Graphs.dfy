/** Module names, their order, and dependency graphs as a set of declared dependency lists. */
module Graphs {
  /** The name a module is registered under. */
  datatype Name = Name(text: string)

  /** Registered name to the dependencies it declared, duplicates and self-references included. */
  type Graph = map<Name, seq<Name>>

  // ----- sequences of names -------------------------------------------------------------------

  function Elements(s: seq<Name>): set<Name> {
    set x | x in s
  }

  ghost predicate NoDup<T>(s: seq<T>) {
    forall i, j :: 0 <= i < j < |s| ==> s[i] != s[j]
  }

  /** The names of s that belong to keep, in the order of s. */
  function Restrict(s: seq<Name>, keep: set<Name>): seq<Name> {
    if s == [] then []
    else if s[0] in keep then [s[0]] + Restrict(s[1..], keep)
    else Restrict(s[1..], keep)
  }

  /** The names of s that do not belong to gone, in the order of s. */
  function Without(s: seq<Name>, gone: set<Name>): seq<Name> {
    if s == [] then []
    else if s[0] in gone then Without(s[1..], gone)
    else [s[0]] + Without(s[1..], gone)
  }

  lemma {:induction false} RestrictElements(s: seq<Name>, keep: set<Name>)
    ensures Elements(Restrict(s, keep)) == Elements(s) * keep
    ensures forall x :: x in Restrict(s, keep) <==> x in s && x in keep
  {
    if s != [] {
      RestrictElements(s[1..], keep);
      assert s == [s[0]] + s[1..];
    }
  }

  lemma {:induction false} WithoutElements(s: seq<Name>, gone: set<Name>)
    ensures Elements(Without(s, gone)) == Elements(s) - gone
    ensures forall x :: x in Without(s, gone) <==> x in s && x !in gone
  {
    if s != [] {
      WithoutElements(s[1..], gone);
      assert s == [s[0]] + s[1..];
    }
  }

  lemma {:induction false} WithoutSnoc(s: seq<Name>, x: Name, gone: set<Name>)
    ensures Without(s + [x], gone) == if x in gone then Without(s, gone) else Without(s, gone) + [x]
  {
    if s == [] {
      assert [] + [x] == [x];
    } else {
      WithoutSnoc(s[1..], x, gone);
      assert (s + [x])[1..] == s[1..] + [x];
      assert (s + [x])[0] == s[0];
    }
  }

  lemma {:induction false} RestrictSnoc(s: seq<Name>, x: Name, keep: set<Name>)
    ensures Restrict(s + [x], keep) == if x in keep then Restrict(s, keep) + [x] else Restrict(s, keep)
  {
    if s == [] {
      assert [] + [x] == [x];
    } else {
      RestrictSnoc(s[1..], x, keep);
      assert (s + [x])[1..] == s[1..] + [x];
      assert (s + [x])[0] == s[0];
    }
  }

  lemma {:induction false} WithoutTwice(s: seq<Name>, a: set<Name>, b: set<Name>)
    ensures Without(Without(s, a), b) == Without(s, a + b)
  {
    if s != [] {
      WithoutTwice(s[1..], a, b);
      if s[0] !in a {
        assert Without(s, a)[1..] == Without(s[1..], a);
      }
    }
  }

  /** Restriction only looks at which of the names are kept. */
  lemma {:induction false} RestrictCongruent(s: seq<Name>, a: set<Name>, b: set<Name>)
    requires forall x :: x in s ==> (x in a <==> x in b)
    ensures Restrict(s, a) == Restrict(s, b)
  {
    if s != [] {
      RestrictCongruent(s[1..], a, b);
    }
  }

  lemma {:induction false} RestrictAll(s: seq<Name>, keep: set<Name>)
    requires forall x :: x in s ==> x in keep
    ensures Restrict(s, keep) == s
  {
    if s != [] {
      RestrictAll(s[1..], keep);
    }
  }

  lemma {:induction false} RestrictNarrows(s: seq<Name>, all: set<Name>, keep: set<Name>)
    requires keep <= all
    ensures Restrict(s, keep) == Restrict(Restrict(s, all), keep)
  {
    if s != [] {
      RestrictNarrows(s[1..], all, keep);
      if s[0] in all {
        assert Restrict(s, all)[1..] == Restrict(s[1..], all);
      }
    }
  }

  lemma {:induction false} WithoutNone(s: seq<Name>, gone: set<Name>)
    requires forall x :: x in s ==> x !in gone
    ensures Without(s, gone) == s
  {
    if s != [] {
      WithoutNone(s[1..], gone);
    }
  }

  lemma {:induction false} RestrictNoDup(s: seq<Name>, keep: set<Name>)
    requires NoDup(s)
    ensures NoDup(Restrict(s, keep))
  {
    if s != [] {
      RestrictNoDup(s[1..], keep);
      RestrictElements(s[1..], keep);
    }
  }

  // ----- the order slices.Sort uses -----------------------------------------------------------

  /** Lexicographic order (Go compares strings byte by byte; on UTF-8 that is code point order). */
  predicate Less(a: string, b: string) {
    if b == [] then false
    else if a == [] then true
    else a[0] < b[0] || (a[0] == b[0] && Less(a[1..], b[1..]))
  }

  /** a comes first exactly if it is a proper prefix of b, or has the smaller character where the two first differ. */
  lemma {:induction false} LessMeans(a: string, b: string)
    ensures Less(a, b) <==>
      exists k :: 0 <= k <= |a| && k < |b| && a[..k] == b[..k] && (k == |a| || a[k] < b[k])
  {
    if a != [] && b != [] && a[0] == b[0] {
      var u, v := a[1..], b[1..];
      LessMeans(u, v);
      if k :| 0 <= k <= |u| && k < |v| && u[..k] == v[..k] && (k == |u| || u[k] < v[k]) {
        assert a[..k + 1] == [a[0]] + u[..k] && b[..k + 1] == [b[0]] + v[..k];
        assert 0 <= k + 1 <= |a| && k + 1 < |b| && a[..k + 1] == b[..k + 1] && (k + 1 == |a| || a[k + 1] < b[k + 1]);
      }
      if k :| 0 <= k <= |a| && k < |b| && a[..k] == b[..k] && (k == |a| || a[k] < b[k]) {
        assert k > 0;
        assert u[..k - 1] == a[..k][1..] && v[..k - 1] == b[..k][1..];
      }
    } else if a == [] && b != [] {
      assert a[..0] == b[..0];
    } else if a != [] && b != [] {
      assert a[..0] == b[..0];
      if k :| 0 <= k <= |a| && k < |b| && a[..k] == b[..k] && (k == |a| || a[k] < b[k]) {
        assert k > 0 ==> a[..k][0] == b[..k][0];
      }
    }
  }

  predicate Before(a: Name, b: Name) {
    Less(a.text, b.text)
  }

  lemma {:induction false} LessTotal(a: string, b: string)
    ensures Less(a, b) || Less(b, a) || a == b
  {
    if a != [] && b != [] && a[0] == b[0] {
      LessTotal(a[1..], b[1..]);
      if a[1..] == b[1..] {
        assert a == [a[0]] + a[1..] && b == [b[0]] + b[1..];
      }
    }
  }

  lemma {:induction false} LessAsymmetric(a: string, b: string)
    requires Less(a, b)
    ensures !Less(b, a) && a != b
  {
    if a != [] && a[0] == b[0] {
      LessAsymmetric(a[1..], b[1..]);
    }
  }

  lemma {:induction false} LessTransitive(a: string, b: string, c: string)
    requires Less(a, b) && Less(b, c)
    ensures Less(a, c)
  {
    if a != [] && a[0] == b[0] == c[0] {
      LessTransitive(a[1..], b[1..], c[1..]);
    }
  }

  ghost predicate Ascends(s: seq<Name>) {
    forall i, j :: 0 <= i < j < |s| ==> Before(s[i], s[j])
  }

  function Insert(x: Name, s: seq<Name>): (r: seq<Name>)
    ensures multiset(r) == multiset{x} + multiset(s)
    ensures forall y :: y in r <==> y == x || y in s
  {
    if s == [] then [x]
    else if Before(s[0], x) then
      assert s == [s[0]] + s[1..];
      [s[0]] + Insert(x, s[1..])
    else [x] + s
  }

  lemma {:induction false} InsertAscends(x: Name, s: seq<Name>)
    requires Ascends(s) && x !in s
    ensures Ascends(Insert(x, s))
  {
    if s != [] {
      LessTotal(s[0].text, x.text);
      if Before(s[0], x) {
        InsertAscends(x, s[1..]);
        var rest := Insert(x, s[1..]);
        forall j | 0 <= j < |rest| ensures Before(s[0], rest[j]) {
          assert rest[j] in rest;
        }
      } else {
        forall j | 0 <= j < |s| ensures Before(x, s[j]) {
          if j > 0 {
            LessTransitive(x.text, s[0].text, s[j].text);
          }
        }
      }
    }
  }

  /** What slices.Sort does to a slice of names. */
  function SortNames(s: seq<Name>): (r: seq<Name>)
    ensures multiset(r) == multiset(s)
    ensures forall y :: y in r <==> y in s
  {
    if s == [] then []
    else
      assert s == [s[0]] + s[1..];
      Insert(s[0], SortNames(s[1..]))
  }

  lemma {:induction false} SortNamesAscends(s: seq<Name>)
    requires NoDup(s)
    ensures Ascends(SortNames(s))
  {
    if s != [] {
      SortNamesAscends(s[1..]);
      InsertAscends(s[0], SortNames(s[1..]));
    }
  }

  /** The one ascending arrangement of a set of names. */
  ghost function Sorted(names: set<Name>): seq<Name> {
    if names == {} then [] else
      var x :| x in names;
      Insert(x, Sorted(names - {x}))
  }

  lemma {:induction false} SortedArranges(names: set<Name>)
    ensures Ascends(Sorted(names))
    ensures forall x :: x in Sorted(names) <==> x in names
  {
    if names != {} {
      var x :| x in names && Sorted(names) == Insert(x, Sorted(names - {x}));
      SortedArranges(names - {x});
      InsertAscends(x, Sorted(names - {x}));
    }
  }

  /** Sorting removes every trace of the order in which a map was iterated. */
  lemma {:induction false} AscendingUnique(a: seq<Name>, b: seq<Name>)
    requires Ascends(a) && Ascends(b)
    requires forall x :: x in a <==> x in b
    ensures a == b
  {
    EmptyTogether(a, b);
    if a != [] {
      HeadIsLeast(a, b);
      forall x ensures x in a[1..] <==> x in b[1..] {
        TailOf(a, x);
        TailOf(b, x);
      }
      AscendingUnique(a[1..], b[1..]);
      assert a == [a[0]] + a[1..] && b == [b[0]] + b[1..];
    }
  }

  lemma EmptyTogether(a: seq<Name>, b: seq<Name>)
    requires forall x :: x in a <==> x in b
    ensures a == [] <==> b == []
  {
    if a != [] {
      assert a[0] in b;
    }
    if b != [] {
      assert b[0] in a;
    }
  }

  lemma HeadIsLeast(a: seq<Name>, b: seq<Name>)
    requires Ascends(a) && Ascends(b) && a != [] && b != []
    requires forall x :: x in a <==> x in b
    ensures a[0] == b[0]
  {
    assert a[0] in b && b[0] in a;
    var i :| 0 <= i < |b| && b[i] == a[0];
    var j :| 0 <= j < |a| && a[j] == b[0];
    if i > 0 && j > 0 {
      LessAsymmetric(b[0].text, b[i].text);
    }
  }

  lemma TailOf(s: seq<Name>, x: Name)
    requires Ascends(s) && s != []
    ensures x in s[1..] <==> x in s && x != s[0]
  {
    if x in s[1..] {
      var i :| 0 <= i < |s[1..]| && s[1..][i] == x;
      LessAsymmetric(s[0].text, s[i + 1].text);
    }
    if x in s && x != s[0] {
      var i :| 0 <= i < |s| && s[i] == x;
      assert s[1..][i - 1] == x;
    }
  }

  lemma AscendsNoDup(s: seq<Name>)
    requires Ascends(s)
    ensures NoDup(s)
  {
    forall i, j | 0 <= i < j < |s| ensures s[i] != s[j] {
      LessAsymmetric(s[i].text, s[j].text);
    }
  }

  lemma {:induction false} RestrictAscends(s: seq<Name>, keep: set<Name>)
    requires Ascends(s)
    ensures Ascends(Restrict(s, keep))
  {
    if s != [] {
      RestrictAscends(s[1..], keep);
      var rest := Restrict(s[1..], keep);
      RestrictElements(s[1..], keep);
      forall j | 0 <= j < |rest| ensures Before(s[0], rest[j]) {
        assert rest[j] in rest;
        var i :| 0 <= i < |s[1..]| && s[1..][i] == rest[j];
        assert s[i + 1] == rest[j];
      }
    }
  }

  // ----- dependency chains --------------------------------------------------------------------

  /** a declares b as a dependency. */
  predicate DependsOn(g: Graph, a: Name, b: Name) {
    a in g && b in g[a]
  }

  /** Every declared dependency is registered. */
  ghost predicate Closed(g: Graph) {
    forall a, b :: DependsOn(g, a, b) ==> b in g
  }

  /** g' results from g by registering more modules: old modules keep their dependencies. */
  ghost predicate Extends(g': Graph, g: Graph) {
    forall a :: a in g ==> a in g' && g'[a] == g[a]
  }

  /** A dependency chain: each name declares the next one. */
  ghost predicate Chain(g: Graph, p: seq<Name>) {
    && p != []
    && (forall i :: 0 <= i < |p| ==> p[i] in g)
    && (forall i :: 0 <= i < |p| - 1 ==> DependsOn(g, p[i], p[i + 1]))
  }

  ghost predicate ChainFrom(g: Graph, n: Name, p: seq<Name>) {
    Chain(g, p) && p[0] == n
  }

  /** a depends on b, directly or through other modules. */
  ghost predicate Reaches(g: Graph, a: Name, b: Name) {
    exists p :: ChainFrom(g, a, p) && |p| >= 2 && p[|p| - 1] == b
  }

  /** A closed dependency path. */
  ghost predicate Cycle(g: Graph, p: seq<Name>) {
    Chain(g, p) && |p| >= 2 && p[0] == p[|p| - 1]
  }

  ghost predicate Acyclic(g: Graph) {
    forall p :: !Cycle(g, p)
  }

  /** The longest dependency chain leaving n has h steps. */
  ghost predicate Height(g: Graph, n: Name, h: nat) {
    && (exists p :: ChainFrom(g, n, p) && |p| == h + 1)
    && (forall p :: ChainFrom(g, n, p) ==> |p| <= h + 1)
  }

  lemma ChainSuffix(g: Graph, p: seq<Name>, i: nat)
    requires Chain(g, p) && i < |p|
    ensures Chain(g, p[i..])
  {
  }

  lemma ChainCons(g: Graph, n: Name, p: seq<Name>)
    requires Chain(g, p) && DependsOn(g, n, p[0])
    ensures ChainFrom(g, n, [n] + p)
  {
  }

  lemma ChainStep(g: Graph, p: seq<Name>)
    requires Chain(g, p) && |p| >= 2
    ensures DependsOn(g, p[0], p[1]) && Chain(g, p[1..])
  {
  }

  lemma ChainBack(g: Graph, p: seq<Name>)
    requires |p| >= 2 && DependsOn(g, p[0], p[1]) && Chain(g, p[1..])
    ensures Chain(g, p)
  {
  }

  /** To reach a registered module is to declare it, or to declare one that reaches it. */
  lemma ReachesMeans(g: Graph, a: Name, b: Name)
    ensures Reaches(g, a, b) <==>
      (DependsOn(g, a, b) && b in g) || exists d :: DependsOn(g, a, d) && Reaches(g, d, b)
  {
    if DependsOn(g, a, b) && b in g {
      assert ChainFrom(g, a, [a, b]);
    } else if d :| DependsOn(g, a, d) && Reaches(g, d, b) {
      var p :| ChainFrom(g, d, p) && |p| >= 2 && p[|p| - 1] == b;
      ChainCons(g, a, p);
    }
    if Reaches(g, a, b) {
      var p :| ChainFrom(g, a, p) && |p| >= 2 && p[|p| - 1] == b;
      ChainStep(g, p);
      assert |p| > 2 ==> ChainFrom(g, p[1], p[1..]);
    }
  }

  /** From a registered module of a closed graph, later registrations add no chains and remove none. */
  lemma {:induction false} ChainStable(g: Graph, g': Graph, p: seq<Name>)
    requires Closed(g) && Extends(g', g) && p != [] && p[0] in g
    ensures Chain(g, p) <==> Chain(g', p)
  {
    if |p| >= 2 {
      if Chain(g, p) {
        ChainStep(g, p);
        ChainStable(g, g', p[1..]);
        ChainBack(g', p);
      }
      if Chain(g', p) {
        ChainStep(g', p);
        assert DependsOn(g, p[0], p[1]);
        ChainStable(g, g', p[1..]);
        ChainBack(g, p);
      }
    }
  }

  /** Anything that holds of a module's direct dependencies whenever it holds of the module, holds of all it reaches. */
  lemma {:induction false} AlongChain(g: Graph, p: seq<Name>, up: set<Name>)
    requires Chain(g, p) && p[0] in up
    requires forall a, b :: DependsOn(g, a, b) && a in up ==> b in up
    ensures forall i :: 0 <= i < |p| ==> p[i] in up
  {
    if |p| >= 2 {
      ChainSuffix(g, p, 1);
      assert DependsOn(g, p[0], p[0 + 1]);
      AlongChain(g, p[1..], up);
      forall i | 0 <= i < |p| ensures p[i] in up {
        if i > 0 {
          assert p[i] == p[1..][i - 1];
        }
      }
    }
  }

  // ----- pigeonhole ---------------------------------------------------------------------------

  lemma {:induction false} NoDupFits(s: seq<Name>, bag: set<Name>)
    requires NoDup(s) && forall x :: x in s ==> x in bag
    ensures |s| <= |bag|
  {
    if s != [] {
      forall x | x in s[1..] ensures x in bag - {s[0]} {
        assert x in s;
      }
      NoDupFits(s[1..], bag - {s[0]});
    }
  }
}
