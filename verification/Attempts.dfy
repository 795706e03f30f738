/** Start attempts over whole runs: exact compensation while others register, and refused starts that leave no trace. */
module Attempts {
  import opened Basics
  import opened Graphs
  import opened Orchestration
  import opened RunSafety

  // ----- calls that are over ------------------------------------------------------------------

  lemma SpentStays(s: State, a: Action, t: Thread)
    requires Enabled(s, a) && t in s.threads && Spent(s.threads[t])
    ensures t in Apply(s, a).threads && Spent(Apply(s, a).threads[t])
  {
  }

  lemma {:induction false} SpentForever(s: State, acts: seq<Action>, s': State, disciplined: bool, t: Thread)
    requires Leads(s, acts, s', disciplined) && t in s.threads && Spent(s.threads[t])
    ensures t in s'.threads && Spent(s'.threads[t])
    decreases |acts|
  {
    if acts != [] {
      SpentStays(s, acts[0], t);
      SpentForever(Apply(s, acts[0]), acts[1..], s', disciplined, t);
    }
  }

  // ----- refused starts -----------------------------------------------------------------------

  /** The state without any trace of t. */
  function Sans(s: State, t: Thread): State {
    s.(threads := s.threads - {t})
  }

  lemma StepSans(s: State, a: Action, t: Thread)
    requires Enabled(s, a) && t in s.threads && s.threads[t].Returned?
    ensures Enabled(Sans(s, t), a) && Apply(Sans(s, t), a) == Sans(Apply(s, a), t)
    ensures t in Apply(s, a).threads && Apply(s, a).threads[t].Returned?
    ensures Disciplined(s, a) ==> Disciplined(Sans(s, t), a)
  {
    if !a.Register? {
      assert a.t != t;
      var s' := Apply(s, a);
      assert a.t in s'.threads && s'.threads == s.threads[a.t := s'.threads[a.t]];
      assert Sans(s', t).threads == Sans(s, t).threads[a.t := s'.threads[a.t]];
    }
  }

  lemma {:induction false} RunSans(s: State, acts: seq<Action>, s': State, disciplined: bool, t: Thread)
    requires Leads(s, acts, s', disciplined) && t in s.threads && s.threads[t].Returned?
    ensures t in s'.threads && s'.threads[t].Returned? && Leads(Sans(s, t), acts, Sans(s', t), disciplined)
    decreases |acts|
  {
    if acts != [] {
      StepSans(s, acts[0], t);
      RunSans(Apply(s, acts[0]), acts[1..], s', disciplined, t);
    }
  }

  /**
   * A refused Start is invisible: it never takes another step, and what the others do after it they can do without it,
   * with the same effect on the modules, the list and the state.
   */
  lemma RefusedStartIsHarmless(s: State, t: Thread, acts: seq<Action>, s': State, disciplined: bool)
    requires t !in s.threads && !((s.mode.Created? || s.mode.Stopped?) && s.started == [])
    requires Leads(Apply(s, CallStart(t)), acts, s', disciplined)
    ensures forall a: Action :: !a.Register? && a.t == t ==> !Enabled(s', a)
    ensures Leads(s, acts, s'.(threads := s'.threads - {t}), disciplined)
  {
    RunSans(Apply(s, CallStart(t)), acts, s', disciplined, t);
    assert Sans(Apply(s, CallStart(t)), t) == s;
  }

  // ----- compensation over runs ---------------------------------------------------------------

  function Bit(b: bool): nat {
    if b then 1 else 0
  }

  /** Calls into a module, counted by what they left behind. */
  ghost predicate Tallied(done: multiset<Event>, n: Name, was: Status, now: Status) {
    && done[InitDone(n, true)] + Bit(was == Up) == done[DestroyBegun(n)] + Bit(now == Up)
    && done[DestroyBegun(n)] + Bit(was == Falling) ==
       done[DestroyDone(n, true)] + done[DestroyDone(n, false)] + Bit(now == Falling)
  }

  lemma TalliedOn(done: multiset<Event>, n: Name, was: Status, mid: Status, e: Event)
    requires Tallied(done, n, was, mid) && (e.name == n ==> Legal(mid, e))
    ensures Tallied(done + multiset{e}, n, was, if n == e.name then Next(e) else mid)
  {
  }

  ghost predicate Alternates(log: seq<Event>) {
    log == [] || (Alternates(log[..|log| - 1])
      && Legal(StatusOf(log[..|log| - 1], log[|log| - 1].name), log[|log| - 1]))
  }

  lemma {:induction false} OrderlyAlternates(g: Graph, log: seq<Event>, k: nat)
    requires Orderly(g, log) && k <= |log|
    ensures Alternates(log[..k])
  {
    if k > 0 {
      OrderlyAlternates(g, log, k - 1);
      assert log[..k][..k - 1] == log[..k - 1] && log[..k][k - 1] == log[k - 1];
    }
  }

  lemma {:induction false} Balance(log: seq<Event>, from: nat, n: Name)
    requires Alternates(log) && from <= |log|
    ensures Tallied(multiset(log[from..]), n, StatusOf(log[..from], n), StatusOf(log, n))
    decreases |log|
  {
    if from == |log| {
      assert log[..from] == log && log[from..] == [];
    } else {
      var init, e := log[..|log| - 1], log[|log| - 1];
      Balance(init, from, n);
      TalliedOn(multiset(init[from..]), n, StatusOf(init[..from], n), StatusOf(init, n), e);
      assert init[..from] == log[..from] && log[from..] == init[from..] + [e];
    }
  }

  lemma OrderlyBalance(g: Graph, log: seq<Event>, from: nat, n: Name)
    requires Orderly(g, log) && from <= |log|
    ensures Tallied(multiset(log[from..]), n, StatusOf(log[..from], n), StatusOf(log, n))
  {
    OrderlyAlternates(g, log, |log|);
    assert log[..|log|] == log;
    Balance(log, from, n);
  }

  predicate Climbing(pc: Pc) {
    pc.Claimed? || pc.PlanFailed? || pc.Raising? || pc.RaisingLayer?
  }

  /**
   * What has been logged since from is an attempt's: each module up at most once, and none destroyed while it climbs.
   */
  ghost predicate OneAttempt(log: seq<Event>, from: nat, climbing: bool) {
    && from <= |log|
    && (forall n :: StatusOf(log[..from], n) == Down)
    && (climbing ==> forall n :: multiset(log[from..])[DestroyBegun(n)] == 0)
    && (forall n :: multiset(log[from..])[InitDone(n, true)] <= 1)
  }

  lemma OneAttemptOn(g: Graph, log: seq<Event>, from: nat, climbing: bool, e: Event)
    requires OneAttempt(log, from, climbing) && Orderly(g, log + [e])
    requires if climbing then !e.DestroyBegun? else !e.InitDone?
    ensures OneAttempt(log + [e], from, climbing)
  {
    var more := log + [e];
    assert more[..from] == log[..from] && more[from..] == log[from..] + [e];
    if climbing {
      forall n ensures multiset(more[from..])[InitDone(n, true)] <= 1 {
        OrderlyBalance(g, more, from, n);
      }
    }
  }

  /** t is on a start attempt that claimed the manager when the log was from long. */
  ghost predicate Underway(s: State, t: Thread, from: nat) {
    && t in s.threads && !Spent(s.threads[t])
    && (Climbing(s.threads[t]) || RollingBack(s.threads[t]))
    && OneAttempt(s.log, from, Climbing(s.threads[t]))
  }

  /** Nobody else calls modules while an attempt is under way. */
  lemma OwnCalls(s: State, t: Thread, a: Action)
    requires Core(s, Some(t)) && Enabled(s, a) && IsCall(a)
    ensures a.t == t
    ensures if a.BeginInit? || a.EndInit? then s.threads[t].RaisingLayer? else s.threads[t].LoweringLayer?
    ensures Climbing(Apply(s, a).threads[t]) == Climbing(s.threads[t])
    ensures RollingBack(Apply(s, a).threads[t]) == RollingBack(s.threads[t])
  {
    CallsAreLegal(s, Some(t), a);
    assert !s.threads[a.t].tasks[a.n].Retired?;
    assert !Spent(s.threads[a.t]);
  }

  lemma QuietStaysUnderway(s: State, t: Thread, from: nat, a: Action)
    requires Core(s, Some(t)) && Underway(s, t, from) && Enabled(s, a) && !IsCall(a)
    requires t in Apply(s, a).threads && !Spent(Apply(s, a).threads[t])
    ensures Underway(Apply(s, a), t, from)
  {
    QuietGoesOn(s, t, a);
    if !a.Register? {
      LogUntouched(s, a);
    }
  }

  lemma QuietGoesOn(s: State, t: Thread, a: Action)
    requires Enabled(s, a) && !IsCall(a) && t in s.threads && (Climbing(s.threads[t]) || RollingBack(s.threads[t]))
    requires t in Apply(s, a).threads && !Spent(Apply(s, a).threads[t])
    ensures var pc := Apply(s, a).threads[t];
      (Climbing(pc) && Climbing(s.threads[t])) || (RollingBack(pc) && !Climbing(pc))
  {
  }

  lemma CallStaysUnderway(s: State, t: Thread, from: nat, a: Action)
    requires Core(s, Some(t)) && Orderly(s.nodes, s.log) && Underway(s, t, from)
    requires Enabled(s, a) && Disciplined(s, a) && IsCall(a)
    requires t in Apply(s, a).threads && !Spent(Apply(s, a).threads[t])
    ensures Underway(Apply(s, a), t, from)
  {
    CallsAreLegal(s, Some(t), a);
    OwnCalls(s, t, a);
    LogKeeps(s, Some(t), a);
    OneAttemptOn(s.nodes, s.log, from, Climbing(s.threads[t]), EventOf(a));
  }

  lemma {:induction false} StaysUnderway(s: State, t: Thread, from: nat, acts: seq<Action>, s': State)
    requires Core(s, Some(t)) && Orderly(s.nodes, s.log) && Underway(s, t, from)
    requires Leads(s, acts, s', true) && t in s'.threads && !Spent(s'.threads[t])
    ensures Core(s', Some(t)) && Orderly(s'.nodes, s'.log) && Underway(s', t, from)
    decreases |acts|
  {
    if acts != [] {
      var a, next := acts[0], Apply(s, acts[0]);
      StepKeeps(s, Some(t), a);
      LogKeeps(s, Some(t), a);
      ThreadsRemain(s, a, t);
      if Spent(next.threads[t]) {
        SpentForever(next, acts[1..], s', true, t);
        assert false;
      }
      if IsCall(a) {
        CallStaysUnderway(s, t, from, a);
      } else {
        QuietStaysUnderway(s, t, from, a);
      }
      StaysUnderway(next, t, from, acts[1..], s');
    }
  }

  lemma ThreadsRemain(s: State, a: Action, t: Thread)
    requires Enabled(s, a) && t in s.threads
    ensures t in Apply(s, a).threads
  {
  }

  /**
   * A start attempt that ends in a rollback, with anything registered meanwhile: from its claim to its end each module
   * is destroyed exactly as often as its Init succeeded, which is at most once, and every Destroy begun has returned.
   */
  lemma RollbackCompensates(s: State, t: Thread, acts: seq<Action>, s1: State, a: Action, n: Name)
    requires Reachable(s) && t !in s.threads && MayStart(s)
    requires Leads(Apply(s, CallStart(t)), acts, s1, true) && Enabled(s1, a) && Disciplined(s1, a)
    requires t in s1.threads && RollingBack(s1.threads[t]) && !Spent(s1.threads[t]) && Spent(Apply(s1, a).threads[t])
    ensures |s.log| <= |Apply(s1, a).log|
    ensures var during := multiset(Apply(s1, a).log[|s.log|..]);
      && during[DestroyBegun(n)] == during[InitDone(n, true)] <= 1
      && during[DestroyDone(n, true)] + during[DestroyDone(n, false)] == during[DestroyBegun(n)]
  {
    ClaimIsUnderway(s, t);
    StaysUnderway(Apply(s, CallStart(t)), t, |s.log|, acts, s1);
    RollbackEnds(s1, t, a);
    OrderlyBalance(s1.nodes, s1.log, |s.log|, n);
  }

  lemma ClaimIsUnderway(s: State, t: Thread)
    requires Reachable(s) && t !in s.threads && MayStart(s)
    ensures var s' := Apply(s, CallStart(t));
      Core(s', Some(t)) && Orderly(s'.nodes, s'.log) && Underway(s', t, |s.log|)
  {
    ClaimFindsRest(s);
    var owner := ReachableCore(s);
    EmptyMeansIdle(s, owner);
    CallStartKeeps(s, owner, t);
    assert s.log[..|s.log|] == s.log && s.log[|s.log|..] == [];
  }
}
