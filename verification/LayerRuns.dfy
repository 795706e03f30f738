/** One layer over whole runs: whatever the schedule, the list and the answers come out as the modules' answers say. */
module LayerRuns {
  import opened Basics
  import opened Graphs
  import opened Orchestration
  import opened RunSafety
  import opened Attempts

  /** The event of a call's return: of Init on the way up, of Destroy on the way down. */
  function Answer(up: bool, n: Name, ok: bool): Event {
    if up then InitDone(n, ok) else DestroyDone(n, ok)
  }

  function Call(up: bool, n: Name): Event {
    if up then InitBegun(n) else DestroyBegun(n)
  }

  /** The tasks of a layer that is through, as the calls logged since tell. */
  function Verdicts(names: set<Name>, since: seq<Event>, up: bool): map<Name, Task> {
    map n | n in names :: Retired(Answer(up, n, true) in since)
  }

  /** The answers among the tasks are those logged since the log was from long. */
  ghost predicate Told(tasks: map<Name, Task>, log: seq<Event>, from: nat, up: bool) {
    && from <= |log|
    && (forall n, ok: bool :: n in tasks ==>
          (Answer(up, n, ok) in log[from..] <==> tasks[n] == Answered(ok) || tasks[n] == Retired(ok)))
  }

  lemma ToldAll(tasks: map<Name, Task>, log: seq<Event>, from: nat, up: bool)
    requires Told(tasks, log, from, up) && AllRetired(tasks)
    ensures tasks == Verdicts(tasks.Keys, log[from..], up)
  {
    forall n | n in tasks ensures tasks[n] == Retired(Answer(up, n, true) in log[from..]) {
      assert tasks[n] == Retired(tasks[n].ok);
    }
  }

  lemma ToldCall(tasks: map<Name, Task>, log: seq<Event>, from: nat, n: Name, up: bool)
    requires Told(tasks, log, from, up) && n in tasks && tasks[n] == Spawned
    ensures Told(tasks[n := Calling], log + [Call(up, n)], from, up)
  {
    assert (log + [Call(up, n)])[from..] == log[from..] + [Call(up, n)];
  }

  lemma ToldAnswer(tasks: map<Name, Task>, log: seq<Event>, from: nat, n: Name, ok: bool, up: bool)
    requires Told(tasks, log, from, up) && n in tasks && tasks[n] == Calling
    ensures Told(tasks[n := Answered(ok)], log + [Answer(up, n, ok)], from, up)
  {
    assert (log + [Answer(up, n, ok)])[from..] == log[from..] + [Answer(up, n, ok)];
  }

  lemma ToldRetire(tasks: map<Name, Task>, log: seq<Event>, from: nat, n: Name, up: bool)
    requires Told(tasks, log, from, up) && n in tasks && tasks[n].Answered?
    ensures Told(tasks[n := Retired(tasks[n].ok)], log, from, up)
  {
  }

  /** While t is in progress nobody else touches the list or calls modules. */
  lemma OthersStandBy(s: State, t: Thread, a: Action)
    requires Core(s, Some(t)) && Enabled(s, a) && Disciplined(s, a) && (a.Register? || a.t != t)
    ensures Apply(s, a).started == s.started && Apply(s, a).log == s.log
    ensures t in Apply(s, a).threads && Apply(s, a).threads[t] == s.threads[t]
  {
    if !a.Register? && a.t in s.threads {
      assert Spent(s.threads[a.t]);
    }
  }

  // ----- a layer on its way down --------------------------------------------------------------

  function Dropped(tasks: map<Name, Task>): set<Name> {
    set n | n in tasks && tasks[n].Retired?
  }

  /** t is in the layer with rest still to come, which began with base started and the log from long. */
  ghost predicate Descending(s: State, t: Thread, names: set<Name>, rest: seq<seq<Name>>, base: seq<Name>, from: nat) {
    && t in s.threads && s.threads[t].LoweringLayer?
    && s.threads[t].rest == rest && s.threads[t].tasks.Keys == names
    && s.started == Without(base, Dropped(s.threads[t].tasks))
    && Told(s.threads[t].tasks, s.log, from, false)
  }

  /** t has left every layer with len or more still to come. */
  predicate Below(pc: Pc, len: nat) {
    match pc
    case Returned => true
    case Lowering(rest, _) => |rest| <= len
    case LoweringLayer(_, rest, _) => |rest| < len
    case _ => false
  }

  lemma BelowStays(s: State, a: Action, t: Thread, len: nat)
    requires Enabled(s, a) && t in s.threads && Below(s.threads[t], len)
    ensures t in Apply(s, a).threads && Below(Apply(s, a).threads[t], len)
  {
  }

  lemma {:induction false} BelowForever(s: State, acts: seq<Action>, s': State, t: Thread, len: nat)
    requires Leads(s, acts, s', true) && t in s.threads && Below(s.threads[t], len)
    ensures t in s'.threads && Below(s'.threads[t], len)
    decreases |acts|
  {
    if acts != [] {
      BelowStays(s, acts[0], t, len);
      BelowForever(Apply(s, acts[0]), acts[1..], s', t, len);
    }
  }

  lemma DropDescends(s: State, t: Thread, names: set<Name>, rest: seq<seq<Name>>, base: seq<Name>, from: nat, n: Name)
    requires Descending(s, t, names, rest, base, from) && Enabled(s, Drop(t, n))
    ensures Descending(Apply(s, Drop(t, n)), t, names, rest, base, from)
  {
    var tasks := s.threads[t].tasks;
    var tasks' := tasks[n := Retired(tasks[n].ok)];
    ToldRetire(tasks, s.log, from, n, false);
    WithoutTwice(base, Dropped(tasks), {n});
    assert Dropped(tasks') == Dropped(tasks) + {n};
  }

  lemma CallDescends(s: State, t: Thread, names: set<Name>, rest: seq<seq<Name>>, base: seq<Name>, from: nat, a: Action)
    requires Descending(s, t, names, rest, base, from) && Enabled(s, a) && (a.BeginDestroy? || a.EndDestroy?)
      && a.t == t
    ensures Descending(Apply(s, a), t, names, rest, base, from)
  {
    var tasks := s.threads[t].tasks;
    match a {
      case BeginDestroy(_, n) =>
        ToldCall(tasks, s.log, from, n, false);
        assert Dropped(tasks[n := Calling]) == Dropped(tasks);
      case EndDestroy(_, n, ok) =>
        ToldAnswer(tasks, s.log, from, n, ok, false);
        assert Dropped(tasks[n := Answered(ok)]) == Dropped(tasks);
    }
  }

  lemma StepDescends(s: State, t: Thread, names: set<Name>, rest: seq<seq<Name>>, base: seq<Name>, from: nat, a: Action)
    requires Core(s, Some(t)) && Descending(s, t, names, rest, base, from)
    requires Enabled(s, a) && Disciplined(s, a)
    ensures Descending(Apply(s, a), t, names, rest, base, from) || Below(Apply(s, a).threads[t], |rest|)
  {
    if a.Register? || a.t != t {
      OthersStandBy(s, t, a);
    } else if a.Drop? {
      DropDescends(s, t, names, rest, base, from, a.n);
    } else if a.BeginDestroy? || a.EndDestroy? {
      CallDescends(s, t, names, rest, base, from, a);
    }
  }

  lemma {:induction false} RunDescends(s: State, t: Thread, names: set<Name>, rest: seq<seq<Name>>, base: seq<Name>,
                                       from: nat,
                                       acts: seq<Action>, s': State)
    requires Core(s, Some(t)) && Descending(s, t, names, rest, base, from)
    requires Leads(s, acts, s', true) && t in s'.threads && !Spent(s'.threads[t])
    requires s'.threads[t].LoweringLayer? && s'.threads[t].rest == rest
    ensures Core(s', Some(t)) && Descending(s', t, names, rest, base, from)
    decreases |acts|
  {
    if acts != [] {
      var next := Apply(s, acts[0]);
      ThreadsRemain(s, acts[0], t);
      StepKeeps(s, Some(t), acts[0]);
      StepDescends(s, t, names, rest, base, from, acts[0]);
      if Spent(next.threads[t]) {
        SpentForever(next, acts[1..], s', true, t);
      }
      if Below(next.threads[t], |rest|) {
        BelowForever(next, acts[1..], s', t, |rest|);
      }
      RunDescends(next, t, names, rest, base, from, acts[1..], s');
    }
  }

  /**
   * However the goroutines of a teardown layer are scheduled, and whatever the other callers do meanwhile: when the
   * last of them drops its module, the list has lost exactly the layer, and the outcome of every module is what its
   * Destroy answered.
   */
  lemma LayerGoesDown(s: State, t: Thread, acts: seq<Action>, s1: State, n: Name)
    requires Reachable(s) && t in s.threads && s.threads[t].Lowering? && s.threads[t].rest != []
    requires Leads(Apply(s, NextTeardown(t, false)), acts, s1, true) && Enabled(s1, Drop(t, n))
    requires s1.threads[t].rest == s.threads[t].rest[1..] && AllRetired(Apply(s1, Drop(t, n)).threads[t].tasks)
    ensures var layer, s2 := Elements(s.threads[t].rest[0]), Apply(s1, Drop(t, n));
      && s2.started == Without(s.started, layer) && |s.log| <= |s2.log|
      && s2.threads[t].tasks.Keys == layer
      && forall m, ok: bool :: m in layer ==>
           (s2.threads[t].tasks[m] == Retired(ok) <==> DestroyDone(m, ok) in s2.log[|s.log|..])
  {
    var owner := ReachableCore(s);
    assert owner == Some(t);
    DescentBegins(s, t);
    assert !s1.threads[t].tasks[n].Retired?;
    var names, rest := Elements(s.threads[t].rest[0]), s.threads[t].rest[1..];
    RunDescends(Apply(s, NextTeardown(t, false)), t, names, rest, s.started, |s.log|, acts, s1);
    DropDescends(s1, t, names, rest, s.started, |s.log|, n);
    DescentEnds(Apply(s1, Drop(t, n)), t, names, rest, s.started, |s.log|);
  }

  lemma DescentEnds(s: State, t: Thread, names: set<Name>, rest: seq<seq<Name>>, base: seq<Name>, from: nat)
    requires Descending(s, t, names, rest, base, from) && AllRetired(s.threads[t].tasks)
    ensures s.started == Without(base, names) && s.threads[t].tasks.Keys == names
    ensures forall n, ok: bool :: n in names ==>
      (s.threads[t].tasks[n] == Retired(ok) <==> DestroyDone(n, ok) in s.log[from..])
  {
    assert Dropped(s.threads[t].tasks) == names;
    assert forall n, ok: bool :: Answer(false, n, ok) == DestroyDone(n, ok);
  }

  lemma DescentBegins(s: State, t: Thread)
    requires Core(s, Some(t)) && s.threads[t].Lowering? && s.threads[t].rest != []
    ensures var s', pc := Apply(s, NextTeardown(t, false)), s.threads[t];
      Core(s', Some(t)) && Descending(s', t, Elements(pc.rest[0]), pc.rest[1..], s.started, |s.log|)
  {
    var pc := s.threads[t];
    NextTeardownKeeps(s, t, false);
    TeardownBegins(s, t);
    TeardownLayerKnown(s.nodes, pc.rest);
    var tasks := Spawn(Elements(pc.rest[0]) * s.nodes.Keys);
    assert tasks.Keys == Elements(pc.rest[0]);
    assert s.log[|s.log|..] == [] && Dropped(tasks) == {};
    WithoutNone(s.started, {});
  }

  // ----- a layer on its way up ----------------------------------------------------------------

  /** The list has grown by exactly the modules of the layer that came up and have been listed, each once. */
  ghost predicate Listed(base: seq<Name>, started: seq<Name>, tasks: map<Name, Task>) {
    && base <= started && NoDup(started[|base|..])
    && (forall n :: n in started[|base|..] <==> n in tasks && tasks[n] == Retired(true))
  }

  ghost predicate Ascending(s: State, t: Thread, names: set<Name>, rest: seq<seq<Name>>, base: seq<Name>, from: nat) {
    && t in s.threads && s.threads[t].RaisingLayer?
    && s.threads[t].rest == rest && s.threads[t].tasks.Keys == names
    && Listed(base, s.started, s.threads[t].tasks)
    && Told(s.threads[t].tasks, s.log, from, true)
  }

  /** t has left every layer with len or more still to come. */
  predicate Beyond(pc: Pc, len: nat) {
    match pc
    case Claimed => false
    case PlanFailed => false
    case Raising(rest) => |rest| <= len
    case RaisingLayer(_, rest) => |rest| < len
    case _ => true
  }

  lemma BeyondStays(s: State, a: Action, t: Thread, len: nat)
    requires Enabled(s, a) && t in s.threads && Beyond(s.threads[t], len)
    ensures t in Apply(s, a).threads && Beyond(Apply(s, a).threads[t], len)
  {
  }

  lemma {:induction false} BeyondForever(s: State, acts: seq<Action>, s': State, t: Thread, len: nat)
    requires Leads(s, acts, s', true) && t in s.threads && Beyond(s.threads[t], len)
    ensures t in s'.threads && Beyond(s'.threads[t], len)
    decreases |acts|
  {
    if acts != [] {
      BeyondStays(s, acts[0], t, len);
      BeyondForever(Apply(s, acts[0]), acts[1..], s', t, len);
    }
  }

  lemma ListedAppend(base: seq<Name>, started: seq<Name>, tasks: map<Name, Task>, n: Name)
    requires Listed(base, started, tasks) && n in tasks && tasks[n].Answered?
    ensures var ok := tasks[n].ok;
      Listed(base, if ok then started + [n] else started, tasks[n := Retired(ok)])
  {
    assert (started + [n])[|base|..] == started[|base|..] + [n];
  }

  lemma AppendAscends(s: State, t: Thread, names: set<Name>, rest: seq<seq<Name>>, base: seq<Name>, from: nat, n: Name)
    requires Ascending(s, t, names, rest, base, from) && Enabled(s, Append(t, n))
    ensures Ascending(Apply(s, Append(t, n)), t, names, rest, base, from)
  {
    ListedAppend(base, s.started, s.threads[t].tasks, n);
    ToldRetire(s.threads[t].tasks, s.log, from, n, true);
  }

  lemma CallAscends(s: State, t: Thread, names: set<Name>, rest: seq<seq<Name>>, base: seq<Name>, from: nat, a: Action)
    requires Ascending(s, t, names, rest, base, from) && Enabled(s, a) && (a.BeginInit? || a.EndInit?) && a.t == t
    ensures Ascending(Apply(s, a), t, names, rest, base, from)
  {
    match a {
      case BeginInit(_, n) => ToldCall(s.threads[t].tasks, s.log, from, n, true);
      case EndInit(_, n, ok) => ToldAnswer(s.threads[t].tasks, s.log, from, n, ok, true);
    }
  }

  lemma StepAscends(s: State, t: Thread, names: set<Name>, rest: seq<seq<Name>>, base: seq<Name>, from: nat, a: Action)
    requires Core(s, Some(t)) && Ascending(s, t, names, rest, base, from)
    requires Enabled(s, a) && Disciplined(s, a)
    ensures Ascending(Apply(s, a), t, names, rest, base, from) || Beyond(Apply(s, a).threads[t], |rest|)
  {
    if a.Register? || a.t != t {
      OthersStandBy(s, t, a);
    } else if a.Append? {
      AppendAscends(s, t, names, rest, base, from, a.n);
    } else if a.BeginInit? || a.EndInit? {
      CallAscends(s, t, names, rest, base, from, a);
    }
  }

  lemma {:induction false} RunAscends(s: State, t: Thread, names: set<Name>, rest: seq<seq<Name>>, base: seq<Name>,
                                      from: nat,
                                      acts: seq<Action>, s': State)
    requires Core(s, Some(t)) && Ascending(s, t, names, rest, base, from)
    requires Leads(s, acts, s', true) && t in s'.threads
    requires s'.threads[t].RaisingLayer? && s'.threads[t].rest == rest
    ensures Ascending(s', t, names, rest, base, from)
    decreases |acts|
  {
    if acts != [] {
      var next := Apply(s, acts[0]);
      ThreadsRemain(s, acts[0], t);
      StepKeeps(s, Some(t), acts[0]);
      StepAscends(s, t, names, rest, base, from, acts[0]);
      if Spent(next.threads[t]) {
        SpentForever(next, acts[1..], s', true, t);
      }
      if Beyond(next.threads[t], |rest|) {
        BeyondForever(next, acts[1..], s', t, |rest|);
      }
      RunAscends(next, t, names, rest, base, from, acts[1..], s');
    }
  }

  lemma AscentBegins(s: State, t: Thread)
    requires Core(s, Some(t)) && s.threads[t].Raising? && s.threads[t].rest != []
    ensures var s', pc := Apply(s, NextLayer(t, false)), s.threads[t];
      Core(s', Some(t)) && Ascending(s', t, Elements(pc.rest[0]), pc.rest[1..], s.started, |s.log|)
  {
    NextLayerKeeps(s, t, false);
    assert Spawn(Elements(s.threads[t].rest[0])).Keys == Elements(s.threads[t].rest[0]);
    assert s.log[|s.log|..] == [] && s.started[|s.started|..] == [];
  }

  lemma AscentEnds(s: State, t: Thread, names: set<Name>, rest: seq<seq<Name>>, base: seq<Name>, from: nat)
    requires Ascending(s, t, names, rest, base, from) && AllRetired(s.threads[t].tasks)
    ensures base <= s.started && NoDup(s.started[|base|..])
    ensures forall n :: n in s.started[|base|..] <==> n in names && InitDone(n, true) in s.log[from..]
    ensures (exists n :: n in s.threads[t].tasks && s.threads[t].tasks[n] == Retired(false)) <==>
      exists n :: n in names && InitDone(n, false) in s.log[from..]
  {
    var tasks := s.threads[t].tasks;
    ToldAll(tasks, s.log, from, true);
    assert forall n, ok: bool :: Answer(true, n, ok) == InitDone(n, ok);
    forall n | n in tasks ensures tasks[n] == Retired(true) || tasks[n] == Retired(false) {
      assert tasks[n] == Retired(tasks[n].ok);
    }
    if n :| n in names && InitDone(n, false) in s.log[from..] {
      assert Answer(true, n, false) in s.log[from..];
      assert tasks[n] == Retired(false);
    }
    if n :| n in tasks && tasks[n] == Retired(false) {
      assert Answer(true, n, false) in s.log[from..];
    }
  }

  /**
   * However the goroutines of a start layer are scheduled, and whatever the other callers do meanwhile: when the layer
   * is joined the list has grown by exactly the modules whose Init answered nil, and the start goes on if and only if
   * all did.
   */
  lemma LayerComesUp(s: State, t: Thread, acts: seq<Action>, s1: State)
    requires Reachable(s) && t in s.threads && s.threads[t].Raising? && s.threads[t].rest != []
    requires Leads(Apply(s, NextLayer(t, false)), acts, s1, true) && Enabled(s1, JoinStart(t))
    requires s1.threads[t].rest == s.threads[t].rest[1..]
    ensures s.started <= s1.started && |s.log| <= |s1.log|
    ensures var layer, up, since := Elements(s.threads[t].rest[0]), s1.started[|s.started|..], s1.log[|s.log|..];
      && NoDup(up) && (forall n :: n in up <==> n in layer && InitDone(n, true) in since)
      && Apply(s1, JoinStart(t)).threads[t] ==
         if exists n :: n in layer && InitDone(n, false) in since then Aborting else Raising(s.threads[t].rest[1..])
  {
    var owner := ReachableCore(s);
    assert owner == Some(t);
    AscentBegins(s, t);
    var names, rest := Elements(s.threads[t].rest[0]), s.threads[t].rest[1..];
    RunAscends(Apply(s, NextLayer(t, false)), t, names, rest, s.started, |s.log|, acts, s1);
    AscentEnds(s1, t, names, rest, s.started, |s.log|);
  }
}
