/**
 The two views of the connections meet: running operations one after the other
 is one of the interleavings, and what interleavings add is that handles leak
 in more configurations.
 */
module Schedules {
  import opened Prelude
  import opened Pools
  import opened Operations
  import opened RetryLoops
  import opened SequentialRuns
  import opened Interleaving

  lemma {:induction false} ExecAppend(sys: System, cfg: Config, a: seq<Action>, b: seq<Action>)
    requires Exec(sys, cfg, a).Some?
    ensures Exec(sys, cfg, a + b) == Exec(Exec(sys, cfg, a).value, cfg, b)
    decreases |a|
  {
    hide Next;
    if a == [] {
      assert a + b == b;
    } else {
      assert (a + b)[0] == a[0] && (a + b)[1..] == a[1..] + b;
      ExecAppend(Next(sys, cfg, a[0]).value, cfg, a[1..], b);
    }
  }

  lemma ExecOne(sys: System, cfg: Config, a: Action)
    ensures Exec(sys, cfg, [a]) == Next(sys, cfg, a)
  {
    hide Next;
    if Next(sys, cfg, a).Some? {
      assert Exec(Next(sys, cfg, a).value, cfg, [a][1..]) == Next(sys, cfg, a);
    }
  }

  lemma ExecThen(sys: System, cfg: Config, actions: seq<Action>, a: Action)
    requires Exec(sys, cfg, actions).Some?
    ensures Exec(sys, cfg, actions + [a]) == Next(Exec(sys, cfg, actions).value, cfg, a)
  {
    hide Next;
    ExecAppend(sys, cfg, actions, [a]);
    ExecOne(Exec(sys, cfg, actions).value, cfg, a);
  }

  /** One attempt to reconnect, with the use of the new handle if it succeeds. */
  function Attempt(t: nat, ok: bool): seq<Action> {
    if ok then [Redial(t, true), CloseOld(t), StoreNew(t), Use(t)] else [Redial(t, false)]
  }

  /** The k attempts of goroutine t that begin with the d-th call to connect, with nobody in between. */
  function Reconnects(w: World, t: nat, d: nat, k: nat): seq<Action>
    decreases k
  {
    if k == 0 then [] else Attempt(t, w.dial(d).None?) + Reconnects(w, t, d + 1, k - 1)
  }

  lemma ExecReconnect(sys: System, cfg: Config, t: nat, key: Key, conn: CachedConnection, left: int)
    requires t < |sys.threads| && sys.threads[t].phase == Working(key, conn, left, None) && left > 0
    ensures var end := Exec(sys, cfg, [Redial(t, true), CloseOld(t), StoreNew(t), Use(t)]);
      && end.Some? && end.value.pool == Replace(sys.pool, conn, sys.threads[t].task.args, key)
      && end.value.threads == sys.threads[t := sys.threads[t].(phase := Working(key, conn, left - 1, None))]
  {
    hide DefaultKey, KeyWithArgs, TaskKey;
    var a, b, c, u := Redial(t, true), CloseOld(t), StoreNew(t), Use(t);
    ExecOne(sys, cfg, a);
    ExecThen(sys, cfg, [a], b);
    ExecThen(sys, cfg, [a] + [b], c);
    ExecThen(sys, cfg, [a] + [b] + [c], u);
    assert [a] + [b] + [c] + [u] == [a, b, c, u];
  }

  lemma ExecAttempt(sys: System, cfg: Config, t: nat, key: Key, conn: CachedConnection, left: int, ok: bool)
    requires t < |sys.threads| && sys.threads[t].phase == Working(key, conn, left, None) && left > 0
    ensures var end := Exec(sys, cfg, Attempt(t, ok));
      && end.Some?
      && end.value.pool == (if ok then Replace(sys.pool, conn, sys.threads[t].task.args, key) else sys.pool)
      && end.value.threads == sys.threads[t := sys.threads[t].(phase := Working(key, conn, left - 1, None))]
  {
    hide Exec, Replace;
    if ok {
      ExecReconnect(sys, cfg, t, key, conn, left);
    } else {
      ExecOne(sys, cfg, Redial(t, false));
    }
  }

  /** Every attempt uses up a round, also the refused ones. */
  lemma {:induction false} ExecReconnects(w: World, sys: System, cfg: Config, t: nat, key: Key, conn: CachedConnection, left: int, d: nat, k: nat)
    requires t < |sys.threads| && sys.threads[t].phase == Working(key, conn, left, None) && (k == 0 || k <= left)
    ensures var end := Exec(sys, cfg, Reconnects(w, t, d, k));
      && end.Some? && end.value.pool == ReplaceTimes(sys.pool, conn, sys.threads[t].task.args, key, Opens(w, d, k))
      && end.value.threads == sys.threads[t := sys.threads[t].(phase := Working(key, conn, left - k, None))]
    decreases k
  {
    hide Next, Replace, Attempt;
    if k == 0 {
      assert sys.threads[t := sys.threads[t].(phase := Working(key, conn, left, None))] == sys.threads;
    } else {
      var ok := w.dial(d).None?;
      ExecAttempt(sys, cfg, t, key, conn, left, ok);
      ExecReconnects(w, Exec(sys, cfg, Attempt(t, ok)).value, cfg, t, key, conn, left - 1, d + 1, k - 1);
      ExecAppend(sys, cfg, Attempt(t, ok), Reconnects(w, t, d + 1, k - 1));
      OpensCons(w, d, k);
    }
  }

  /** The steps after the default entry, for a query with arguments of its own. */
  function KeyedSteps(w: World, net: Net, cfg: Config, task: Task, t: nat): seq<Action> {
    if KeyWithArgs(cfg, task.args) in net.pool.cache then [LoadKeyed(t)]
    else if w.dial(net.clock.dials).Some? then [LoadKeyed(t), ConnectFirst(t, false)]
    else [LoadKeyed(t), ConnectFirst(t, true), StoreFirst(t)]
  }

  /** The steps of goroutine t until it has its connection, for the outcome the lookup had. */
  function LookupSteps(w: World, net: Net, cfg: Config, task: Task, t: nat): seq<Action> {
    [Spawn(task), LoadDefault(t)] +
    (if NotAllowed(cfg, task) || DefaultKey(cfg.uid) !in net.pool.cache || UsesDefault(cfg, task) then []
     else KeyedSteps(w, net, cfg, task, t))
  }

  /** The goroutine ends up as the lookup says, with its whole retry loop ahead of it. */
  predicate LookupDone(phase: Phase, lookup: Lookup, cfg: Config) {
    if lookup.Found? then phase == Working(lookup.key, lookup.conn, cfg.retries, Some(lookup.conn.db))
    else phase.Finished? || phase.MissedDefault?
  }

  lemma ExecLookup(w: World, net: Net, cfg: Config, args: bytes, sys: System)
    requires sys.pool == net.pool
    ensures var (lookup, got) := GetConnection(w, net, cfg, args);
      var end := Exec(sys, cfg, LookupSteps(w, net, cfg, Query(args), |sys.threads|));
      && end.Some? && end.value.pool == got.pool && |end.value.threads| == |sys.threads| + 1
      && end.value.threads[..|sys.threads|] == sys.threads
      && end.value.threads[|sys.threads|].task == Query(args)
      && LookupDone(end.value.threads[|sys.threads|].phase, lookup, cfg)
  {
    hide DefaultKey, KeyWithArgs;
    var task, t := Query(args), |sys.threads|;
    ExecStart(sys, cfg, task);
    var start := [Spawn(task), LoadDefault(t)];
    assert start + [] == start;
    if !(NotAllowed(cfg, task) || DefaultKey(cfg.uid) !in net.pool.cache || UsesDefault(cfg, task)) {
      ExecKeyed(w, net, cfg, task, Exec(sys, cfg, start).value, t);
      ExecAppend(sys, cfg, start, KeyedSteps(w, net, cfg, task, t));
    }
  }

  lemma ExecStart(sys: System, cfg: Config, task: Task)
    ensures var end := Exec(sys, cfg, [Spawn(task), LoadDefault(|sys.threads|)]);
      && end.Some? && end.value.pool == sys.pool
      && end.value.threads == sys.threads + [Thread(task, AfterLoadDefault(sys, cfg, task))]
  {
    hide DefaultKey, KeyWithArgs;
    var t := |sys.threads|;
    ExecOne(sys, cfg, Spawn(task));
    ExecThen(sys, cfg, [Spawn(task)], LoadDefault(t));
    assert [Spawn(task)] + [LoadDefault(t)] == [Spawn(task), LoadDefault(t)];
    var sys1 := Next(sys, cfg, Spawn(task)).value;
    assert AfterLoadDefault(sys1, cfg, task) == AfterLoadDefault(sys, cfg, task);
  }

  lemma ExecKeyed(w: World, net: Net, cfg: Config, task: Task, sys: System, t: nat)
    requires sys.pool == net.pool && t < |sys.threads| && task.Query?
    requires !NotAllowed(cfg, task) && !UsesDefault(cfg, task) && DefaultKey(cfg.uid) in net.pool.cache
    requires sys.threads[t] == Thread(task, LookingUp(net.pool.cache[DefaultKey(cfg.uid)].settings))
    ensures var (lookup, got) := GetConnection(w, net, cfg, task.args);
      var end := Exec(sys, cfg, KeyedSteps(w, net, cfg, task, t));
      && end.Some? && end.value.pool == got.pool && |end.value.threads| == |sys.threads|
      && end.value.threads[..t] == sys.threads[..t]
      && end.value.threads[t].task == task && LookupDone(end.value.threads[t].phase, lookup, cfg)
  {
    hide DefaultKey, KeyWithArgs;
    ExecOne(sys, cfg, LoadKeyed(t));
    if KeyWithArgs(cfg, task.args) !in net.pool.cache {
      var ok := w.dial(net.clock.dials).None?;
      ExecThen(sys, cfg, [LoadKeyed(t)], ConnectFirst(t, ok));
      assert [LoadKeyed(t)] + [ConnectFirst(t, ok)] == [LoadKeyed(t), ConnectFirst(t, ok)];
      if ok {
        ExecThen(sys, cfg, [LoadKeyed(t), ConnectFirst(t, ok)], StoreFirst(t));
        assert [LoadKeyed(t), ConnectFirst(t, ok)] + [StoreFirst(t)] == [LoadKeyed(t), ConnectFirst(t, ok), StoreFirst(t)];
      }
    }
  }

  /** Whether a connection is found, and whether it is used before any reconnect. */
  predicate FindsOne(w: World, net: Net, cfg: Config, task: Task) {
    match task
    case Query(args) => GetConnection(w, net, cfg, args).0.Found?
    case HealthCheck(_) => DefaultKey(cfg.uid) in net.pool.cache
  }

  predicate UsesFirst(w: World, net: Net, cfg: Config, task: Task) {
    FindsOne(w, net, cfg, task) && (task.Query? || cfg.retries == 0)
  }

  /** The steps after the lookup: use what was found, then every attempt of the retry loop, then finish. */
  function WorkSteps(w: World, net: Net, cfg: Config, task: Task, t: nat): seq<Action> {
    var ready := SequentialRuns.Ready(w, net, cfg, task);
    var k := Attempts(ready, Do(w, net, cfg, task));
    (if UsesFirst(w, net, cfg, task) then [Use(t)] else [])
    + Reconnects(w, t, ready.clock.dials, if k < 0 then 0 else k) + [Finish(t)]
  }

  /** The steps of a goroutine that runs alone. */
  function Alone(w: World, net: Net, cfg: Config, task: Task, t: nat): seq<Action> {
    LookupSteps(w, net, cfg, task, t) + if FindsOne(w, net, cfg, task) then WorkSteps(w, net, cfg, task, t) else []
  }

  /** It is over, and nobody else has moved. */
  predicate OverAndAlone(sys: System, end: System) {
    && |end.threads| == |sys.threads| + 1 && end.threads[..|sys.threads|] == sys.threads
    && (end.threads[|sys.threads|].phase.Finished? || end.threads[|sys.threads|].phase.MissedDefault?)
  }

  /** One operation by itself does to the handles and the cache what its steps do in the interleaving view, refused reconnects included. */
  lemma OperationIsSchedule(w: World, net: Net, cfg: Config, task: Task, sys: System)
    requires sys.pool == net.pool
    ensures var end := Exec(sys, cfg, Alone(w, net, cfg, task, |sys.threads|));
      && end.Some? && end.value.pool == Do(w, net, cfg, task).pool && OverAndAlone(sys, end.value)
  {
    match task
    case Query(args) => QueryIsSchedule(w, net, cfg, args, sys);
    case HealthCheck(args) => HealthIsSchedule(w, net, cfg, args, sys);
  }

  /** From a found connection on: `k` attempts, and the goroutine is through. */
  lemma ExecWork(w: World, sys: System, cfg: Config, t: nat, key: Key, conn: CachedConnection, left: int, use: bool, d: nat, k: nat)
    requires t < |sys.threads| && (k == 0 || k <= left)
    requires sys.threads[t].phase == Working(key, conn, left, if use then Some(conn.db) else None)
    ensures var end := Exec(sys, cfg, (if use then [Use(t)] else []) + Reconnects(w, t, d, k) + [Finish(t)]);
      && end.Some? && end.value.pool == ReplaceTimes(sys.pool, conn, sys.threads[t].task.args, key, Opens(w, d, k))
      && end.value.threads == sys.threads[t := sys.threads[t].(phase := Finished)]
  {
    hide Exec, ReplaceTimes, Reconnects;
    var first := if use then [Use(t)] else [];
    NoActions(sys, cfg);
    ExecOne(sys, cfg, Use(t));
    var ready := Exec(sys, cfg, first).value;
    ExecReconnects(w, ready, cfg, t, key, conn, left, d, k);
    ExecAppend(sys, cfg, first, Reconnects(w, t, d, k));
    ExecThen(sys, cfg, first + Reconnects(w, t, d, k), Finish(t));
  }

  lemma NoActions(sys: System, cfg: Config)
    ensures Exec(sys, cfg, []) == Some(sys)
  {
  }

  lemma QueryIsSchedule(w: World, net: Net, cfg: Config, args: bytes, sys: System)
    requires sys.pool == net.pool
    ensures var end := Exec(sys, cfg, Alone(w, net, cfg, Query(args), |sys.threads|));
      && end.Some? && end.value.pool == HandleQuery(w, net, cfg, args).1.pool && OverAndAlone(sys, end.value)
  {
    hide GetConnection, HandleQuery, Next, Exec, LookupSteps, DefaultKey, KeyWithArgs, ReplaceTimes, Reconnects;
    var t := |sys.threads|;
    var (lookup, got) := GetConnection(w, net, cfg, args);
    var steps := LookupSteps(w, net, cfg, Query(args), t);
    ExecLookup(w, net, cfg, args, sys);
    HandleQueryRun(w, net, cfg, args);
    var found := Exec(sys, cfg, steps).value;
    if lookup.Found? {
      var k := Attempts(got, HandleQuery(w, net, cfg, args).1);
      ExecWork(w, found, cfg, t, lookup.key, lookup.conn, cfg.retries, true, got.clock.dials, k);
      ExecAppend(sys, cfg, steps, WorkSteps(w, net, cfg, Query(args), t));
    } else {
      assert steps + [] == steps;
    }
  }

  lemma HealthIsSchedule(w: World, net: Net, cfg: Config, args: bytes, sys: System)
    requires sys.pool == net.pool
    ensures var end := Exec(sys, cfg, Alone(w, net, cfg, HealthCheck(args), |sys.threads|));
      && end.Some? && end.value.pool == Operations.Connect(w, net, cfg, args).1.pool && OverAndAlone(sys, end.value)
  {
    hide Next, Exec, PingRetry, DefaultKey, KeyWithArgs, ReplaceTimes, Reconnects;
    var task, t, key := HealthCheck(args), |sys.threads|, DefaultKey(cfg.uid);
    var steps := [Spawn(task), LoadDefault(t)];
    assert steps + [] == steps;
    assert LookupSteps(w, net, cfg, task, t) == steps;
    ExecStart(sys, cfg, task);
    if key in net.pool.cache {
      var found := Exec(sys, cfg, steps).value;
      var conn := net.pool.cache[key];
      var k := Attempts(net, Operations.Connect(w, net, cfg, args).1);
      HealthRun(w, net, cfg, conn, args);
      ExecWork(w, found, cfg, t, key, conn, cfg.retries, cfg.retries == 0, net.clock.dials, k);
      ExecAppend(sys, cfg, steps, WorkSteps(w, net, cfg, task, t));
    }
  }

  predicate AllOver(sys: System) {
    forall t :: 0 <= t < |sys.threads| ==> sys.threads[t].phase.Finished? || sys.threads[t].phase.MissedDefault?
  }

  lemma StillOver(sys: System, end: System)
    requires OverAndAlone(sys, end)
    ensures AllOver(sys) ==> AllOver(end)
  {
    forall t | 0 <= t < |end.threads|
      ensures t < |sys.threads| ==> end.threads[t] == sys.threads[t]
    {
      if t < |sys.threads| {
        assert end.threads[..|sys.threads|][t] == end.threads[t];
      }
    }
  }

  lemma {:induction false} RunIsSchedule(w: World, net: Net, cfg: Config, tasks: seq<Task>, sys: System) returns (actions: seq<Action>)
    requires sys.pool == net.pool
    ensures var end := Exec(sys, cfg, actions);
      && end.Some? && end.value.pool == DoAll(w, net, cfg, tasks).pool
      && (AllOver(sys) ==> AllOver(end.value))
    decreases |tasks|
  {
    hide Do, Alone, Next, AllOver, OverAndAlone;
    if tasks == [] {
      actions := [];
    } else {
      var first := Alone(w, net, cfg, tasks[0], |sys.threads|);
      OperationIsSchedule(w, net, cfg, tasks[0], sys);
      var rest := RunIsSchedule(w, Do(w, net, cfg, tasks[0]), cfg, tasks[1..], Exec(sys, cfg, first).value);
      actions := first + rest;
      ExecAppend(sys, cfg, first, rest);
      StillOver(sys, Exec(sys, cfg, first).value);
    }
  }

  /** Every sequential run is an interleaving in which all goroutines finish, so what holds of all interleavings holds of it. */
  lemma SequentialRunIsReachable(w: World, cfg: Config, boot: Settings, tasks: seq<Task>)
    ensures exists sys :: Reachable(sys, cfg, boot) && AllFinished(sys) && sys.pool == DoAll(w, Boot(cfg, boot), cfg, tasks).pool
  {
    hide DefaultKey, DoAll;
    assert Initial(cfg, boot).pool == Boot(cfg, boot).pool;
    var actions := RunIsSchedule(w, Boot(cfg, boot), cfg, tasks, Initial(cfg, boot));
    var sys := Exec(Initial(cfg, boot), cfg, actions).value;
    assert Reachable(sys, cfg, boot);
    hide Reachable, Initial;
    DefaultIsNeverMissing(sys, cfg, boot);
  }

  // ---------- leaks that only interleaving brings ----------

  predicate AllFinished(sys: System) {
    forall t :: 0 <= t < |sys.threads| ==> sys.threads[t].phase.Finished?
  }

  /** However goroutines interleave, once all have finished no handle is lost. */
  ghost predicate NeverLeaksConcurrently(cfg: Config, boot: Settings) {
    forall sys :: Reachable(sys, cfg, boot) && AllFinished(sys) ==> NoLeak(sys.pool)
  }

  /** With one connection and no retries nothing is ever opened, closed or stored. */
  ghost predicate Untouched(sys: System, cfg: Config, boot: Settings) {
    && sys.pool == Initial(cfg, boot).pool
    && forall t :: 0 <= t < |sys.threads| ==>
         var p := sys.threads[t].phase;
         p.Started? || p.Finished? || p.MissedDefault? || (p.Working? && p.left <= 0)
  }

  lemma UntouchedKept(sys: System, cfg: Config, boot: Settings, a: Action)
    requires cfg.retries <= 0 && !cfg.multiple
    requires Untouched(sys, cfg, boot) && Next(sys, cfg, a).Some?
    ensures Untouched(Next(sys, cfg, a).value, cfg, boot)
  {
    hide DefaultKey, KeyWithArgs;
  }

  lemma {:induction false} StaysUntouched(sys: System, cfg: Config, boot: Settings, actions: seq<Action>)
    requires cfg.retries <= 0 && !cfg.multiple
    requires Untouched(sys, cfg, boot) && Exec(sys, cfg, actions).Some?
    ensures Untouched(Exec(sys, cfg, actions).value, cfg, boot)
    decreases |actions|
  {
    hide Next, Untouched;
    if actions != [] {
      UntouchedKept(sys, cfg, boot, actions[0]);
      StaysUntouched(Next(sys, cfg, actions[0]).value, cfg, boot, actions[1..]);
    }
  }

  lemma ReachableStep(sys: System, cfg: Config, boot: Settings, a: Action)
    requires Reachable(sys, cfg, boot) && Next(sys, cfg, a).Some?
    ensures Reachable(Next(sys, cfg, a).value, cfg, boot)
  {
    hide Next, Initial;
    var actions :| Exec(Initial(cfg, boot), cfg, actions) == Some(sys);
    ExecThen(Initial(cfg, boot), cfg, actions, a);
  }

  lemma ReachableStart(cfg: Config, boot: Settings)
    ensures Reachable(Initial(cfg, boot), cfg, boot)
  {
    hide Initial;
    assert Exec(Initial(cfg, boot), cfg, []) == Some(Initial(cfg, boot));
  }

  /** Two goroutines on the same task, both past their first load. */
  lemma TwoStarted(cfg: Config, boot: Settings, task: Task) returns (sys: System)
    requires !NotAllowed(cfg, task)
    ensures Reachable(sys, cfg, boot) && sys.pool == Initial(cfg, boot).pool && sys.home == Initial(cfg, boot).home
    ensures var key, conn := DefaultKey(cfg.uid), CachedConnection(0, boot);
      var p := if UsesDefault(cfg, task) then ReadyPhase(cfg, task, key, conn) else LookingUp(boot);
      sys.threads == [Thread(task, p), Thread(task, p)]
  {
    hide DefaultKey, KeyWithArgs, Reachable;
    var s0 := Initial(cfg, boot);
    ReachableStart(cfg, boot);
    ReachableStep(s0, cfg, boot, Spawn(task));
    var s1 := Next(s0, cfg, Spawn(task)).value;
    ReachableStep(s1, cfg, boot, Spawn(task));
    var s2 := Next(s1, cfg, Spawn(task)).value;
    ReachableStep(s2, cfg, boot, LoadDefault(0));
    var s3 := Next(s2, cfg, LoadDefault(0)).value;
    ReachableStep(s3, cfg, boot, LoadDefault(1));
    sys := Next(s3, cfg, LoadDefault(1)).value;
  }

  /** Both goroutines take one step after the other. */
  lemma BothStep(sys: System, cfg: Config, boot: Settings, a: Action, b: Action) returns (sys': System)
    requires Reachable(sys, cfg, boot)
    requires Next(sys, cfg, a).Some? && Next(Next(sys, cfg, a).value, cfg, b).Some?
    ensures Reachable(sys', cfg, boot) && sys' == Next(Next(sys, cfg, a).value, cfg, b).value
  {
    hide Next, Reachable;
    ReachableStep(sys, cfg, boot, a);
    ReachableStep(Next(sys, cfg, a).value, cfg, boot, b);
    sys' := Next(Next(sys, cfg, a).value, cfg, b).value;
  }

  /** Two queries with the same new arguments both miss the cache and both connect. */
  lemma BothConnect(cfg: Config, boot: Settings, task: Task) returns (sys: System)
    requires cfg.multiple && HashLength(cfg) && task == Query(EMPTY_OBJECT)
    ensures Reachable(sys, cfg, boot) && sys.pool.cache == map[DefaultKey(cfg.uid) := CachedConnection(0, boot)]
    ensures |sys.pool.openings| == 3 && sys.pool.closed == {}
    ensures sys.threads == [Thread(task, StoringFirst(1, boot)), Thread(task, StoringFirst(2, boot))]
  {
    DefaultKeyIsApart(cfg, EMPTY_OBJECT);
    hide DefaultKey, KeyWithArgs, Reachable, HashLength;
    var s := TwoStarted(cfg, boot, task);
    s := BothStep(s, cfg, boot, LoadKeyed(0), LoadKeyed(1));
    assert s.threads == [Thread(task, Connecting(boot)), Thread(task, Connecting(boot))];
    sys := BothStep(s, cfg, boot, ConnectFirst(0, true), ConnectFirst(1, true));
  }

  /** The second store then loses the first handle. */
  lemma FirstConnectionsRace(cfg: Config, boot: Settings) returns (sys: System)
    requires cfg.multiple && HashLength(cfg)
    ensures Reachable(sys, cfg, boot) && AllFinished(sys) && !NoLeak(sys.pool)
  {
    hide DefaultKey, KeyWithArgs, Reachable, NoLeak, HashLength;
    var task := Query(EMPTY_OBJECT);
    var key := KeyWithArgs(cfg, EMPTY_OBJECT);
    var s := BothConnect(cfg, boot, task);
    s := BothStep(s, cfg, boot, StoreFirst(0), StoreFirst(1));
    var c1, c2 := CachedConnection(1, boot), CachedConnection(2, boot);
    assert s.threads == [Thread(task, ReadyPhase(cfg, task, key, c1)), Thread(task, ReadyPhase(cfg, task, key, c2))];
    s := BothStep(s, cfg, boot, Use(0), Use(1));
    sys := BothStep(s, cfg, boot, Finish(0), Finish(1));
    OneIsLost(sys.pool);
  }

  /** Two health checks that start from the same handle both reconnect and close it. */
  lemma BothReplace(cfg: Config, boot: Settings, task: Task) returns (sys: System)
    requires cfg.retries >= 1 && task == HealthCheck([])
    ensures Reachable(sys, cfg, boot) && sys.pool.cache == map[DefaultKey(cfg.uid) := CachedConnection(0, boot)]
    ensures |sys.pool.openings| == 3 && sys.pool.closed == {0}
    ensures var key, conn := DefaultKey(cfg.uid), CachedConnection(0, boot);
      sys.threads == [Thread(task, Storing(key, conn, cfg.retries, 1)), Thread(task, Storing(key, conn, cfg.retries, 2))]
  {
    hide DefaultKey, KeyWithArgs, Reachable;
    var key, conn := DefaultKey(cfg.uid), CachedConnection(0, boot);
    var s := TwoStarted(cfg, boot, task);
    s := BothStep(s, cfg, boot, Redial(0, true), Redial(1, true));
    assert s.threads == [Thread(task, Closing(key, conn, cfg.retries, 1)), Thread(task, Closing(key, conn, cfg.retries, 2))];
    sys := BothStep(s, cfg, boot, CloseOld(0), CloseOld(1));
  }

  /** The second store then loses the first one's handle. */
  lemma ReconnectsRace(cfg: Config, boot: Settings) returns (sys: System)
    requires cfg.retries >= 1
    ensures Reachable(sys, cfg, boot) && AllFinished(sys) && !NoLeak(sys.pool)
  {
    hide DefaultKey, KeyWithArgs, Reachable, NoLeak;
    var s := BothReplace(cfg, boot, HealthCheck([]));
    s := BothStep(s, cfg, boot, StoreNew(0), StoreNew(1));
    assert s.pool.cache == map[DefaultKey(cfg.uid) := CachedConnection(2, boot)];
    s := BothStep(s, cfg, boot, Use(0), Use(1));
    sys := BothStep(s, cfg, boot, Finish(0), Finish(1));
    OneIsLost(sys.pool);
  }

  lemma OneIsLost(pool: Pool)
    requires |pool.openings| == 3 && 1 !in pool.closed
    requires forall k :: k in pool.cache ==> pool.cache[k].db != 1
    ensures !NoLeak(pool)
  {
  }

  /**
   Unlike sequential runs, which leak exactly from two retries on, interleaved
   ones are free of leaks exactly with no retries and a single connection.
   */
  lemma ConcurrentLeaksExactly(cfg: Config, boot: Settings)
    requires HashLength(cfg)
    ensures NeverLeaksConcurrently(cfg, boot) <==> cfg.retries <= 0 && !cfg.multiple
  {
    hide DefaultKey, KeyWithArgs, NoLeak, Next, AllFinished;
    if cfg.multiple {
      var sys := FirstConnectionsRace(cfg, boot);
    } else if cfg.retries >= 1 {
      var sys := ReconnectsRace(cfg, boot);
    } else {
      forall sys | Reachable(sys, cfg, boot) && AllFinished(sys)
        ensures NoLeak(sys.pool)
      {
        var actions :| Exec(Initial(cfg, boot), cfg, actions) == Some(sys);
        StaysUntouched(Initial(cfg, boot), cfg, boot, actions);
        InitialNoLeak(cfg, boot);
      }
    }
  }

  lemma InitialNoLeak(cfg: Config, boot: Settings)
    ensures NoLeak(Initial(cfg, boot).pool)
  {
    hide DefaultKey;
    var pool := Initial(cfg, boot).pool;
    assert DefaultKey(cfg.uid) in pool.cache && pool.cache[DefaultKey(cfg.uid)].db == 0;
  }

  // ---------- how much leaks ----------

  predicate Dials(a: Action) {
    (a.ConnectFirst? || a.Redial?) && a.ok
  }

  /** The successful connects of a schedule. */
  function DialCount(actions: seq<Action>): nat
    decreases |actions|
  {
    if actions == [] then 0 else (if Dials(actions[0]) then 1 else 0) + DialCount(actions[1..])
  }

  lemma NextOpens(sys: System, cfg: Config, a: Action)
    requires Next(sys, cfg, a).Some?
    ensures |Next(sys, cfg, a).value.pool.openings| == |sys.pool.openings| + (if Dials(a) then 1 else 0)
  {
    hide DefaultKey, KeyWithArgs, TaskKey, AfterLoadDefault;
  }

  lemma {:induction false} ExecOpens(sys: System, cfg: Config, actions: seq<Action>)
    requires Exec(sys, cfg, actions).Some?
    ensures |Exec(sys, cfg, actions).value.pool.openings| == |sys.pool.openings| + DialCount(actions)
    decreases |actions|
  {
    hide Next, Dials;
    if actions != [] {
      NextOpens(sys, cfg, actions[0]);
      ExecOpens(Next(sys, cfg, actions[0]).value, cfg, actions[1..]);
    }
  }

  /**
   The exact loss of any schedule at a moment when no goroutine is about to
   store: every successful connect that is neither closed nor cached.
   */
  lemma QuietAccounts(cfg: Config, boot: Settings, actions: seq<Action>, sys: System)
    requires Exec(Initial(cfg, boot), cfg, actions) == Some(sys)
    requires forall t :: !HasNewAt(sys, t)
    ensures |Orphans(sys.pool)| == 1 + DialCount(actions) - |sys.pool.closed| - |sys.pool.cache|
    ensures NoLeak(sys.pool) <==> |sys.pool.closed| + |sys.pool.cache| == 1 + DialCount(actions)
  {
    hide Exec, DefaultKey, Healthy, Orphans, NoLeak;
    assert Reachable(sys, cfg, boot);
    assert forall t :: 0 <= t < |sys.threads| && sys.threads[t].phase.Storing? ==> HasNewAt(sys, t);
    QuietCacheIsOpen(sys, cfg, boot);
    ExecOpens(Initial(cfg, boot), cfg, actions);
    OrphanCount(sys.pool, cfg, boot);
    NoLeakIsNoOrphan(sys.pool, cfg, boot);
  }

  // ---------- closed handles in use ----------

  /** The handle goroutine t is about to run its query on, or to ping, has been closed. */
  predicate UsesClosed(sys: System, t: int) {
    && 0 <= t < |sys.threads| && sys.threads[t].phase.Working?
    && sys.threads[t].phase.inUse.Some? && sys.threads[t].phase.inUse.value in sys.pool.closed
  }

  /** The same after a reconnect of its own: the handle it has just opened is already closed. */
  predicate RetriesOnClosed(sys: System, cfg: Config, t: int) {
    UsesClosed(sys, t) && sys.threads[t].phase.left < cfg.retries
  }

  ghost predicate NeverUsesClosed(cfg: Config, boot: Settings) {
    forall sys, t :: Reachable(sys, cfg, boot) ==> !UsesClosed(sys, t)
  }

  ghost predicate NeverRetriesOnClosed(cfg: Config, boot: Settings) {
    forall sys, t :: Reachable(sys, cfg, boot) ==> !RetriesOnClosed(sys, cfg, t)
  }

  /** Without retries nothing is ever closed. */
  ghost predicate NothingClosed(sys: System) {
    && sys.pool.closed == {}
    && forall t :: 0 <= t < |sys.threads| ==>
         var p := sys.threads[t].phase;
         !p.Closing? && !p.Storing? && (p.Working? ==> p.left <= 0)
  }

  lemma NothingClosedKept(sys: System, cfg: Config, a: Action)
    requires cfg.retries <= 0 && NothingClosed(sys) && Next(sys, cfg, a).Some?
    ensures NothingClosed(Next(sys, cfg, a).value)
  {
    hide DefaultKey, KeyWithArgs;
  }

  lemma {:induction false} NothingEverClosed(sys: System, cfg: Config, actions: seq<Action>)
    requires cfg.retries <= 0 && NothingClosed(sys) && Exec(sys, cfg, actions).Some?
    ensures NothingClosed(Exec(sys, cfg, actions).value)
    decreases |actions|
  {
    hide Next, NothingClosed;
    if actions != [] {
      NothingClosedKept(sys, cfg, actions[0]);
      NothingEverClosed(Next(sys, cfg, actions[0]).value, cfg, actions[1..]);
    }
  }

  /** Two queries start from the same handle, and one closes it before the other has used it. */
  lemma ClosedUnderfoot(cfg: Config, boot: Settings) returns (sys: System)
    requires cfg.retries >= 1
    ensures Reachable(sys, cfg, boot) && UsesClosed(sys, 1) && sys.threads[1].phase.left == cfg.retries
  {
    hide DefaultKey, KeyWithArgs, Reachable;
    var task, key, conn := Query([]), DefaultKey(cfg.uid), CachedConnection(0, boot);
    var s := TwoStarted(cfg, boot, task);
    ReachableStep(s, cfg, boot, Use(0));
    s := Next(s, cfg, Use(0)).value;
    sys := BothStep(s, cfg, boot, Redial(0, true), CloseOld(0));
    assert sys.threads[1] == Thread(task, ReadyPhase(cfg, task, key, conn));
  }

  /** One query has reconnected, and its retry is about to run. */
  lemma OneRedialed(cfg: Config, boot: Settings) returns (sys: System)
    requires cfg.retries >= 1
    ensures Reachable(sys, cfg, boot) && |sys.pool.openings| == 2 && sys.pool.closed == {0}
    ensures var key, conn := DefaultKey(cfg.uid), CachedConnection(0, boot);
      && sys.pool.cache == map[key := CachedConnection(1, boot)]
      && sys.threads == [Thread(Query([]), Working(key, conn, cfg.retries - 1, Some(1)))]
  {
    hide DefaultKey, KeyWithArgs, Reachable;
    ReachableStart(cfg, boot);
    var s := BothStep(Initial(cfg, boot), cfg, boot, Spawn(Query([])), LoadDefault(0));
    s := BothStep(s, cfg, boot, Use(0), Redial(0, true));
    sys := BothStep(s, cfg, boot, CloseOld(0), StoreNew(0));
  }

  /** A second query finds the new handle, and closes it in a reconnect of its own before that retry. */
  lemma ClosedBeforeRetry(cfg: Config, boot: Settings) returns (sys: System)
    requires cfg.retries >= 1
    ensures Reachable(sys, cfg, boot) && RetriesOnClosed(sys, cfg, 0)
  {
    hide DefaultKey, KeyWithArgs, Reachable;
    var key := DefaultKey(cfg.uid);
    var s := OneRedialed(cfg, boot);
    s := BothStep(s, cfg, boot, Spawn(Query([])), LoadDefault(1));
    assert s.threads[1].phase == Working(key, CachedConnection(1, boot), cfg.retries, Some(1));
    s := BothStep(s, cfg, boot, Use(1), Redial(1, true));
    ReachableStep(s, cfg, boot, CloseOld(1));
    sys := Next(s, cfg, CloseOld(1)).value;
  }

  /** Interleaved goroutines never use a closed handle, in a first run or in a retry, exactly when there are no retries. */
  lemma ClosedInUseExactly(cfg: Config, boot: Settings)
    ensures NeverUsesClosed(cfg, boot) <==> cfg.retries <= 0
    ensures NeverRetriesOnClosed(cfg, boot) <==> cfg.retries <= 0
  {
    hide DefaultKey, KeyWithArgs, Next;
    if cfg.retries >= 1 {
      var sys := ClosedUnderfoot(cfg, boot);
      var again := ClosedBeforeRetry(cfg, boot);
    } else {
      forall sys, t | Reachable(sys, cfg, boot)
        ensures !UsesClosed(sys, t)
      {
        var actions :| Exec(Initial(cfg, boot), cfg, actions) == Some(sys);
        NothingEverClosed(Initial(cfg, boot), cfg, actions);
      }
    }
  }
}
