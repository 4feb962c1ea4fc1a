/** The life of a datasource: made, asked to serve one task after the other, disposed of. */
module Serving {
  import opened Prelude
  import opened Failures
  import opened Pools
  import opened Operations
  import opened RetryLoops
  import opened SequentialRuns
  import opened Datasource

  lemma {:induction false} DoAllSnoc(w: World, net: Net, cfg: Config, ops: seq<Task>, op: Task)
    ensures DoAll(w, net, cfg, ops + [op]) == Do(w, DoAll(w, net, cfg, ops), cfg, op)
    decreases |ops|
  {
    hide Do;
    if ops == [] {
      assert [op][1..] == [];
      assert ops + [op] == [op];
    } else {
      assert (ops + [op])[0] == ops[0] && (ops + [op])[1..] == ops[1..] + [op];
      DoAllSnoc(w, Do(w, net, cfg, ops[0]), cfg, ops[1..], op);
    }
  }

  // ---------- which handles a task uses ----------

  /** The handles one task ran its query on, and those it pinged. */
  datatype Served = Served(task: Task, ran: seq<Handle>, pinged: seq<Handle>)

  /** The handle was opened with the bootstrap settings and exactly these arguments. */
  predicate OpenedWith(openings: seq<Opening>, boot: Settings, args: bytes, h: Handle) {
    h < |openings| && openings[h] == Opening(boot, args)
  }

  /**
   All handles carry the bootstrap settings; every one after the first was opened
   with the arguments of the query, and so was, up to the hash, the first one
   where each arguments have a connection of their own.
   */
  ghost predicate RanOnItsOwn(openings: seq<Opening>, cfg: Config, boot: Settings, args: bytes, ran: seq<Handle>) {
    && (forall i :: 0 <= i < |ran| ==> ran[i] < |openings| && openings[ran[i]].settings == boot)
    && (forall i :: 1 <= i < |ran| ==> OpenedWith(openings, boot, args, ran[i]))
    && (ran != [] && cfg.multiple && |args| > 0 && HashLength(cfg) ==> cfg.hash(openings[ran[0]].args) == cfg.hash(args))
  }

  ghost predicate ServedWell(openings: seq<Opening>, cfg: Config, boot: Settings, s: Served) {
    match s.task
    case Query(args) => s.pinged == [] && RanOnItsOwn(openings, cfg, boot, args, s.ran)
    case HealthCheck(args) =>
      && s.ran == []
      && (cfg.retries == 0 ==> |s.pinged| == 1)
      && (cfg.retries != 0 ==> forall i :: 0 <= i < |s.pinged| ==> OpenedWith(openings, boot, args, s.pinged[i]))
  }

  function AllRan(served: seq<Served>): seq<Handle> {
    if served == [] then [] else AllRan(served[..|served| - 1]) + served[|served| - 1].ran
  }

  function AllPinged(served: seq<Served>): seq<Handle> {
    if served == [] then [] else AllPinged(served[..|served| - 1]) + served[|served| - 1].pinged
  }

  lemma StillServedWell(before: seq<Opening>, after: seq<Opening>, cfg: Config, boot: Settings, s: Served)
    requires ServedWell(before, cfg, boot, s) && before <= after
    ensures ServedWell(after, cfg, boot, s)
  {
    hide HashLength;
  }

  lemma AllStillServedWell(before: seq<Opening>, after: seq<Opening>, cfg: Config, boot: Settings, served: seq<Served>)
    requires before <= after && forall i :: 0 <= i < |served| ==> ServedWell(before, cfg, boot, served[i])
    ensures forall i :: 0 <= i < |served| ==> ServedWell(after, cfg, boot, served[i])
  {
    hide ServedWell;
    forall i | 0 <= i < |served|
      ensures ServedWell(after, cfg, boot, served[i])
    {
      StillServedWell(before, after, cfg, boot, served[i]);
    }
  }

  lemma SnocServed(served: seq<Served>, now: Served)
    ensures AllRan(served + [now]) == AllRan(served) + now.ran
    ensures AllPinged(served + [now]) == AllPinged(served) + now.pinged
  {
    assert (served + [now])[..|served|] == served;
  }

  lemma NoneServed()
    ensures AllRan([]) == [] && AllPinged([]) == []
  {
  }

  /** The handles of a retry run are those after the ones there were, all opened with its arguments. */
  lemma RetriesOpen(w: World, before: Net, after: Net, boot: Settings, conn: CachedConnection, args: bytes, key: Key, rounds: int)
    requires IsRetryRun(w, before, after, conn, args, key, rounds) && conn.settings == boot
    ensures before.pool.openings <= after.pool.openings
    ensures var m := |before.pool.openings|;
      forall h :: h in Following(m, |after.pool.openings| - m) ==> OpenedWith(after.pool.openings, boot, args, h)
  {
    var n := NewHandles(before, after);
    if n > 0 {
      ReplaceTimesIs(before.pool, conn, args, key, n);
    }
  }

  lemma RanIs(openings: seq<Opening>, cfg: Config, boot: Settings, args: bytes, first: Handle, rest: seq<Handle>)
    requires first < |openings| && openings[first].settings == boot
    requires forall h :: h in rest ==> OpenedWith(openings, boot, args, h)
    requires cfg.multiple && |args| > 0 && HashLength(cfg) ==> cfg.hash(openings[first].args) == cfg.hash(args)
    ensures RanOnItsOwn(openings, cfg, boot, args, [first] + rest)
  {
    hide HashLength;
    var ran := [first] + rest;
    forall i | 1 <= i < |ran|
      ensures OpenedWith(openings, boot, args, ran[i])
    {
      assert ran[i] in rest;
    }
  }

  lemma RanNothing(openings: seq<Opening>, cfg: Config, boot: Settings, args: bytes)
    ensures RanOnItsOwn(openings, cfg, boot, args, [])
  {
    hide HashLength;
  }

  lemma RunIsHealthy(w: World, cfg: Config, boot: Settings, ops: seq<Task>)
    ensures Healthy(DoAll(w, Boot(cfg, boot), cfg, ops).pool, cfg, boot)
  {
    hide DoAll, Boot, Healthy, Orphans, Handles, CachedHandles, Lost;
    BootIsHealthy(cfg, boot);
    RunAccounts(w, Boot(cfg, boot), cfg, boot, ops);
  }

  lemma LookupGrows(w: World, net: Net, cfg: Config, args: bytes)
    ensures net.pool.openings <= GetConnection(w, net, cfg, args).1.pool.openings
  {
  }

  lemma QueryServed(w: World, cfg: Config, boot: Settings, ops: seq<Task>, args: bytes)
    ensures var net := DoAll(w, Boot(cfg, boot), cfg, ops);
      var (lookup, got) := GetConnection(w, net, cfg, args);
      var after := HandleQuery(w, net, cfg, args).1;
      var m := |got.pool.openings|;
      var ran := if lookup.Rejected? then [] else [lookup.conn.db] + Following(m, |after.pool.openings| - m);
      && net.pool.openings <= after.pool.openings
      && RanOnItsOwn(after.pool.openings, cfg, boot, args, ran)
  {
    hide DoAll, Boot, HandleQuery, GetConnection, Healthy, IsRetryRun, HashLength, DefaultKey, KeyWithArgs, Following, RanOnItsOwn;
    RunIsHealthy(w, cfg, boot, ops);
    var net := DoAll(w, Boot(cfg, boot), cfg, ops);
    var (lookup, got) := GetConnection(w, net, cfg, args);
    HealthyParts(net.pool, cfg, boot);
    LookupGrows(w, net, cfg, args);
    HandleQueryRun(w, net, cfg, args);
    RanNothing(got.pool.openings, cfg, boot, args);
    if lookup.Found? {
      var after := HandleQuery(w, net, cfg, args).1;
      FoundIsOurs(w, net, cfg, boot, args);
      RetriesOpen(w, got, after, boot, lookup.conn, args, lookup.key, Rounds(cfg));
      if cfg.multiple && |args| > 0 && HashLength(cfg) {
        ConnectionsFitTheirArguments(w, cfg, boot, ops, args);
      }
      assert after.pool.openings[lookup.conn.db] == got.pool.openings[lookup.conn.db];
      var m := |got.pool.openings|;
      hide OpenedWith;
      RanIs(after.pool.openings, cfg, boot, args, lookup.conn.db, Following(m, |after.pool.openings| - m));
    }
  }

  lemma FoundIsOurs(w: World, net: Net, cfg: Config, boot: Settings, args: bytes)
    requires Healthy(net.pool, cfg, boot)
    ensures var (lookup, got) := GetConnection(w, net, cfg, args);
      lookup.Found? ==>
        lookup.conn.settings == boot && lookup.conn.db < |got.pool.openings| && got.pool.openings[lookup.conn.db].settings == boot
  {
    hide Healthy, Orphans, GetConnection;
    GetConnectionKeeps(w, net, cfg, boot, args);
    HealthyParts(GetConnection(w, net, cfg, args).1.pool, cfg, boot);
  }

  lemma HealthServed(w: World, cfg: Config, boot: Settings, ops: seq<Task>, args: bytes)
    ensures var net := DoAll(w, Boot(cfg, boot), cfg, ops);
      var after := Operations.Connect(w, net, cfg, args).1;
      var m := |net.pool.openings|;
      && DefaultKey(cfg.uid) in net.pool.cache
      && net.pool.openings <= after.pool.openings
      && forall h :: h in Following(m, |after.pool.openings| - m) ==> OpenedWith(after.pool.openings, boot, args, h)
  {
    hide DoAll, Boot, Healthy, IsRetryRun, DefaultKey, Following, PingRetry;
    RunIsHealthy(w, cfg, boot, ops);
    var net := DoAll(w, Boot(cfg, boot), cfg, ops);
    HealthyParts(net.pool, cfg, boot);
    var conn := net.pool.cache[DefaultKey(cfg.uid)];
    HealthRun(w, net, cfg, conn, args);
    hide Operations.Connect;
    RetriesOpen(w, net, Operations.Connect(w, net, cfg, args).1, boot, conn, args, DefaultKey(cfg.uid), cfg.retries);
  }

  // ---------- serving ----------

  /**
   Whatever the outside does, no query is run on and no ping sent to a closed
   handle, each task uses handles opened for it, and the objects end in the state
   of the run. `served` tells the handles apart by task.
   */
  method Serve(world: World, cfg: Config, boot: Settings, tasks: seq<Task>) returns (driver: Driver, made: Made, served: seq<Served>)
    ensures fresh(driver) && driver.world == world && !driver.misused
    ensures made.NotMade? <==> world.dial(0).Some?
    ensures made.NotMade? ==> driver.openings == []
    ensures made.Made? ==> fresh(made.connector) && fresh(made.connector.cache) && made.connector.driver == driver
    ensures made.Made? ==> made.connector.State() == DoAll(world, Boot(cfg, boot), cfg, tasks)
    ensures made.Made? ==> |served| == |tasks| && forall i :: 0 <= i < |tasks| ==> served[i].task == tasks[i]
    ensures driver.ran == AllRan(served) && driver.pinged == AllPinged(served)
    ensures forall i :: 0 <= i < |served| ==> ServedWell(driver.openings, cfg, boot, served[i])
  {
    driver := new Driver(world);
    made := NewConnector(cfg, driver, boot);
    served := [];
    NoneServed();
    if made.Made? {
      NothingDone(world, cfg, boot);
      var datasource := new SQLDatasource(made.connector);
      served := ServeAll(datasource, boot, tasks);
    }
  }

  /** The tasks in turn, right after construction. */
  method ServeAll(datasource: SQLDatasource, boot: Settings, tasks: seq<Task>) returns (served: seq<Served>)
    requires datasource.connector.State() == Boot(datasource.connector.cfg, boot)
    requires var driver := datasource.connector.driver; driver.ran == [] && driver.pinged == []
    modifies datasource.connector.driver, datasource.connector.cache
    ensures var c := datasource.connector;
      && c.State() == DoAll(c.driver.world, Boot(c.cfg, boot), c.cfg, tasks)
      && c.driver.misused == old(c.driver.misused)
      && c.driver.ran == AllRan(served) && c.driver.pinged == AllPinged(served)
    ensures |served| == |tasks| && forall i :: 0 <= i < |tasks| ==> served[i].task == tasks[i]
    ensures var c := datasource.connector;
      forall i :: 0 <= i < |served| ==> ServedWell(c.driver.openings, c.cfg, boot, served[i])
  {
    hide DoAll, Boot, ServedWell, HashLength, AllRan, AllPinged;
    var connector, driver := datasource.connector, datasource.connector.driver;
    served := [];
    NoneServed();
    NothingDone(driver.world, connector.cfg, boot);
    for k := 0 to |tasks|
      invariant connector.State() == DoAll(driver.world, Boot(connector.cfg, boot), connector.cfg, tasks[..k])
      invariant driver.misused == old(driver.misused)
      invariant |served| == k && forall i :: 0 <= i < k ==> served[i].task == tasks[i]
      invariant driver.ran == AllRan(served) && driver.pinged == AllPinged(served)
      invariant forall i :: 0 <= i < |served| ==> ServedWell(driver.openings, connector.cfg, boot, served[i])
    {
      assert tasks[..k] + [tasks[k]] == tasks[..k + 1];
      ghost var before := driver.openings;
      var now := ServeOne(datasource, boot, tasks[..k], tasks[k]);
      AllStillServedWell(before, driver.openings, connector.cfg, boot, served);
      SnocServed(served, now);
      served := served + [now];
    }
    assert tasks[..|tasks|] == tasks;
  }

  /** One task, after the tasks `past`. */
  method ServeOne(datasource: SQLDatasource, boot: Settings, ghost past: seq<Task>, task: Task) returns (now: Served)
    requires var c := datasource.connector;
      c.State() == DoAll(c.driver.world, Boot(c.cfg, boot), c.cfg, past)
    modifies datasource.connector.driver, datasource.connector.cache
    ensures var c := datasource.connector;
      && c.State() == DoAll(c.driver.world, Boot(c.cfg, boot), c.cfg, past + [task])
      && c.driver.misused == old(c.driver.misused)
      && old(c.driver.openings) <= c.driver.openings
      && now.task == task && ServedWell(c.driver.openings, c.cfg, boot, now)
      && c.driver.ran == old(c.driver.ran) + now.ran && c.driver.pinged == old(c.driver.pinged) + now.pinged
  {
    hide DoAll, Boot, Usable, HashLength, RanOnItsOwn, GetConnection, HandleQuery, Operations.Connect, Following;
    var connector, driver := datasource.connector, datasource.connector.driver;
    var ranBefore, pingedBefore := |driver.ran|, |driver.pinged|;
    RunsStayUsable(driver.world, connector.cfg, boot, past);
    DoAllSnoc(driver.world, Boot(connector.cfg, boot), connector.cfg, past, task);
    match task {
      case Query(args) =>
        QueryServed(driver.world, connector.cfg, boot, past, args);
        var answer := datasource.HandleQuery(args);
      case HealthCheck(args) =>
        HealthServed(driver.world, connector.cfg, boot, past, args);
        var health := connector.Connect(args);
    }
    now := Served(task, driver.ran[ranBefore..], driver.pinged[pingedBefore..]);
  }

  lemma NothingDone(w: World, cfg: Config, boot: Settings)
    ensures DoAll(w, Boot(cfg, boot), cfg, []) == Boot(cfg, boot)
    ensures Boot(cfg, boot) == Booted(cfg, boot, Net(Pool(map[], [], {}), Clock(0, 0, 0)))
  {
  }

  /** Disposing of it then closes every handle ever opened, if at most one retry is configured. */
  method ServeAndDispose(world: World, cfg: Config, boot: Settings, tasks: seq<Task>) returns (driver: Driver, made: Made, served: seq<Served>)
    ensures !driver.misused
    ensures made.Made? ==> made.connector.driver == driver && made.connector.cache.m == map[]
    ensures cfg.retries <= 1 ==> forall h :: 0 <= h < |driver.openings| ==> h in driver.closed
  {
    driver, made, served := Serve(world, cfg, boot, tasks);
    if made.Made? {
      made.connector.Dispose();
      if cfg.retries <= 1 {
        hide DoAll, Boot;
        DisposeClosesAll(world, cfg, boot, tasks);
      }
    }
  }
}
