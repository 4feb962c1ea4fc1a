/**
 The objects of connector.go, cache.go and datasource.go, updated in place;
 each method does what the function of the same name in Operations says.
 */
module Datasource {
  import opened Prelude
  import opened Failures
  import opened Pools
  import Ops = Operations

  /** The driver together with the database handles it has given out. */
  class Driver {
    const world: World
    var openings: seq<Opening>
    var closed: set<Handle>
    var clock: Clock
    /** The handles queries were run on, and those pinged, in order. */
    var ran: seq<Handle>
    var pinged: seq<Handle>
    /** A query was run on a closed handle, or one was pinged. */
    var misused: bool

    constructor (world: World)
      ensures this.world == world && openings == [] && closed == {} && clock == Clock(0, 0, 0)
      ensures ran == [] && pinged == [] && !misused
    {
      this.world := world;
      openings, closed, clock := [], {}, Clock(0, 0, 0);
      ran, pinged, misused := [], [], false;
    }

    function Uses(): (seq<Handle>, seq<Handle>, bool)
      reads this
    {
      (ran, pinged, misused)
    }

    method Connect(settings: Settings, args: bytes) returns (db: Handle, err: Option<Error>)
      modifies this`openings, this`clock
      ensures clock == old(clock).(dials := old(clock).dials + 1)
      ensures err == world.dial(old(clock).dials)
      ensures err.Some? ==> openings == old(openings)
      ensures err.None? ==> db == |old(openings)| && openings == old(openings) + [Opening(settings, args)]
    {
      db := |openings|;
      err := world.dial(clock.dials);
      clock := clock.(dials := clock.dials + 1);
      if err.None? {
        openings := openings + [Opening(settings, args)];
      }
    }

    method Close(db: Handle)
      modifies this`closed
      ensures closed == old(closed) + {db}
    {
      closed := closed + {db};
    }

    method Run(db: Handle) returns (outcome: RunOutcome)
      modifies this`clock, this`ran, this`misused
      ensures ran == old(ran) + [db] && misused == (old(misused) || db in closed)
      ensures clock == old(clock).(runs := old(clock).runs + 1)
      ensures outcome == world.run(old(clock).runs)
    {
      outcome := world.run(clock.runs);
      clock := clock.(runs := clock.runs + 1);
      ran := ran + [db];
      misused := misused || db in closed;
    }

    method Ping(db: Handle) returns (err: Option<Error>)
      modifies this`clock, this`pinged, this`misused
      ensures pinged == old(pinged) + [db] && misused == (old(misused) || db in closed)
      ensures clock == old(clock).(pings := old(clock).pings + 1)
      ensures err == world.ping(old(clock).pings)
    {
      err := world.ping(clock.pings);
      clock := clock.(pings := clock.pings + 1);
      pinged := pinged + [db];
      misused := misused || db in closed;
    }
  }

  class SyncMapCache {
    var m: map<Key, CachedConnection>

    constructor ()
      ensures m == map[]
    {
      m := map[];
    }

    method Load(key: Key) returns (conn: CachedConnection, ok: bool)
      ensures ok <==> key in m
      ensures ok ==> conn == m[key]
    {
      ok := key in m;
      conn := if ok then m[key] else CachedConnection(0, Settings("", ""));
    }

    method Store(key: Key, conn: CachedConnection)
      modifies this
      ensures m == old(m)[key := conn]
    {
      m := m[key := conn];
    }

    /** Visits entries in some order until the callback says no: none twice, and all of them if it never does. */
    method Range(f: (Key, CachedConnection) -> bool) returns (visited: seq<Key>)
      ensures forall i :: 0 <= i < |visited| ==> visited[i] in m
      ensures forall i, j :: 0 <= i < j < |visited| ==> visited[i] != visited[j]
      ensures forall i :: 0 <= i < |visited| - 1 ==> f(visited[i], m[visited[i]])
      ensures (forall i :: 0 <= i < |visited| ==> f(visited[i], m[visited[i]])) ==> forall k :: k in m ==> k in visited
    {
      visited := [];
      var left := m.Keys;
      while left != {}
        invariant left <= m.Keys
        invariant forall k :: k in m ==> (k in left <==> k !in visited)
        invariant forall i :: 0 <= i < |visited| ==> visited[i] in m && f(visited[i], m[visited[i]])
        invariant forall i, j :: 0 <= i < j < |visited| ==> visited[i] != visited[j]
        decreases left
      {
        var k :| k in left;
        visited := visited + [k];
        left := left - {k};
        if !f(k, m[k]) {
          assert !f(visited[|visited| - 1], m[visited[|visited| - 1]]);
          return;
        }
      }
    }

    /** Closes every live entry, then forgets them all. */
    method Dispose(driver: Driver)
      modifies this, driver`closed
      ensures m == map[]
      ensures driver.closed == old(driver.closed) + (set k | k in old(m) :: old(m)[k].db)
    {
      var left := m.Keys;
      while left != {}
        invariant left <= m.Keys && m == old(m)
        invariant driver.closed == old(driver.closed) + (set k | k in m && k !in left :: m[k].db)
        decreases left
      {
        var k :| k in left;
        driver.Close(m[k].db);
        left := left - {k};
      }
      m := map[];
    }
  }

  /** An open connector, or the error that kept it from being made. */
  datatype Made = Made(connector: Connector) | NotMade(err: Error)

  class Connector {
    const cfg: Config
    const driver: Driver
    const cache: SyncMapCache

    constructor (cfg: Config, driver: Driver, cache: SyncMapCache)
      ensures this.cfg == cfg && this.driver == driver && this.cache == cache
    {
      this.cfg, this.driver, this.cache := cfg, driver, cache;
    }

    ghost function State(): Net
      reads driver, cache
    {
      Net(Pool(cache.m, driver.openings, driver.closed), driver.clock)
    }

    /** The handles opened after the first `known`. */
    ghost function OpenedSince(known: nat): seq<Handle>
      reads driver
    {
      Following(known, |driver.openings| - known)
    }

    method Reconnect(conn: CachedConnection, args: bytes, key: Key) returns (dialed: Ops.Dialed)
      modifies driver, cache
      ensures (dialed, State()) == Ops.Reconnect(driver.world, old(State()), conn, args, key)
      ensures driver.Uses() == old(driver.Uses())
      ensures dialed.Opened? ==> dialed.db == old(|driver.openings|) && |driver.openings| == old(|driver.openings|) + 1
      ensures dialed.Refused? ==> driver.openings == old(driver.openings)
      ensures old(WereOpened(State().pool, conn.db)) ==>
                WereOpened(State().pool, conn.db) && (dialed.Opened? ==> dialed.db !in driver.closed)
    {
      var db, err := driver.Connect(conn.settings, args);
      if err.Some? {
        return Ops.Refused(Downstream(err.value));
      }
      driver.Close(conn.db);
      cache.Store(key, CachedConnection(db, conn.settings));
      return Ops.Opened(db);
    }

    method GetConnectionFromQuery(args: bytes) returns (lookup: Ops.Lookup)
      modifies driver, cache
      ensures (lookup, State()) == Ops.GetConnection(driver.world, old(State()), cfg, args)
      ensures driver.Uses() == old(driver.Uses())
      ensures old(Usable(State().pool)) && lookup.Found? ==>
                WereOpened(State().pool, lookup.conn.db) && lookup.conn.db !in driver.closed
    {
      if !cfg.multiple && !cfg.forwardHeaders && |args| > 0 && args != EMPTY_OBJECT {
        return Ops.Rejected(MISSING_MULTIPLE_CONNECTIONS_CONFIG);
      }
      var key := DefaultKey(cfg.uid);
      var dbConn, ok := cache.Load(key);
      if !ok {
        return Ops.Rejected(MISSING_DB_CONNECTION);
      }
      if !cfg.multiple || |args| == 0 {
        return Ops.Found(key, dbConn);
      }
      key := KeyWithArgs(cfg, args);
      var cachedConn, hit := cache.Load(key);
      if hit {
        return Ops.Found(key, cachedConn);
      }
      var db, err := driver.Connect(dbConn.settings, args);
      if err.Some? {
        return Ops.Rejected(Downstream(err.value));
      }
      dbConn := CachedConnection(db, dbConn.settings);
      cache.Store(key, dbConn);
      return Ops.Found(key, dbConn);
    }

    method CheckPing(db: Handle) returns (err: Option<Error>)
      modifies driver`clock, driver`pinged, driver`misused
      ensures (err, State()) == Ops.CheckPing(driver.world, old(State()))
      ensures driver.Uses() == (old(driver.ran), old(driver.pinged) + [db], old(driver.misused) || db in driver.closed)
    {
      err := driver.Ping(db);
      if err.Some? {
        err := Some(Downstream(err.value));
      }
    }

    method ConnectWithRetries(conn: CachedConnection, args: bytes, key: Key) returns (err: Option<Error>)
      modifies driver, cache
      ensures (err, State()) == Ops.PingRetry(driver.world, old(State()), cfg, conn, args, key, 0)
      ensures driver.ran == old(driver.ran)
      ensures driver.pinged == old(driver.pinged) + OpenedSince(old(|driver.openings|))
      ensures old(WereOpened(State().pool, conn.db)) ==> driver.misused == old(driver.misused)
    {
      hide Ops.Reconnect, Ops.CheckPing, Retryable, WereOpened, Following;
      FollowingStep(|driver.openings|, 0);
      err := None;
      var i := 0;
      while i < cfg.retries
        invariant i >= 0 && (i == 0 || i < cfg.retries)
        invariant Ops.PingRetry(driver.world, State(), cfg, conn, args, key, i) ==
                  Ops.PingRetry(driver.world, old(State()), cfg, conn, args, key, 0)
        invariant i == 0 ==> err == None
        invariant driver.ran == old(driver.ran) && |driver.openings| >= old(|driver.openings|)
        invariant driver.pinged == old(driver.pinged) + OpenedSince(old(|driver.openings|))
        invariant old(WereOpened(State().pool, conn.db)) ==>
                    WereOpened(State().pool, conn.db) && driver.misused == old(driver.misused)
      {
        FollowingStep(old(|driver.openings|), |driver.openings| - old(|driver.openings|));
        var dialed := Reconnect(conn, args, key);
        if dialed.Refused? {
          return Some(dialed.err);
        }
        // A new variable for the new connection: `conn` stays the one to close.
        var inner := CachedConnection(dialed.db, conn.settings);
        err := CheckPing(inner.db);
        if err.None? {
          break;
        }
        var retry := ShouldRetry(cfg.retryOn, err.value);
        if !retry {
          break;
        }
        if i + 1 == cfg.retries {
          break;
        }
        i := i + 1;
      }
    }

    method Connect(args: bytes) returns (health: Ops.Health)
      modifies driver, cache
      ensures (health, State()) == Ops.Connect(driver.world, old(State()), cfg, args)
      ensures driver.ran == old(driver.ran)
      ensures var key := DefaultKey(cfg.uid);
        driver.pinged == old(driver.pinged) +
          if key in old(cache.m) && cfg.retries == 0 then [old(cache.m)[key].db]
          else OpenedSince(old(|driver.openings|))
      ensures old(Usable(State().pool)) ==> driver.misused == old(driver.misused)
    {
      var key := DefaultKey(cfg.uid);
      var dbConn, ok := cache.Load(key);
      if !ok {
        return Ops.Health(None, Some(MISSING_DB_CONNECTION));
      }
      if cfg.retries == 0 {
        var err := CheckPing(dbConn.db);
        return Ops.Health(None, err);
      }
      var err := ConnectWithRetries(dbConn, args, key);
      return Ops.Health(Some(dbConn), err);
    }

    method Dispose()
      modifies driver, cache
      ensures State() == old(State()).(pool := Ops.Disposed(old(State()).pool))
      ensures driver.Uses() == old(driver.Uses())
    {
      cache.Dispose(driver);
    }
  }

  method NewConnector(cfg: Config, driver: Driver, boot: Settings) returns (made: Made)
    modifies driver
    ensures made.NotMade? <==> driver.world.dial(old(driver.clock).dials).Some?
    ensures made.Made? ==> fresh(made.connector) && fresh(made.connector.cache)
    ensures made.Made? ==> made.connector.driver == driver && made.connector.cfg == cfg
    ensures var before := Net(Pool(map[], old(driver.openings), old(driver.closed)), old(driver.clock));
      made.Made? ==> made.connector.State() == Ops.Booted(cfg, boot, before)
    ensures made.NotMade? ==> made.err == Downstream(driver.world.dial(old(driver.clock).dials).value)
    ensures driver.Uses() == old(driver.Uses())
    ensures made.NotMade? ==> driver.openings == old(driver.openings) && driver.closed == old(driver.closed)
  {
    var db, err := driver.Connect(boot, []);
    if err.Some? {
      return NotMade(Downstream(err.value));
    }
    var cache := new SyncMapCache();
    var connector := new Connector(cfg, driver, cache);
    cache.Store(DefaultKey(cfg.uid), CachedConnection(db, boot));
    return Made(connector);
  }

  class SQLDatasource {
    const connector: Connector

    constructor (connector: Connector)
      ensures this.connector == connector
    {
      this.connector := connector;
    }

    /** The retries after a query error. `frames` are those of the run before. */
    method RetryQuery(dbConn: CachedConnection, args: bytes, cacheKey: Key, frames: Frames) returns (end: Ops.LoopEnd)
      modifies connector.driver, connector.cache
      ensures (end, connector.State()) ==
              Ops.QueryRetry(connector.driver.world, old(connector.State()), connector.cfg, dbConn, args, cacheKey, 0, frames)
      ensures connector.driver.ran == old(connector.driver.ran) + connector.OpenedSince(old(|connector.driver.openings|))
      ensures connector.driver.pinged == old(connector.driver.pinged)
      ensures old(WereOpened(connector.State().pool, dbConn.db)) ==> connector.driver.misused == old(connector.driver.misused)
    {
      hide Ops.Reconnect, Retryable, WereOpened, Following;
      var cfg, driver, world, res := connector.cfg, connector.driver, connector.driver.world, frames;
      ghost var known := |driver.openings|;
      FollowingStep(known, 0);
      var i := 0;
      while i < cfg.retries
        invariant i >= 0 && |driver.openings| >= known
        invariant Ops.QueryRetry(world, connector.State(), cfg, dbConn, args, cacheKey, i, res) ==
                  Ops.QueryRetry(world, old(connector.State()), cfg, dbConn, args, cacheKey, 0, frames)
        invariant driver.ran == old(driver.ran) + connector.OpenedSince(known) && driver.pinged == old(driver.pinged)
        invariant old(WereOpened(connector.State().pool, dbConn.db)) ==>
                    WereOpened(connector.State().pool, dbConn.db) && driver.misused == old(driver.misused)
        decreases cfg.retries - i
      {
        FollowingStep(known, |driver.openings| - known);
        // The error of a retry is a variable of the loop body: the caller's stays the first one.
        var dialed := connector.Reconnect(dbConn, args, cacheKey);
        if dialed.Refused? {
          return Ops.Returned(Ops.Answer(NilFrames, Some(Downstream(dialed.err))));
        }
        var ran := driver.Run(dialed.db);
        res := ran.frames;
        if ran.err.None? {
          return Ops.Returned(Ops.Answer(res, None));
        }
        var again := ShouldRetry(cfg.retryOn, ran.err.value);
        if !again {
          return Ops.Returned(Ops.Answer(res, ran.err));
        }
        i := i + 1;
      }
      return Ops.FellOut(res);
    }

    /** The retries after a timeout. */
    method RetryTimeout(dbConn: CachedConnection, args: bytes, cacheKey: Key, frames: Frames) returns (end: Ops.LoopEnd)
      modifies connector.driver, connector.cache
      ensures (end, connector.State()) ==
              Ops.TimeoutRetry(connector.driver.world, old(connector.State()), connector.cfg, dbConn, args, cacheKey, 0, frames)
      ensures connector.driver.ran == old(connector.driver.ran) + connector.OpenedSince(old(|connector.driver.openings|))
      ensures connector.driver.pinged == old(connector.driver.pinged)
      ensures old(WereOpened(connector.State().pool, dbConn.db)) ==> connector.driver.misused == old(connector.driver.misused)
    {
      hide Ops.Reconnect, WereOpened, Following;
      var cfg, driver, world, res := connector.cfg, connector.driver, connector.driver.world, frames;
      ghost var known := |driver.openings|;
      FollowingStep(known, 0);
      var i := 0;
      while i < cfg.retries
        invariant i >= 0 && |driver.openings| >= known
        invariant Ops.TimeoutRetry(world, connector.State(), cfg, dbConn, args, cacheKey, i, res) ==
                  Ops.TimeoutRetry(world, old(connector.State()), cfg, dbConn, args, cacheKey, 0, frames)
        invariant driver.ran == old(driver.ran) + connector.OpenedSince(known) && driver.pinged == old(driver.pinged)
        invariant old(WereOpened(connector.State().pool, dbConn.db)) ==>
                    WereOpened(connector.State().pool, dbConn.db) && driver.misused == old(driver.misused)
        decreases cfg.retries - i
      {
        FollowingStep(known, |driver.openings| - known);
        var dialed := connector.Reconnect(dbConn, args, cacheKey);
        i := i + 1;
        if dialed.Refused? {
          continue;
        }
        var ran := driver.Run(dialed.db);
        res := ran.frames;
        if ran.err.None? {
          return Ops.Returned(Ops.Answer(res, None));
        }
      }
      return Ops.FellOut(res);
    }

    /** The first run is on the connection found, each retry on the handle just opened for it. */
    method HandleQuery(args: bytes) returns (answer: Ops.Answer)
      modifies connector.driver, connector.cache
      ensures (answer, connector.State()) ==
              Ops.HandleQuery(connector.driver.world, old(connector.State()), connector.cfg, args)
      ensures var (lookup, got) := Ops.GetConnection(connector.driver.world, old(connector.State()), connector.cfg, args);
        connector.driver.ran == old(connector.driver.ran) +
          if lookup.Rejected? then [] else [lookup.conn.db] + connector.OpenedSince(|got.pool.openings|)
      ensures connector.driver.pinged == old(connector.driver.pinged)
      ensures old(Usable(connector.State().pool)) ==> connector.driver.misused == old(connector.driver.misused)
    {
      hide Ops.GetConnection, Ops.QueryRetry, Ops.TimeoutRetry, Retryable, Usable, WereOpened, Following;
      var cfg, driver := connector.cfg, connector.driver;
      var lookup := connector.GetConnectionFromQuery(args);
      if lookup.Rejected? {
        return Ops.Answer(ErrorFrame, Some(lookup.err));
      }
      var cacheKey, dbConn := lookup.key, lookup.conn;
      FollowingStep(|driver.openings|, 0);
      var first := driver.Run(dbConn.db);
      var res, err := first.frames, first.err;
      if err.None? {
        return Ops.Answer(res, None);
      }
      if err.value.noResults {
        return Ops.Answer(res, None);
      }
      var retry := ShouldRetry(cfg.retryOn, err.value);
      if err.value.query && !err.value.deadline && retry {
        var end := RetryQuery(dbConn, args, cacheKey, res);
        if end.Returned? {
          return end.answer;
        }
        res := end.frames;
      }
      if err.value.query && retry && !err.value.downstream {
        err := Some(Downstream(err.value));
      }
      if err.value.deadline {
        var end := RetryTimeout(dbConn, args, cacheKey, res);
        if end.Returned? {
          return end.answer;
        }
        res := end.frames;
      }
      return Ops.Answer(res, err);
    }
  }
}
