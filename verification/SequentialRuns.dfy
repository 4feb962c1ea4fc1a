/**
 Whole runs of queries and health checks, one after the other: where every
 handle ever opened ends up.
 */
module SequentialRuns {
  import opened Prelude
  import opened Failures
  import opened Pools
  import opened Operations
  import opened RetryLoops

  function Do(w: World, net: Net, cfg: Config, op: Task): Net {
    match op
    case Query(args) => HandleQuery(w, net, cfg, args).1
    case HealthCheck(args) => Connect(w, net, cfg, args).1
  }

  function DoAll(w: World, net: Net, cfg: Config, ops: seq<Task>): Net
    decreases |ops|
  {
    if ops == [] then net else DoAll(w, Do(w, net, cfg, ops[0]), cfg, ops[1..])
  }

  /** The state in which an operation has its connection and may start to retry. */
  function Ready(w: World, net: Net, cfg: Config, op: Task): Net {
    match op
    case Query(args) => GetConnection(w, net, cfg, args).1
    case HealthCheck(_) => net
  }

  /** The successful reconnects of an operation. */
  function Reopened(w: World, net: Net, cfg: Config, op: Task): int {
    NewHandles(Ready(w, net, cfg, op), Do(w, net, cfg, op))
  }

  function Excess(n: int): nat {
    if n <= 1 then 0 else n - 1
  }

  // ---------- one operation ----------

  /** Looking a connection up keeps the pool healthy and orphans nothing; what it finds is cached under a key of the arguments. */
  lemma GetConnectionKeeps(w: World, net: Net, cfg: Config, boot: Settings, args: bytes)
    requires Healthy(net.pool, cfg, boot)
    ensures var (lookup, got) := GetConnection(w, net, cfg, args);
      && Healthy(got.pool, cfg, boot) && Orphans(got.pool) == Orphans(net.pool)
      && lookup != Rejected(MISSING_DB_CONNECTION)
      && (lookup.Found? ==> lookup.key in got.pool.cache && got.pool.cache[lookup.key] == lookup.conn)
      && (lookup.Found? ==> lookup.key == DefaultKey(cfg.uid) || lookup.key == KeyWithArgs(cfg, args))
  {
    hide Healthy, Orphans;
    HealthyParts(net.pool, cfg, boot);
    var (lookup, got) := GetConnection(w, net, cfg, args);
    if got.pool != net.pool {
      StoreNew(net.pool, cfg, boot, args);
    }
  }

  /** Arguments are refused outright, and a connection must first be opened. */
  predicate NotAccepted(cfg: Config, args: bytes) {
    !cfg.multiple && !cfg.forwardHeaders && |args| > 0 && args != EMPTY_OBJECT
  }

  predicate IsFirst(pool: Pool, cfg: Config, args: bytes) {
    cfg.multiple && |args| > 0 && KeyWithArgs(cfg, args) !in pool.cache
  }

  /**
   With the default connection there, a lookup fails exactly on arguments that are
   not accepted and on a refused connect, each with its own error; it opens a
   handle, with the settings of the default one, exactly for arguments seen for
   the first time; and in all other cases it changes nothing.
   */
  lemma LookupExactly(w: World, net: Net, cfg: Config, args: bytes)
    requires DefaultKey(cfg.uid) in net.pool.cache
    ensures var (lookup, got) := GetConnection(w, net, cfg, args);
      var refusal := w.dial(net.clock.dials);
      && (lookup == Rejected(MISSING_MULTIPLE_CONNECTIONS_CONFIG) <==> NotAccepted(cfg, args))
      && (lookup.Rejected? <==> NotAccepted(cfg, args) || (IsFirst(net.pool, cfg, args) && refusal.Some?))
      && (IsFirst(net.pool, cfg, args) && refusal.Some? ==> lookup == Rejected(Downstream(refusal.value)))
      && (lookup.Rejected? || !IsFirst(net.pool, cfg, args) ==> got.pool == net.pool)
      && got.clock == net.clock.(dials := net.clock.dials + if IsFirst(net.pool, cfg, args) then 1 else 0)
      && (lookup.Found? && (!cfg.multiple || |args| == 0) ==>
            lookup.key == DefaultKey(cfg.uid) && lookup.conn == net.pool.cache[lookup.key])
      && (lookup.Found? && cfg.multiple && |args| > 0 ==> lookup.key == KeyWithArgs(cfg, args))
      && (lookup.Found? && IsFirst(net.pool, cfg, args) ==>
            var settings := net.pool.cache[DefaultKey(cfg.uid)].settings;
            && lookup.conn == CachedConnection(|net.pool.openings|, settings)
            && got.pool == Pool(net.pool.cache[lookup.key := lookup.conn], net.pool.openings + [Opening(settings, args)], net.pool.closed))
  {
    hide DefaultKey, KeyWithArgs;
  }

  /** Looking the same arguments up again finds the same connection and changes nothing. */
  lemma LookupTwice(w: World, net: Net, cfg: Config, args: bytes)
    requires HashLength(cfg)
    ensures var (lookup, got) := GetConnection(w, net, cfg, args);
      lookup.Found? ==> GetConnection(w, got, cfg, args) == (lookup, got)
  {
    DefaultKeyIsApart(cfg, args);
    hide DefaultKey, KeyWithArgs, HashLength;
  }

  /** A new connection for arguments not seen before. */
  lemma StoreNew(pool: Pool, cfg: Config, boot: Settings, args: bytes)
    requires Healthy(pool, cfg, boot) && KeyWithArgs(cfg, args) !in pool.cache
    ensures var after := Store(Open(pool, boot, args), KeyWithArgs(cfg, args), CachedConnection(|pool.openings|, boot));
      Healthy(after, cfg, boot) && Orphans(after) == Orphans(pool)
  {
    StoreNewHealthy(pool, cfg, boot, args, KeyWithArgs(cfg, args));
    StoreNewOrphans(pool, boot, args, KeyWithArgs(cfg, args));
  }

  lemma StoreNewHealthy(pool: Pool, cfg: Config, boot: Settings, args: bytes, key: Key)
    requires Healthy(pool, cfg, boot) && key !in pool.cache && key == KeyWithArgs(cfg, args)
    ensures Healthy(Store(Open(pool, boot, args), key, CachedConnection(|pool.openings|, boot)), cfg, boot)
  {
    hide KeyWithArgs, DefaultKey, Range;
    var after := Store(Open(pool, boot, args), key, CachedConnection(|pool.openings|, boot));
    assert EntriesOpen(after);
    assert EntriesDistinct(after);
    assert KeysCoherent(after, cfg);
  }

  lemma StoreNewOrphans(pool: Pool, boot: Settings, args: bytes, key: Key)
    requires key !in pool.cache
    ensures Orphans(Store(Open(pool, boot, args), key, CachedConnection(|pool.openings|, boot))) == Orphans(pool)
  {
    hide Range;
    var db := |pool.openings|;
    var after := Store(Open(pool, boot, args), key, CachedConnection(db, boot));
    StoredHandles(pool, after, key, db);
    assert Handles(after) == Handles(pool) + {db} && db !in Handles(pool);
    hide Handles, CachedHandles;
  }

  lemma StoredHandles(pool: Pool, after: Pool, key: Key, db: Handle)
    requires key !in pool.cache && key in after.cache && after.cache[key].db == db
    requires after.cache == pool.cache[key := after.cache[key]]
    ensures CachedHandles(after) == CachedHandles(pool) + {db}
  {
    forall h
      ensures h in CachedHandles(after) <==> h in CachedHandles(pool) + {db}
    {
      if h == db {
        assert key in after.cache;
      } else if h in CachedHandles(pool) {
        var k :| k in pool.cache && pool.cache[k].db == h;
        assert k in after.cache;
      }
    }
  }

  /** Of the n handles opened since `ready`, all but the last are orphans, and no other handle became one. */
  ghost predicate Accounts(before: Net, ready: Net, after: Net, cfg: Config, boot: Settings) {
    var n := NewHandles(ready, after);
    && Healthy(after.pool, cfg, boot)
    && 0 <= n <= Rounds(cfg)
    && Orphans(after.pool) == Orphans(before.pool) + Range(|ready.pool.openings|, |ready.pool.openings| + n - 1)
    && |Orphans(after.pool)| == |Orphans(before.pool)| + Excess(n)
  }

  /**
   An operation keeps the pool healthy, and of the n handles its retries opened
   it orphans all but the last.
   */
  lemma OpAccounts(w: World, net: Net, cfg: Config, boot: Settings, op: Task)
    requires Healthy(net.pool, cfg, boot)
    ensures Accounts(net, Ready(w, net, cfg, op), Do(w, net, cfg, op), cfg, boot)
  {
    hide Healthy, Orphans, Range;
    match op
    case Query(args) => QueryAccounts(w, net, cfg, boot, args);
    case HealthCheck(args) => HealthAccounts(w, net, cfg, boot, args);
  }

  lemma QueryAccounts(w: World, net: Net, cfg: Config, boot: Settings, args: bytes)
    requires Healthy(net.pool, cfg, boot)
    ensures var (ready, after) := (GetConnection(w, net, cfg, args).1, HandleQuery(w, net, cfg, args).1);
      Accounts(net, ready, after, cfg, boot)
  {
    hide Healthy, Orphans, Range, HandleQuery, GetConnection, KeyWithArgs, DefaultKey, ReplaceTimes;
    var (lookup, ready) := GetConnection(w, net, cfg, args);
    var after := HandleQuery(w, net, cfg, args).1;
    GetConnectionKeeps(w, net, cfg, boot, args);
    HandleQueryRun(w, net, cfg, args);
    if lookup.Found? {
      RetriesAccount(net, ready, after, cfg, boot, lookup.key, args);
    } else {
      hide Rounds;
      NoneNew(Orphans(net.pool), |ready.pool.openings|);
    }
  }

  lemma RetriesAccount(net: Net, ready: Net, after: Net, cfg: Config, boot: Settings, key: Key, args: bytes)
    requires Healthy(ready.pool, cfg, boot) && Orphans(ready.pool) == Orphans(net.pool)
    requires key in ready.pool.cache && (key == DefaultKey(cfg.uid) || key == KeyWithArgs(cfg, args))
    requires 0 <= NewHandles(ready, after) <= Rounds(cfg)
    requires after.pool == ReplaceTimes(ready.pool, ready.pool.cache[key], args, key, NewHandles(ready, after))
    ensures Accounts(net, ready, after, cfg, boot)
  {
    hide Healthy, Orphans, Range, KeyWithArgs, DefaultKey, ReplaceTimes;
    RetryRunAccounts(ready.pool, cfg, boot, key, args, NewHandles(ready, after));
  }

  lemma HealthAccounts(w: World, net: Net, cfg: Config, boot: Settings, args: bytes)
    requires Healthy(net.pool, cfg, boot)
    ensures Accounts(net, net, Connect(w, net, cfg, args).1, cfg, boot)
  {
    hide Healthy, Orphans, Range, PingRetry, CheckPing, KeyWithArgs, DefaultKey, ReplaceTimes;
    HealthyParts(net.pool, cfg, boot);
    var key := DefaultKey(cfg.uid);
    if cfg.retries == 0 {
      PingKeepsPool(w, net);
      hide Connect;
      NoneNew(Orphans(net.pool), |net.pool.openings|);
    } else {
      var after := PingRetry(w, net, cfg, net.pool.cache[key], args, key, 0).1;
      PingRetryRun(w, net, cfg, net.pool.cache[key], args, key, 0);
      hide Accounts;
      RetriesAccount(net, net, after, cfg, boot, key, args);
    }
  }

  lemma PingKeepsPool(w: World, net: Net)
    ensures CheckPing(w, net).1.pool == net.pool
  {
  }

  lemma NoneNew(orphans: set<Handle>, lo: nat)
    ensures orphans + Range(lo, lo - 1) == orphans
  {
  }

  // ---------- whole runs ----------

  /** One orphan for every reconnect of a retry run after its first. */
  function Lost(w: World, net: Net, cfg: Config, ops: seq<Task>): nat
    decreases |ops|
  {
    if ops == [] then 0
    else Excess(Reopened(w, net, cfg, ops[0])) + Lost(w, Do(w, net, cfg, ops[0]), cfg, ops[1..])
  }

  /** The exact accounts of any run: nothing is orphaned but what the retries lose. */
  lemma {:induction false} RunAccounts(w: World, net: Net, cfg: Config, boot: Settings, ops: seq<Task>)
    requires Healthy(net.pool, cfg, boot)
    ensures var after := DoAll(w, net, cfg, ops);
      && Healthy(after.pool, cfg, boot)
      && Handles(after.pool) == after.pool.closed + CachedHandles(after.pool) + Orphans(after.pool)
      && after.pool.closed !! CachedHandles(after.pool) !! Orphans(after.pool)
      && |Orphans(after.pool)| == |Orphans(net.pool)| + Lost(w, net, cfg, ops)
    decreases |ops|
  {
    hide Healthy, Orphans, Range, Do, Ready, Handles, CachedHandles;
    if ops == [] {
      HandlesSplit(net.pool, cfg, boot);
    } else {
      OpAccounts(w, net, cfg, boot, ops[0]);
      RunAccounts(w, Do(w, net, cfg, ops[0]), cfg, boot, ops[1..]);
    }
  }

  lemma {:induction false} FewRetriesLoseNothing(w: World, net: Net, cfg: Config, boot: Settings, ops: seq<Task>)
    requires Healthy(net.pool, cfg, boot) && cfg.retries <= 1
    ensures Lost(w, net, cfg, ops) == 0
    decreases |ops|
  {
    hide Healthy, Orphans, Range, Do, Ready;
    if ops != [] {
      OpAccounts(w, net, cfg, boot, ops[0]);
      FewRetriesLoseNothing(w, Do(w, net, cfg, ops[0]), cfg, boot, ops[1..]);
    }
  }

  /** Whatever the outside does and whatever is asked, no handle is lost. */
  ghost predicate NeverLeaks(cfg: Config, boot: Settings) {
    forall w: World, ops: seq<Task> {:trigger DoAll(w, Boot(cfg, boot), cfg, ops)} :: NoLeak(DoAll(w, Boot(cfg, boot), cfg, ops).pool)
  }

  /** Handles never leak exactly when at most one retry is configured. */
  lemma NeverLeaksIffFewRetries(cfg: Config, boot: Settings)
    ensures NeverLeaks(cfg, boot) <==> cfg.retries <= 1
  {
    hide Healthy, NoLeak, Orphans, Boot, DoAll;
    BootIsHealthy(cfg, boot);
    if cfg.retries <= 1 {
      forall w: World, ops: seq<Task>
        ensures NoLeak(DoAll(w, Boot(cfg, boot), cfg, ops).pool)
      {
        FewRetriesLoseNothing(w, Boot(cfg, boot), cfg, boot, ops);
        RunAccounts(w, Boot(cfg, boot), cfg, boot, ops);
        NoLeakIsNoOrphan(DoAll(w, Boot(cfg, boot), cfg, ops).pool, cfg, boot);
      }
    } else {
      var w, ops := TIMEOUTS, [Query([])];
      TimeoutsLeak(cfg, boot);
      RunAccounts(w, Boot(cfg, boot), cfg, boot, ops);
      NoLeakIsNoOrphan(DoAll(w, Boot(cfg, boot), cfg, ops).pool, cfg, boot);
      assert !NoLeak(DoAll(w, Boot(cfg, boot), cfg, ops).pool);
    }
  }

  const TIMEOUT: Error := Error("context deadline exceeded", false, true, false, false)

  function AlwaysConnects(n: nat): Option<Error> {
    None
  }

  function AlwaysTimesOut(n: nat): RunOutcome {
    Ran(ErrorFrame, Some(TIMEOUT))
  }

  /** Connecting always works and queries always time out. */
  const TIMEOUTS: World := World(AlwaysConnects, AlwaysTimesOut, AlwaysConnects)

  lemma {:induction false} TimeoutsReopen(net: Net, cfg: Config, conn: CachedConnection, args: bytes, key: Key, i: nat, frames: Frames)
    requires i <= Rounds(cfg)
    ensures NewHandles(net, TimeoutRetry(TIMEOUTS, net, cfg, conn, args, key, i, frames).1) == Rounds(cfg) - i
    decreases Rounds(cfg) - i
  {
    hide Reconnect, Replace;
    ReconnectIs(TIMEOUTS, net, conn, args, key);
    ReplaceOpensOne(net.pool, conn, args, key);
    if i < Rounds(cfg) {
      var (ran, net1) := RunQuery(TIMEOUTS, Reconnect(TIMEOUTS, net, conn, args, key).1);
      TimeoutsReopen(net1, cfg, conn, args, key, i + 1, ran.frames);
    }
  }

  /** One query that keeps timing out loses Retries - 1 handles. */
  lemma TimeoutsLeak(cfg: Config, boot: Settings)
    requires cfg.retries >= 2
    ensures Lost(TIMEOUTS, Boot(cfg, boot), cfg, [Query([])]) == cfg.retries - 1
  {
    hide TimeoutRetry;
    var w, net, key := TIMEOUTS, Boot(cfg, boot), DefaultKey(cfg.uid);
    assert key in net.pool.cache;
    var conn := net.pool.cache[key];
    assert GetConnection(w, net, cfg, []) == (Found(key, conn), net);
    var (first, start) := RunQuery(w, net);
    assert first.err == Some(TIMEOUT);
    assert HandleQuery(w, net, cfg, []).1 == TimeoutRetry(w, start, cfg, conn, [], key, 0, first.frames).1;
    TimeoutsReopen(start, cfg, conn, [], key, 0, first.frames);
    assert Reopened(w, net, cfg, Query([])) == cfg.retries;
    assert [Query([])][1..] == [];
  }

  /** So no sequential run ever queries or pings a closed handle: each operation starts with a usable cache. */
  lemma RunsStayUsable(w: World, cfg: Config, boot: Settings, ops: seq<Task>)
    ensures Usable(DoAll(w, Boot(cfg, boot), cfg, ops).pool)
  {
    hide Boot, DoAll, Orphans, Healthy, Handles, CachedHandles, Lost, EntriesOpen;
    BootIsHealthy(cfg, boot);
    RunAccounts(w, Boot(cfg, boot), cfg, boot, ops);
    HealthyIsUsable(DoAll(w, Boot(cfg, boot), cfg, ops).pool, cfg, boot);
  }

  lemma HealthyIsUsable(pool: Pool, cfg: Config, boot: Settings)
    requires Healthy(pool, cfg, boot)
    ensures Usable(pool)
  {
    assert forall h :: h in pool.closed ==> h in Handles(pool);
  }

  // ---------- Dispose ----------

  /** After Dispose the cache is empty and every handle is closed but those already orphaned. */
  lemma DisposeAccounts(pool: Pool, cfg: Config, boot: Settings)
    requires Healthy(pool, cfg, boot)
    ensures var after := Disposed(pool);
      && after.cache == map[] && after.openings == pool.openings
      && after.closed == pool.closed + CachedHandles(pool)
      && Handles(after) - after.closed == Orphans(pool)
  {
  }

  /** With at most one retry, Dispose at the end of any run leaves no handle open. */
  lemma DisposeClosesAll(w: World, cfg: Config, boot: Settings, ops: seq<Task>)
    requires cfg.retries <= 1
    ensures var after := Disposed(DoAll(w, Boot(cfg, boot), cfg, ops).pool);
      && after.cache == map[]
      && forall h :: 0 <= h < |after.openings| ==> h in after.closed
  {
    hide Healthy, Boot, DoAll;
    BootIsHealthy(cfg, boot);
    var pool := DoAll(w, Boot(cfg, boot), cfg, ops).pool;
    FewRetriesLoseNothing(w, Boot(cfg, boot), cfg, boot, ops);
    RunAccounts(w, Boot(cfg, boot), cfg, boot, ops);
    DisposeAccounts(pool, cfg, boot);
    assert Orphans(pool) == {};
    forall h | 0 <= h < |pool.openings|
      ensures h in Disposed(pool).closed
    {
      assert h in Handles(Disposed(pool));
    }
  }

  // ---------- failing reconnects ----------

  /** The driver refuses every connection from its n-th call on. */
  ghost predicate RefusesFrom(w: World, n: nat) {
    forall j :: j >= n ==> w.dial(j).Some?
  }

  lemma {:induction false} RefusedQueryRetry(w: World, net: Net, cfg: Config, conn: CachedConnection, args: bytes, key: Key, i: nat, frames: Frames)
    requires RefusesFrom(w, net.clock.dials)
    ensures var net' := QueryRetry(w, net, cfg, conn, args, key, i, frames).1;
      net'.pool == net.pool && net'.clock.dials >= net.clock.dials
  {
    hide Reconnect;
    ReconnectIs(w, net, conn, args, key);
  }

  lemma {:induction false} RefusedTimeoutRetry(w: World, net: Net, cfg: Config, conn: CachedConnection, args: bytes, key: Key, i: nat, frames: Frames)
    requires RefusesFrom(w, net.clock.dials)
    ensures var net' := TimeoutRetry(w, net, cfg, conn, args, key, i, frames).1;
      net'.pool == net.pool && net'.clock.dials >= net.clock.dials
    decreases cfg.retries - i
  {
    hide Reconnect;
    ReconnectIs(w, net, conn, args, key);
    if i < cfg.retries {
      RefusedTimeoutRetry(w, Reconnect(w, net, conn, args, key).1, cfg, conn, args, key, i + 1, frames);
    }
  }

  lemma RefusedOp(w: World, net: Net, cfg: Config, op: Task)
    requires RefusesFrom(w, net.clock.dials)
    ensures var net' := Do(w, net, cfg, op);
      net'.pool == net.pool && net'.clock.dials >= net.clock.dials
  {
    match op
    case Query(args) =>
      var (lookup, got) := GetConnection(w, net, cfg, args);
      assert got.pool == net.pool && got.clock.dials >= net.clock.dials;
      if lookup.Found? {
        var (first, start) := RunQuery(w, got);
        RefusedQueryRetry(w, start, cfg, lookup.conn, args, lookup.key, 0, first.frames);
        RefusedTimeoutRetry(w, start, cfg, lookup.conn, args, lookup.key, 0, first.frames);
      }
    case HealthCheck(args) =>
  }

  /** Failed reconnects change neither the cache nor any handle. */
  lemma {:induction false} RefusalsNeverPoison(w: World, net: Net, cfg: Config, ops: seq<Task>)
    requires RefusesFrom(w, net.clock.dials)
    ensures DoAll(w, net, cfg, ops).pool == net.pool
    decreases |ops|
  {
    hide Do;
    if ops != [] {
      RefusedOp(w, net, cfg, ops[0]);
      RefusalsNeverPoison(w, Do(w, net, cfg, ops[0]), cfg, ops[1..]);
    }
  }

  // ---------- coherence and the missing connection ----------

  /** In every state of a run the missing-connection error cannot be the outcome of a lookup or a health check. */
  lemma NeverMissing(w: World, cfg: Config, boot: Settings, ops: seq<Task>, args: bytes)
    ensures var net := DoAll(w, Boot(cfg, boot), cfg, ops);
      && GetConnection(w, net, cfg, args).0 != Rejected(MISSING_DB_CONNECTION)
      && Connect(w, net, cfg, args).0.err != Some(MISSING_DB_CONNECTION)
  {
    hide Healthy, Boot, DoAll, Orphans, Handles, CachedHandles, Lost;
    BootIsHealthy(cfg, boot);
    RunAccounts(w, Boot(cfg, boot), cfg, boot, ops);
    NotMissing(w, DoAll(w, Boot(cfg, boot), cfg, ops), cfg, boot, args);
  }

  lemma NotMissing(w: World, net: Net, cfg: Config, boot: Settings, args: bytes)
    requires Healthy(net.pool, cfg, boot)
    ensures GetConnection(w, net, cfg, args).0 != Rejected(MISSING_DB_CONNECTION)
    ensures Connect(w, net, cfg, args).0.err != Some(MISSING_DB_CONNECTION)
  {
    hide Healthy, GetConnection, PingRetry, KeyWithArgs, DefaultKey;
    HealthyParts(net.pool, cfg, boot);
    GetConnectionKeeps(w, net, cfg, boot, args);
    var key := DefaultKey(cfg.uid);
    PingErrorsAreDownstream(w, net, cfg, net.pool.cache[key], args, key, 0);
  }

  lemma {:induction false} PingErrorsAreDownstream(w: World, net: Net, cfg: Config, conn: CachedConnection, args: bytes, key: Key, i: nat)
    ensures var err := PingRetry(w, net, cfg, conn, args, key, i).0;
      err.Some? ==> err.value.downstream
    decreases cfg.retries - i
  {
    hide Reconnect;
    ReconnectIs(w, net, conn, args, key);
    if i < cfg.retries {
      PingErrorsAreDownstream(w, CheckPing(w, Reconnect(w, net, conn, args, key).1).1, cfg, conn, args, key, i + 1);
    }
  }

  /**
   With several connections, the one a query gets was opened with exactly its
   arguments and the bootstrap settings, if the two do not collide under the hash.
   */
  lemma ConnectionsFitTheirArguments(w: World, cfg: Config, boot: Settings, ops: seq<Task>, args: bytes)
    requires cfg.multiple && |args| > 0 && HashLength(cfg)
    ensures var (lookup, got) := GetConnection(w, DoAll(w, Boot(cfg, boot), cfg, ops), cfg, args);
      lookup.Found? ==>
        && lookup.key != DefaultKey(cfg.uid)
        && lookup.conn.db < |got.pool.openings|
        && var opening := got.pool.openings[lookup.conn.db];
        && opening.settings == boot && lookup.conn.settings == boot
        && cfg.hash(opening.args) == cfg.hash(args)
        && (NoCollision(cfg, opening.args, args) ==> opening.args == args)
  {
    hide Boot, DoAll, Orphans, Handles, CachedHandles, Lost, HashLength;
    BootIsHealthy(cfg, boot);
    RunAccounts(w, Boot(cfg, boot), cfg, boot, ops);
    var net := DoAll(w, Boot(cfg, boot), cfg, ops);
    GetConnectionKeeps(w, net, cfg, boot, args);
    DefaultKeyIsApart(cfg, args);
    var (lookup, got) := GetConnection(w, net, cfg, args);
    if lookup.Found? {
      assert lookup.key == KeyWithArgs(cfg, args);
      KeysFollowHashes(cfg, got.pool.openings[lookup.conn.db].args, args);
    }
  }
}
