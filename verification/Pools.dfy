/**
 The database handles a connector has opened, which of them are closed and
 which are cached, and what opening, closing and storing do to them.
 */
module Pools {
  import opened Prelude
  import opened Failures

  datatype Key = Key(text: string)

  /** The n-th handle that connecting gave. */
  type Handle = nat

  datatype Settings = Settings(uid: string, config: string)

  datatype CachedConnection = CachedConnection(db: Handle, settings: Settings)

  /** What a handle was opened with. */
  datatype Opening = Opening(settings: Settings, args: bytes)

  datatype Pool = Pool(cache: map<Key, CachedConnection>, openings: seq<Opening>, closed: set<Handle>)

  /** How often the driver was asked to connect, to run a query and to ping. */
  datatype Clock = Clock(dials: nat, runs: nat, pings: nat)

  datatype Net = Net(pool: Pool, clock: Clock)

  datatype Frames = NilFrames | ErrorFrame | Rows(id: int)

  datatype RunOutcome = Ran(frames: Frames, err: Option<Error>)

  /** Everything the outside decides: the outcome of the n-th call of each kind. */
  datatype World = World(dial: nat -> Option<Error>, run: nat -> RunOutcome, ping: nat -> Option<Error>)

  datatype Config = Config(uid: string, multiple: bool, forwardHeaders: bool, retries: int, retryOn: seq<string>,
                           hash: bytes -> string)

  // ---------- cache keys ----------

  function DefaultKey(uid: string): Key {
    Key(uid + "-default")
  }

  function KeyWithArgs(cfg: Config, args: bytes): Key {
    Key(cfg.uid + "-" + cfg.hash(args))
  }

  /** SHA-256 in hexadecimal: 64 digits. */
  ghost predicate HashLength(cfg: Config) {
    forall args :: |cfg.hash(args)| == 64
  }

  /** The two do not collide under the hash. */
  predicate NoCollision(cfg: Config, a: bytes, b: bytes) {
    cfg.hash(a) == cfg.hash(b) ==> a == b
  }

  lemma DefaultKeyIsApart(cfg: Config, args: bytes)
    requires HashLength(cfg)
    ensures KeyWithArgs(cfg, args) != DefaultKey(cfg.uid)
  {
    assert |KeyWithArgs(cfg, args).text| == |cfg.uid| + 65;
    assert |DefaultKey(cfg.uid).text| == |cfg.uid| + 8;
  }

  lemma KeysFollowHashes(cfg: Config, a: bytes, b: bytes)
    ensures KeyWithArgs(cfg, a) == KeyWithArgs(cfg, b) <==> cfg.hash(a) == cfg.hash(b)
  {
    var p := cfg.uid + "-";
    assert KeyWithArgs(cfg, a).text[|p|..] == cfg.hash(a) && KeyWithArgs(cfg, b).text[|p|..] == cfg.hash(b);
  }

  /** Keys of datasources with different UIDs never meet. */
  lemma KeysNameTheirSource(a: Config, b: Config, argsA: bytes, argsB: bytes)
    requires HashLength(a) && HashLength(b) && a.uid != b.uid
    ensures KeyWithArgs(a, argsA) != KeyWithArgs(b, argsB) && DefaultKey(a.uid) != DefaultKey(b.uid)
  {
    var p, q := KeyWithArgs(a, argsA).text, KeyWithArgs(b, argsB).text;
    assert |a.hash(argsA)| == 64 && |b.hash(argsB)| == 64;
    assert p[..|p| - 65] == a.uid && q[..|q| - 65] == b.uid;
    var s, t := DefaultKey(a.uid).text, DefaultKey(b.uid).text;
    assert s[..|s| - 8] == a.uid && t[..|t| - 8] == b.uid;
  }

  // ---------- elementary changes ----------

  function Open(pool: Pool, settings: Settings, args: bytes): Pool {
    pool.(openings := pool.openings + [Opening(settings, args)])
  }

  function Close(pool: Pool, db: Handle): Pool {
    pool.(closed := pool.closed + {db})
  }

  function Store(pool: Pool, key: Key, conn: CachedConnection): Pool {
    pool.(cache := pool.cache[key := conn])
  }

  /** One successful reconnect: open, close the old handle, store the new one. */
  function Replace(pool: Pool, conn: CachedConnection, args: bytes, key: Key): Pool {
    Store(Close(Open(pool, conn.settings, args), conn.db), key, CachedConnection(|pool.openings|, conn.settings))
  }

  /** `n` reconnects in a row that all close the same old handle. */
  function ReplaceTimes(pool: Pool, conn: CachedConnection, args: bytes, key: Key, n: nat): Pool
    decreases n
  {
    if n == 0 then pool else ReplaceTimes(Replace(pool, conn, args, key), conn, args, key, n - 1)
  }

  /** Repeating keeps only the last handle; the first close is the only one that matters. */
  lemma {:induction false} ReplaceTimesIs(pool: Pool, conn: CachedConnection, args: bytes, key: Key, n: nat)
    requires n > 0
    ensures ReplaceTimes(pool, conn, args, key, n) ==
            Pool(pool.cache[key := CachedConnection(|pool.openings| + n - 1, conn.settings)],
                 pool.openings + seq(n, _ => Opening(conn.settings, args)),
                 pool.closed + {conn.db})
    decreases n
  {
    var next := Replace(pool, conn, args, key);
    var one := Opening(conn.settings, args);
    if n == 1 {
      assert seq(1, _ => one) == [one];
    } else {
      ReplaceTimesIs(next, conn, args, key, n - 1);
      assert pool.openings + [one] + seq(n - 1, _ => one) == pool.openings + seq(n, _ => one);
      assert next.closed + {conn.db} == pool.closed + {conn.db};
    }
  }

  /** The n handles that come after the first m. */
  function Following(m: nat, n: int): (r: seq<Handle>)
    ensures |r| == if n < 0 then 0 else n
    ensures forall i :: 0 <= i < |r| ==> r[i] == m + i
  {
    if n <= 0 then [] else Following(m, n - 1) + [m + n - 1]
  }

  lemma FollowingStep(m: nat, n: nat)
    ensures Following(m, 0) == [] && Following(m, n + 1) == Following(m, n) + [m + n]
  {
  }

  // ---------- accounting ----------

  /** The handles from `lo` up to but not including `hi`. */
  ghost function Range(lo: nat, hi: int): (r: set<Handle>)
    ensures forall h :: h in r <==> lo <= h < hi
    ensures |r| == if hi <= lo then 0 else hi - lo
    decreases hi - lo
  {
    if hi <= lo then {} else Range(lo, hi - 1) + {hi - 1}
  }

  ghost function Handles(pool: Pool): set<Handle> {
    Range(0, |pool.openings|)
  }

  ghost function CachedHandles(pool: Pool): set<Handle> {
    set k | k in pool.cache :: pool.cache[k].db
  }

  /** Open, but no longer reachable through the cache. */
  ghost function Orphans(pool: Pool): set<Handle> {
    Handles(pool) - pool.closed - CachedHandles(pool)
  }

  /** Every cached handle is open. */
  ghost predicate EntriesOpen(pool: Pool) {
    forall k :: k in pool.cache ==> pool.cache[k].db < |pool.openings| && pool.cache[k].db !in pool.closed
  }

  /** `db` and every closed handle are among those opened. */
  ghost predicate WereOpened(pool: Pool, db: Handle) {
    db < |pool.openings| && forall h :: h in pool.closed ==> h < |pool.openings|
  }

  /** Whatever is taken from the cache is open, and what will be opened is not closed already. */
  ghost predicate Usable(pool: Pool) {
    EntriesOpen(pool) && forall h :: h in pool.closed ==> h < |pool.openings|
  }

  /** No handle is cached twice. */
  ghost predicate EntriesDistinct(pool: Pool) {
    forall j, k :: j in pool.cache && k in pool.cache && pool.cache[j].db == pool.cache[k].db ==> j == k
  }

  /** Everything carries the settings the connector was made with. */
  ghost predicate OneSettings(pool: Pool, boot: Settings) {
    && (forall k :: k in pool.cache ==> pool.cache[k].settings == boot)
    && (forall h :: 0 <= h < |pool.openings| ==> pool.openings[h].settings == boot)
  }

  /** A handle cached under the key of some arguments was opened with arguments of that key. */
  ghost predicate KeysCoherent(pool: Pool, cfg: Config) {
    forall k :: k in pool.cache && k != DefaultKey(cfg.uid) && pool.cache[k].db < |pool.openings| ==>
      k == KeyWithArgs(cfg, pool.openings[pool.cache[k].db].args)
  }

  /** What holds between operations: the default entry is there and every entry is open and its own. */
  ghost predicate Healthy(pool: Pool, cfg: Config, boot: Settings) {
    && DefaultKey(cfg.uid) in pool.cache
    && pool.closed <= Handles(pool)
    && EntriesOpen(pool) && EntriesDistinct(pool) && OneSettings(pool, boot) && KeysCoherent(pool, cfg)
  }

  /** Handles split into closed, cached and orphaned. */
  lemma HandlesSplit(pool: Pool, cfg: Config, boot: Settings)
    requires Healthy(pool, cfg, boot)
    ensures Handles(pool) == pool.closed + CachedHandles(pool) + Orphans(pool)
    ensures pool.closed !! CachedHandles(pool) !! Orphans(pool)
  {
    assert forall h :: h in CachedHandles(pool) ==> exists k :: k in pool.cache && pool.cache[k].db == h;
  }

  lemma CachedWithout(pool: Pool, rest: Pool, k: Key)
    requires EntriesDistinct(pool) && k in pool.cache && rest == pool.(cache := pool.cache - {k})
    ensures EntriesDistinct(rest) && pool.cache[k].db !in CachedHandles(rest)
    ensures CachedHandles(pool) == CachedHandles(rest) + {pool.cache[k].db}
  {
    forall h
      ensures h in CachedHandles(pool) <==> h in CachedHandles(rest) + {pool.cache[k].db}
    {
      if h in CachedHandles(pool) && h != pool.cache[k].db {
        var j :| j in pool.cache && pool.cache[j].db == h;
        assert j in rest.cache;
      }
    }
  }

  lemma {:induction false} CachedCount(pool: Pool)
    requires EntriesDistinct(pool)
    ensures |CachedHandles(pool)| == |pool.cache|
    decreases |pool.cache|
  {
    if k :| k in pool.cache {
      hide EntriesDistinct, CachedHandles;
      var rest := pool.(cache := pool.cache - {k});
      CachedWithout(pool, rest, k);
      CachedCount(rest);
    } else {
      assert pool.cache == map[] && CachedHandles(pool) == {};
    }
  }

  /** The number of orphans is what was opened and is neither closed nor cached. */
  lemma OrphanCount(pool: Pool, cfg: Config, boot: Settings)
    requires Healthy(pool, cfg, boot)
    ensures |Orphans(pool)| == |pool.openings| - |pool.closed| - |pool.cache|
  {
    HealthyParts(pool, cfg, boot);
    HandlesSplit(pool, cfg, boot);
    CachedCount(pool);
    assert |Handles(pool)| == |pool.openings|;
    hide Healthy, Handles, CachedHandles, Orphans, EntriesOpen, EntriesDistinct, OneSettings;
    SplitCount(Handles(pool), pool.closed, CachedHandles(pool), Orphans(pool));
  }

  lemma SplitCount(known: set<Handle>, closed: set<Handle>, cached: set<Handle>, orphans: set<Handle>)
    requires known == closed + cached + orphans && closed !! cached !! orphans
    ensures |known| == |closed| + |cached| + |orphans|
  {
  }

  /** Every handle ever opened is closed, or cached under exactly one key. */
  ghost predicate NoLeak(pool: Pool) {
    && (forall h :: 0 <= h < |pool.openings| && h !in pool.closed ==> exists k :: k in pool.cache && pool.cache[k].db == h)
    && (forall k :: k in pool.cache ==> pool.cache[k].db !in pool.closed)
    && EntriesDistinct(pool)
  }

  lemma OrphanIs(pool: Pool, h: Handle)
    ensures h in Orphans(pool) <==>
            h < |pool.openings| && h !in pool.closed && forall k :: k in pool.cache ==> pool.cache[k].db != h
  {
  }

  lemma NoLeakIsNoOrphan(pool: Pool, cfg: Config, boot: Settings)
    requires Healthy(pool, cfg, boot)
    ensures NoLeak(pool) <==> Orphans(pool) == {}
  {
    HealthyParts(pool, cfg, boot);
    hide Healthy, OneSettings, Handles, Orphans;
    forall h: Handle
      ensures h in Orphans(pool) <==>
              h < |pool.openings| && h !in pool.closed && forall k :: k in pool.cache ==> pool.cache[k].db != h
    {
      OrphanIs(pool, h);
    }
  }

  /** `conn` is, or once was, the entry under `key`, and no other key has it. */
  ghost predicate Owns(pool: Pool, key: Key, conn: CachedConnection) {
    && key in pool.cache
    && conn.db < |pool.openings|
    && (conn.db in pool.closed || pool.cache[key].db == conn.db)
    && (forall k :: k in pool.cache && k != key ==> pool.cache[k].db != conn.db)
  }

  lemma ReplaceOpen(pool: Pool, conn: CachedConnection, key: Key, args: bytes)
    requires EntriesOpen(pool) && Owns(pool, key, conn) && pool.closed <= Handles(pool)
    ensures var after := Replace(pool, conn, args, key);
      EntriesOpen(after) && after.closed <= Handles(after)
  {
    hide Range;
  }

  lemma ReplaceDistinct(pool: Pool, conn: CachedConnection, key: Key, args: bytes)
    requires EntriesOpen(pool) && EntriesDistinct(pool)
    ensures EntriesDistinct(Replace(pool, conn, args, key))
  {
  }

  lemma ReplaceSettings(pool: Pool, boot: Settings, conn: CachedConnection, key: Key, args: bytes)
    requires OneSettings(pool, boot) && conn.settings == boot
    ensures OneSettings(Replace(pool, conn, args, key), boot)
  {
  }

  lemma ReplaceCoherent(pool: Pool, cfg: Config, conn: CachedConnection, key: Key, args: bytes)
    requires EntriesOpen(pool) && KeysCoherent(pool, cfg)
    requires key != DefaultKey(cfg.uid) ==> key == KeyWithArgs(cfg, args)
    ensures KeysCoherent(Replace(pool, conn, args, key), cfg)
  {
    hide DefaultKey, KeyWithArgs;
  }

  lemma ReplaceOwns(pool: Pool, conn: CachedConnection, key: Key, args: bytes)
    requires Owns(pool, key, conn)
    ensures Owns(Replace(pool, conn, args, key), key, conn)
  {
  }

  lemma ReplaceHealthy(pool: Pool, cfg: Config, boot: Settings, conn: CachedConnection, key: Key, args: bytes)
    requires Healthy(pool, cfg, boot) && Owns(pool, key, conn) && conn.settings == boot
    requires key != DefaultKey(cfg.uid) ==> key == KeyWithArgs(cfg, args)
    ensures Healthy(Replace(pool, conn, args, key), cfg, boot)
    ensures Owns(Replace(pool, conn, args, key), key, conn)
    ensures Replace(pool, conn, args, key).cache[key].db == |pool.openings| > conn.db
    ensures |Replace(pool, conn, args, key).openings| == |pool.openings| + 1
  {
    ReplaceOpen(pool, conn, key, args);
    ReplaceDistinct(pool, conn, key, args);
    ReplaceSettings(pool, boot, conn, key, args);
    ReplaceCoherent(pool, cfg, conn, key, args);
    ReplaceOwns(pool, conn, key, args);
    hide Range, DefaultKey, KeyWithArgs, EntriesOpen, EntriesDistinct, OneSettings, KeysCoherent, Owns;
  }

  lemma ReplaceOrphans(pool: Pool, conn: CachedConnection, key: Key, args: bytes)
    requires EntriesOpen(pool) && EntriesDistinct(pool) && pool.closed <= Handles(pool) && Owns(pool, key, conn)
    ensures Orphans(Replace(pool, conn, args, key)) ==
            Orphans(pool) + (if pool.cache[key].db == conn.db then {} else {pool.cache[key].db})
  {
    hide Range, CachedHandles;
    var after := Replace(pool, conn, args, key);
    CachedAfterStore(pool, after, key, |pool.openings|);
    CachedAreOpen(pool, key);
    assert Handles(after) == Handles(pool) + {|pool.openings|} && |pool.openings| !in Handles(pool);
    assert after.closed == pool.closed + {conn.db};
    assert conn.db in pool.closed || conn.db == pool.cache[key].db;
    hide Handles, EntriesOpen, EntriesDistinct, Replace, Owns;
    OrphanSets(Handles(pool), pool.closed, CachedHandles(pool), |pool.openings|, pool.cache[key].db, conn.db);
  }

  lemma CachedAreOpen(pool: Pool, key: Key)
    requires EntriesOpen(pool) && key in pool.cache
    ensures CachedHandles(pool) <= Handles(pool) && CachedHandles(pool) !! pool.closed
    ensures pool.cache[key].db in CachedHandles(pool)
  {
  }

  lemma OrphanSets(known: set<Handle>, closed: set<Handle>, cached: set<Handle>, stored: Handle, replaced: Handle, db: Handle)
    requires stored !in known && closed <= known && cached <= known && cached !! closed && replaced in cached
    requires db in closed || db == replaced
    ensures known + {stored} - (closed + {db}) - (cached - {replaced} + {stored}) ==
            known - closed - cached + (if replaced == db then {} else {replaced})
  {
  }

  lemma CachedAfterStore(pool: Pool, after: Pool, key: Key, db: Handle)
    requires key in pool.cache && EntriesDistinct(pool)
    requires after.cache.Keys == pool.cache.Keys && after.cache[key].db == db
    requires forall k :: k in pool.cache && k != key ==> after.cache[k] == pool.cache[k]
    ensures CachedHandles(after) == CachedHandles(pool) - {pool.cache[key].db} + {db}
  {
    forall h
      ensures h in CachedHandles(after) <==> h in CachedHandles(pool) - {pool.cache[key].db} + {db}
    {
      if h in CachedHandles(after) {
        var k :| k in after.cache && after.cache[k].db == h;
        assert k in pool.cache;
      }
      if h == db {
        assert key in after.cache;
      } else if h in CachedHandles(pool) - {pool.cache[key].db} {
        var k :| k in pool.cache && pool.cache[k].db == h;
        assert k in after.cache;
      }
    }
  }

  /** A retry run with n successful reconnects keeps the pool healthy and adds no key. */
  lemma {:induction false} ReplaceTimesHealthy(pool: Pool, cfg: Config, boot: Settings, conn: CachedConnection, key: Key, args: bytes, n: nat)
    requires Healthy(pool, cfg, boot) && Owns(pool, key, conn) && conn.settings == boot
    requires key != DefaultKey(cfg.uid) ==> key == KeyWithArgs(cfg, args)
    ensures var after := ReplaceTimes(pool, conn, args, key, n);
      && Healthy(after, cfg, boot) && after.cache.Keys == pool.cache.Keys && |after.openings| == |pool.openings| + n
    decreases n
  {
    hide Range, Healthy, DefaultKey, KeyWithArgs;
    if n > 0 {
      ReplaceHealthy(pool, cfg, boot, conn, key, args);
      ReplaceTimesHealthy(Replace(pool, conn, args, key), cfg, boot, conn, key, args, n - 1);
    }
  }

  /** Once the old handle is closed, each reconnect orphans the handle the one before it stored. */
  lemma {:induction false} LaterOrphans(pool: Pool, cfg: Config, boot: Settings, conn: CachedConnection, key: Key, args: bytes, n: nat)
    requires Healthy(pool, cfg, boot) && Owns(pool, key, conn) && conn.settings == boot
    requires key != DefaultKey(cfg.uid) ==> key == KeyWithArgs(cfg, args)
    requires pool.cache[key].db == |pool.openings| - 1 > conn.db
    ensures Orphans(ReplaceTimes(pool, conn, args, key, n)) ==
            Orphans(pool) + Range(|pool.openings| - 1, |pool.openings| - 1 + n)
    decreases n
  {
    hide Orphans, Range, Healthy, DefaultKey, KeyWithArgs, Replace, Owns, EntriesOpen, EntriesDistinct, OneSettings, Handles;
    var last := |pool.openings| - 1;
    if n == 0 {
      assert Range(last, last) == {};
      assert Orphans(pool) + {} == Orphans(pool);
    } else {
      var next := Replace(pool, conn, args, key);
      ReplaceHealthy(pool, cfg, boot, conn, key, args);
      HealthyParts(pool, cfg, boot);
      ReplaceOrphans(pool, conn, key, args);
      LaterOrphans(next, cfg, boot, conn, key, args, n - 1);
      UnionStep(Orphans(pool), last, n);
    }
  }

  lemma UnionStep(a: set<Handle>, lo: nat, n: nat)
    requires n > 0
    ensures a + {lo} + Range(lo + 1, lo + n) == a + Range(lo, lo + n)
  {
  }

  /** All new handles of the run but the last are orphaned, and nothing else is. */
  lemma ReplaceTimesOrphans(pool: Pool, cfg: Config, boot: Settings, conn: CachedConnection, key: Key, args: bytes, n: nat)
    requires Healthy(pool, cfg, boot) && Owns(pool, key, conn) && conn.settings == boot
    requires key != DefaultKey(cfg.uid) ==> key == KeyWithArgs(cfg, args)
    requires pool.cache[key] == conn
    ensures Orphans(ReplaceTimes(pool, conn, args, key, n)) ==
            Orphans(pool) + Range(|pool.openings|, |pool.openings| + n - 1)
  {
    hide Orphans, Range, Healthy, DefaultKey, KeyWithArgs, Replace, Owns, EntriesOpen, EntriesDistinct, OneSettings, Handles;
    assert Orphans(pool) + {} == Orphans(pool);
    if n == 0 {
      assert Range(|pool.openings|, |pool.openings| + n - 1) == {};
    } else {
      ReplaceHealthy(pool, cfg, boot, conn, key, args);
      HealthyParts(pool, cfg, boot);
      ReplaceOrphans(pool, conn, key, args);
      LaterOrphans(Replace(pool, conn, args, key), cfg, boot, conn, key, args, n - 1);
    }
  }

  lemma HealthyParts(pool: Pool, cfg: Config, boot: Settings)
    requires Healthy(pool, cfg, boot)
    ensures EntriesOpen(pool) && EntriesDistinct(pool) && OneSettings(pool, boot) && pool.closed <= Handles(pool)
    ensures DefaultKey(cfg.uid) in pool.cache
  {
  }

  /** The exact accounts of a retry run that starts from the entry under its key. */
  lemma RetryRunAccounts(pool: Pool, cfg: Config, boot: Settings, key: Key, args: bytes, n: nat)
    requires Healthy(pool, cfg, boot) && key in pool.cache
    requires key != DefaultKey(cfg.uid) ==> key == KeyWithArgs(cfg, args)
    ensures var after := ReplaceTimes(pool, pool.cache[key], args, key, n);
      && Healthy(after, cfg, boot) && after.cache.Keys == pool.cache.Keys && |after.openings| == |pool.openings| + n
      && Orphans(after) == Orphans(pool) + Range(|pool.openings|, |pool.openings| + n - 1)
      && |Orphans(after)| == |Orphans(pool)| + (if n <= 1 then 0 else n - 1)
  {
    hide Orphans, Range, Healthy, DefaultKey, KeyWithArgs;
    var conn := pool.cache[key];
    HealthyParts(pool, cfg, boot);
    assert Owns(pool, key, conn);
    ReplaceTimesHealthy(pool, cfg, boot, conn, key, args, n);
    ReplaceTimesOrphans(pool, cfg, boot, conn, key, args, n);
    assert Orphans(pool) + {} == Orphans(pool);
    OldOrphans(pool, n);
  }

  lemma OldOrphans(pool: Pool, n: nat)
    ensures Orphans(pool) !! Range(|pool.openings|, |pool.openings| + n - 1)
  {
  }
}
