/**
 Queries and health checks running at once over one cache, one atomic access
 at a time, in any order and in any number.
 */
module Interleaving {
  import opened Prelude
  import opened Failures
  import opened Pools
  import opened Operations

  /**
   Where a goroutine is. `left` is the number of rounds its retry loop has left,
   `inUse` the handle it is about to run its query on, or to ping.
   */
  datatype Phase =
    | Started
    | LookingUp(settings: Settings)
    | Connecting(settings: Settings)
    | StoringFirst(db: Handle, settings: Settings)
    | Working(key: Key, conn: CachedConnection, left: int, inUse: Option<Handle>)
    | Closing(key: Key, conn: CachedConnection, left: int, redialed: Handle)
    | Storing(key: Key, conn: CachedConnection, left: int, redialed: Handle)
    | Finished
    | MissedDefault

  datatype Thread = Thread(task: Task, phase: Phase)

  /** `home` records under which key each handle is, or will be, stored. */
  datatype System = System(pool: Pool, home: seq<Key>, threads: seq<Thread>)

  datatype Action =
    | Spawn(task: Task)
    | LoadDefault(t: nat)
    | LoadKeyed(t: nat)
    | ConnectFirst(t: nat, ok: bool)
    | StoreFirst(t: nat)
    | Use(t: nat)
    | Redial(t: nat, ok: bool)
    | CloseOld(t: nat)
    | StoreNew(t: nat)
    | Finish(t: nat)

  function At(sys: System, t: nat, phase: Phase): System
    requires t < |sys.threads|
  {
    sys.(threads := sys.threads[t := sys.threads[t].(phase := phase)])
  }

  predicate UsesDefault(cfg: Config, task: Task) {
    task.HealthCheck? || !cfg.multiple || |task.args| == 0
  }

  function TaskKey(cfg: Config, task: Task): Key {
    if UsesDefault(cfg, task) then DefaultKey(cfg.uid) else KeyWithArgs(cfg, task.args)
  }

  predicate NotAllowed(cfg: Config, task: Task) {
    task.Query? && !cfg.multiple && !cfg.forwardHeaders && |task.args| > 0 && task.args != EMPTY_OBJECT
  }

  /** A query runs on the connection it found; a health check with retries reconnects before its first ping. */
  function FirstUse(cfg: Config, task: Task, db: Handle): Option<Handle> {
    if task.HealthCheck? && cfg.retries != 0 then None else Some(db)
  }

  /** The connection is found, and the whole retry loop lies ahead. */
  function ReadyPhase(cfg: Config, task: Task, key: Key, conn: CachedConnection): Phase {
    Working(key, conn, cfg.retries, FirstUse(cfg, task, conn.db))
  }

  /** The first Load: of the default entry. */
  function AfterLoadDefault(sys: System, cfg: Config, task: Task): Phase {
    var key := DefaultKey(cfg.uid);
    if NotAllowed(cfg, task) then Finished
    else if key !in sys.pool.cache then MissedDefault
    else if UsesDefault(cfg, task) then ReadyPhase(cfg, task, key, sys.pool.cache[key])
    else LookingUp(sys.pool.cache[key].settings)
  }

  /** The state after an action, or None where the action is not the goroutine's next one. */
  function Next(sys: System, cfg: Config, a: Action): Option<System> {
    if a.Spawn? then Some(sys.(threads := sys.threads + [Thread(a.task, Started)]))
    else if a.t >= |sys.threads| then None
    else
      var thread := sys.threads[a.t];
      var key, db := TaskKey(cfg, thread.task), |sys.pool.openings|;
      match (a, thread.phase)
      case (LoadDefault(t), Started) => Some(At(sys, t, AfterLoadDefault(sys, cfg, thread.task)))
      case (LoadKeyed(t), LookingUp(settings)) =>
        Some(At(sys, t, if key in sys.pool.cache then ReadyPhase(cfg, thread.task, key, sys.pool.cache[key]) else Connecting(settings)))
      case (ConnectFirst(t, ok), Connecting(settings)) =>
        if !ok then Some(At(sys, t, Finished))
        else Some(At(OpenFor(sys, settings, thread.task.args, key), t, StoringFirst(db, settings)))
      case (StoreFirst(t), StoringFirst(redialed, settings)) =>
        var conn := CachedConnection(redialed, settings);
        Some(At(sys.(pool := Store(sys.pool, key, conn)), t, ReadyPhase(cfg, thread.task, key, conn)))
      case (Use(t), Working(k, conn, left, Some(_))) => Some(At(sys, t, Working(k, conn, left, None)))
      case (Redial(t, ok), Working(k, conn, left, None)) =>
        if left <= 0 then None
        else if !ok then Some(At(sys, t, Working(k, conn, left - 1, None)))
        else Some(At(OpenFor(sys, conn.settings, thread.task.args, k), t, Closing(k, conn, left, db)))
      case (CloseOld(t), Closing(k, conn, left, redialed)) =>
        Some(At(sys.(pool := Close(sys.pool, conn.db)), t, Storing(k, conn, left, redialed)))
      case (StoreNew(t), Storing(k, conn, left, redialed)) =>
        Some(At(sys.(pool := Store(sys.pool, k, CachedConnection(redialed, conn.settings))), t, Working(k, conn, left - 1, Some(redialed))))
      case (Finish(t), Working(_, _, _, None)) => Some(At(sys, t, Finished))
      case _ => None
  }

  /** A successful call to the driver, on behalf of a goroutine that will store the handle under `key`. */
  function OpenFor(sys: System, settings: Settings, args: bytes, key: Key): System {
    sys.(pool := Open(sys.pool, settings, args), home := sys.home + [key])
  }

  function Exec(sys: System, cfg: Config, actions: seq<Action>): Option<System>
    decreases |actions|
  {
    if actions == [] then Some(sys)
    else
      match Next(sys, cfg, actions[0])
      case None => None
      case Some(sys') => Exec(sys', cfg, actions[1..])
  }

  /** The state NewConnector leaves behind, with no goroutine running. */
  function Initial(cfg: Config, boot: Settings): System {
    System(Boot(cfg, boot).pool, [DefaultKey(cfg.uid)], [])
  }

  // ---------- the invariant ----------

  predicate HoldsConn(p: Phase) {
    p.Working? || p.Closing? || p.Storing?
  }

  predicate HasNew(p: Phase) {
    p.StoringFirst? || p.Closing? || p.Storing?
  }

  /** The handle a goroutine has opened and not yet stored. */
  function New(p: Phase): Handle
    requires HasNew(p)
  {
    if p.StoringFirst? then p.db else p.redialed
  }

  ghost predicate Bookkeeping(sys: System, cfg: Config, boot: Settings) {
    && |sys.home| == |sys.pool.openings|
    && DefaultKey(cfg.uid) in sys.pool.cache
    && OneSettings(sys.pool, boot)
    && (forall k :: k in sys.pool.cache ==> sys.pool.cache[k].db < |sys.home| && sys.home[sys.pool.cache[k].db] == k)
  }

  /** A handle is stored under the default key or under the key of the arguments it was opened with. */
  ghost predicate Homes(sys: System, cfg: Config) {
    && |sys.home| == |sys.pool.openings|
    && (forall h :: 0 <= h < |sys.home| ==> sys.home[h] == DefaultKey(cfg.uid) || sys.home[h] == KeyWithArgs(cfg, sys.pool.openings[h].args))
  }

  /** What each goroutine remembers is true of the handles it holds. */
  ghost predicate ThreadOk(sys: System, cfg: Config, boot: Settings, thread: Thread) {
    var p, key := thread.phase, TaskKey(cfg, thread.task);
    && !p.MissedDefault?
    && (p.LookingUp? || p.Connecting? || p.StoringFirst? ==> p.settings == boot)
    && (HoldsConn(p) ==> p.key == key && p.conn.settings == boot && p.conn.db < |sys.home| && sys.home[p.conn.db] == key)
    && (HasNew(p) ==> New(p) < |sys.home| && sys.home[New(p)] == key)
    && (p.Working? && p.inUse.Some? ==> p.inUse.value < |sys.home| && sys.home[p.inUse.value] == key)
  }

  ghost predicate ThreadsOk(sys: System, cfg: Config, boot: Settings) {
    forall t :: 0 <= t < |sys.threads| ==> ThreadOk(sys, cfg, boot, sys.threads[t])
  }

  predicate HasNewAt(sys: System, t: int) {
    0 <= t < |sys.threads| && HasNew(sys.threads[t].phase)
  }

  function NewAt(sys: System, t: int): Handle
    requires HasNewAt(sys, t)
  {
    New(sys.threads[t].phase)
  }

  predicate HoldsAt(sys: System, t: int) {
    0 <= t < |sys.threads| && HoldsConn(sys.threads[t].phase)
  }

  function HeldAt(sys: System, t: int): Handle
    requires HoldsAt(sys, t)
  {
    sys.threads[t].phase.conn.db
  }

  /** A handle not yet stored is open, not cached, and known to its goroutine alone. */
  ghost predicate Private(sys: System) {
    && (forall t :: HasNewAt(sys, t) ==> NewAt(sys, t) < |sys.pool.openings| && NewAt(sys, t) !in sys.pool.closed)
    && (forall t, k :: HasNewAt(sys, t) && k in sys.pool.cache ==> sys.pool.cache[k].db != NewAt(sys, t))
    && (forall s, t :: HasNewAt(sys, s) && HasNewAt(sys, t) && NewAt(sys, s) == NewAt(sys, t) ==> s == t)
    && (forall s, t :: HoldsAt(sys, s) && HasNewAt(sys, t) ==> HeldAt(sys, s) != NewAt(sys, t))
  }

  /** Goroutine t has closed the handle cached under `key` and not yet stored the new one. */
  predicate Replacing(sys: System, t: int, key: Key)
    requires key in sys.pool.cache
  {
    && 0 <= t < |sys.threads|
    && sys.threads[t].phase.Storing? && sys.threads[t].phase.key == key
    && sys.threads[t].phase.conn.db == sys.pool.cache[key].db
  }

  ghost predicate ClosedIsReplaced(sys: System) {
    forall k :: k in sys.pool.cache && sys.pool.cache[k].db in sys.pool.closed ==> exists t :: Replacing(sys, t, k)
  }

  ghost predicate Inv(sys: System, cfg: Config, boot: Settings) {
    && Bookkeeping(sys, cfg, boot) && Homes(sys, cfg) && ThreadsOk(sys, cfg, boot)
    && ClosedWereOpened(sys) && Private(sys) && ClosedIsReplaced(sys)
  }

  // ---------- every action keeps it ----------

  lemma BookkeepingKept(sys: System, cfg: Config, boot: Settings, a: Action)
    requires Bookkeeping(sys, cfg, boot) && ThreadsOk(sys, cfg, boot) && Next(sys, cfg, a).Some?
    ensures Bookkeeping(Next(sys, cfg, a).value, cfg, boot)
  {
    hide DefaultKey, KeyWithArgs, TaskKey;
    if !a.Spawn? {
      assert ThreadOk(sys, cfg, boot, sys.threads[a.t]);
    }
  }

  lemma HomesKept(sys: System, cfg: Config, boot: Settings, a: Action)
    requires Homes(sys, cfg) && ThreadsOk(sys, cfg, boot) && Next(sys, cfg, a).Some?
    ensures Homes(Next(sys, cfg, a).value, cfg)
  {
    hide DefaultKey, KeyWithArgs;
    if !a.Spawn? {
      assert ThreadOk(sys, cfg, boot, sys.threads[a.t]);
    }
  }

  /** Only goroutine `t` moves. */
  predicate OthersStay(sys: System, sys': System, t: nat) {
    && |sys'.threads| >= |sys.threads| && t < |sys'.threads|
    && forall s :: 0 <= s < |sys'.threads| && s != t ==> s < |sys.threads| && sys'.threads[s] == sys.threads[s]
  }

  function Actor(sys: System, a: Action): nat {
    if a.Spawn? then |sys.threads| else a.t
  }

  lemma NextMovesOne(sys: System, cfg: Config, a: Action)
    requires Next(sys, cfg, a).Some?
    ensures OthersStay(sys, Next(sys, cfg, a).value, Actor(sys, a))
  {
    hide DefaultKey, KeyWithArgs, TaskKey, AfterLoadDefault;
  }

  /** The goroutine that moves, or starts, remembers only what is so. */
  lemma ActorOk(sys: System, cfg: Config, boot: Settings, a: Action)
    requires Bookkeeping(sys, cfg, boot) && ThreadsOk(sys, cfg, boot) && Next(sys, cfg, a).Some?
    ensures var sys', t := Next(sys, cfg, a).value, Actor(sys, a);
      t < |sys'.threads| && ThreadOk(sys', cfg, boot, sys'.threads[t])
  {
    hide DefaultKey, KeyWithArgs, TaskKey, ThreadsOk;
    if !a.Spawn? {
      KnownOk(sys, cfg, boot, a.t);
      if a.LoadDefault? {
        LoadedDefaultOk(sys, cfg, boot, sys.threads[a.t].task);
      }
      hide AfterLoadDefault;
    }
  }

  lemma KnownOk(sys: System, cfg: Config, boot: Settings, t: int)
    requires ThreadsOk(sys, cfg, boot)
    ensures 0 <= t < |sys.threads| ==> ThreadOk(sys, cfg, boot, sys.threads[t])
  {
  }

  lemma LoadedDefaultOk(sys: System, cfg: Config, boot: Settings, task: Task)
    requires Bookkeeping(sys, cfg, boot)
    ensures ThreadOk(sys, cfg, boot, Thread(task, AfterLoadDefault(sys, cfg, task)))
  {
    hide DefaultKey, KeyWithArgs;
  }

  lemma HomeGrows(sys: System, cfg: Config, a: Action)
    requires Next(sys, cfg, a).Some?
    ensures sys.home <= Next(sys, cfg, a).value.home
  {
    hide DefaultKey, KeyWithArgs, TaskKey, AfterLoadDefault;
  }

  lemma ThreadsOkKept(sys: System, cfg: Config, boot: Settings, a: Action)
    requires Bookkeeping(sys, cfg, boot) && ThreadsOk(sys, cfg, boot) && Next(sys, cfg, a).Some?
    ensures ThreadsOk(Next(sys, cfg, a).value, cfg, boot)
  {
    hide Next, Bookkeeping, DefaultKey, KeyWithArgs, TaskKey;
    var sys', t := Next(sys, cfg, a).value, Actor(sys, a);
    ActorOk(sys, cfg, boot, a);
    NextMovesOne(sys, cfg, a);
    HomeGrows(sys, cfg, a);
    forall s | 0 <= s < |sys'.threads|
      ensures ThreadOk(sys', cfg, boot, sys'.threads[s])
    {
      var thread := sys'.threads[s];
      if s != t {
        assert thread == sys.threads[s];
        assert ThreadOk(sys, cfg, boot, thread);
      }
    }
  }

  /** No handle is opened or closed, and the goroutine has nothing left to store. */
  lemma PrivateAfterMove(sys: System, sys': System, t: nat)
    requires Private(sys) && OthersStay(sys, sys', t) && !HasNewAt(sys', t)
    requires sys'.pool.openings == sys.pool.openings && sys'.pool.closed == sys.pool.closed
    requires forall k :: k in sys'.pool.cache ==>
               (k in sys.pool.cache && sys'.pool.cache[k] == sys.pool.cache[k]) || (HasNewAt(sys, t) && sys'.pool.cache[k].db == NewAt(sys, t))
    requires HoldsAt(sys', t) ==>
               || (HoldsAt(sys, t) && HeldAt(sys', t) == HeldAt(sys, t))
               || (HasNewAt(sys, t) && HeldAt(sys', t) == NewAt(sys, t))
               || (exists k :: k in sys.pool.cache && HeldAt(sys', t) == sys.pool.cache[k].db)
    ensures Private(sys')
  {
    assert forall s :: s != t && HasNewAt(sys', s) ==> HasNewAt(sys, s) && NewAt(sys', s) == NewAt(sys, s);
    assert forall s :: s != t && HoldsAt(sys', s) ==> HoldsAt(sys, s) && HeldAt(sys', s) == HeldAt(sys, s);
  }

  /** A handle just opened is unlike every handle known before. */
  lemma PrivateAfterDial(sys: System, sys': System, t: nat)
    requires Private(sys) && OthersStay(sys, sys', t) && HasNewAt(sys', t) && NewAt(sys', t) == |sys.pool.openings|
    requires |sys'.pool.openings| == |sys.pool.openings| + 1 && sys'.pool.closed == sys.pool.closed && sys'.pool.cache == sys.pool.cache
    requires forall h :: h in sys.pool.closed ==> h < |sys.pool.openings|
    requires forall k :: k in sys.pool.cache ==> sys.pool.cache[k].db < |sys.pool.openings|
    requires forall s :: HoldsAt(sys, s) ==> HeldAt(sys, s) < |sys.pool.openings|
    requires HoldsAt(sys', t) ==> HoldsAt(sys, t) && HeldAt(sys', t) == HeldAt(sys, t)
    ensures Private(sys')
  {
    assert forall s :: s != t && HasNewAt(sys', s) ==> HasNewAt(sys, s) && NewAt(sys', s) == NewAt(sys, s);
    assert forall s :: s != t && HoldsAt(sys', s) ==> HoldsAt(sys, s) && HeldAt(sys', s) == HeldAt(sys, s);
  }

  /** The handle closed is one a goroutine holds, so nobody is about to store it. */
  lemma PrivateAfterClose(sys: System, sys': System, t: nat)
    requires Private(sys) && OthersStay(sys, sys', t)
    requires HoldsAt(sys, t) && HoldsAt(sys', t) && HeldAt(sys', t) == HeldAt(sys, t)
    requires HasNewAt(sys, t) && HasNewAt(sys', t) && NewAt(sys', t) == NewAt(sys, t)
    requires sys'.pool.openings == sys.pool.openings && sys'.pool.cache == sys.pool.cache
    requires sys'.pool.closed == sys.pool.closed + {HeldAt(sys, t)}
    ensures Private(sys')
  {
    assert forall s :: HasNewAt(sys', s) ==> HasNewAt(sys, s) && NewAt(sys', s) == NewAt(sys, s);
    assert forall s :: HoldsAt(sys', s) ==> HoldsAt(sys, s) && HeldAt(sys', s) == HeldAt(sys, s);
  }

  lemma KnownHandles(sys: System, cfg: Config, boot: Settings)
    requires Bookkeeping(sys, cfg, boot) && ThreadsOk(sys, cfg, boot)
    ensures forall k :: k in sys.pool.cache ==> sys.pool.cache[k].db < |sys.pool.openings|
    ensures forall s :: HoldsAt(sys, s) ==> HeldAt(sys, s) < |sys.pool.openings|
  {
    forall s | HoldsAt(sys, s)
      ensures HeldAt(sys, s) < |sys.pool.openings|
    {
      assert ThreadOk(sys, cfg, boot, sys.threads[s]);
    }
  }

  lemma PrivateKept(sys: System, cfg: Config, boot: Settings, a: Action)
    requires Bookkeeping(sys, cfg, boot) && ThreadsOk(sys, cfg, boot) && Private(sys) && Next(sys, cfg, a).Some?
    requires forall h :: h in sys.pool.closed ==> h < |sys.pool.openings|
    ensures Private(Next(sys, cfg, a).value)
  {
    hide DefaultKey, KeyWithArgs, TaskKey, Private, Bookkeeping, ThreadsOk, ThreadOk, OthersStay;
    var sys', t := Next(sys, cfg, a).value, Actor(sys, a);
    NextMovesOne(sys, cfg, a);
    KnownHandles(sys, cfg, boot);
    if a.CloseOld? {
      PrivateAfterClose(sys, sys', t);
    } else if HasNewAt(sys', t) {
      PrivateAfterDial(sys, sys', t);
    } else {
      PrivateAfterMove(sys, sys', t);
    }
  }

  /** Closed handles were opened. */
  ghost predicate ClosedWereOpened(sys: System) {
    forall h :: h in sys.pool.closed ==> h < |sys.pool.openings|
  }

  lemma ClosedWereOpenedKept(sys: System, cfg: Config, boot: Settings, a: Action)
    requires Bookkeeping(sys, cfg, boot) && ThreadsOk(sys, cfg, boot) && ClosedWereOpened(sys) && Next(sys, cfg, a).Some?
    ensures ClosedWereOpened(Next(sys, cfg, a).value)
  {
    hide DefaultKey, KeyWithArgs, TaskKey;
    KnownHandles(sys, cfg, boot);
    if a.CloseOld? {
      assert HoldsAt(sys, a.t);
    }
  }

  /**
   The goroutine that closes a cached handle is the one to replace it: storing
   ends the window for its own key only, and what is stored is open.
   */
  lemma ClosedIsReplacedKept(sys: System, cfg: Config, boot: Settings, a: Action)
    requires Bookkeeping(sys, cfg, boot) && ThreadsOk(sys, cfg, boot) && Private(sys) && ClosedWereOpened(sys)
    requires ClosedIsReplaced(sys) && Next(sys, cfg, a).Some?
    ensures ClosedIsReplaced(Next(sys, cfg, a).value)
  {
    hide DefaultKey, KeyWithArgs, TaskKey;
    var sys', t := Next(sys, cfg, a).value, Actor(sys, a);
    NextMovesOne(sys, cfg, a);
    KnownHandles(sys, cfg, boot);
    forall k | k in sys'.pool.cache && sys'.pool.cache[k].db in sys'.pool.closed
      ensures exists s :: Replacing(sys', s, k)
    {
      if !a.Spawn? {
        assert ThreadOk(sys, cfg, boot, sys.threads[t]);
      }
      var stores := a.StoreFirst? || a.StoreNew?;
      assert stores ==> HasNewAt(sys, t) && NewAt(sys, t) !in sys.pool.closed;
      if a.CloseOld? && sys.pool.cache[k].db == HeldAt(sys, t) {
        assert Replacing(sys', t, k);
      } else if k in sys.pool.cache && sys'.pool.cache[k] == sys.pool.cache[k] && sys.pool.cache[k].db in sys.pool.closed {
        var s :| Replacing(sys, s, k);
        assert HasNewAt(sys, s) && sys.pool.cache[k].db != NewAt(sys, s);
        assert Replacing(sys', s, k);
      } else {
        assert false;
      }
    }
  }

  lemma InvKept(sys: System, cfg: Config, boot: Settings, a: Action)
    requires Inv(sys, cfg, boot) && Next(sys, cfg, a).Some?
    ensures Inv(Next(sys, cfg, a).value, cfg, boot)
  {
    hide Next, Bookkeeping, Homes, ThreadsOk, Private, ClosedIsReplaced;
    BookkeepingKept(sys, cfg, boot, a);
    HomesKept(sys, cfg, boot, a);
    ThreadsOkKept(sys, cfg, boot, a);
    ClosedWereOpenedKept(sys, cfg, boot, a);
    PrivateKept(sys, cfg, boot, a);
    ClosedIsReplacedKept(sys, cfg, boot, a);
  }

  lemma {:induction false} ExecKeeps(sys: System, cfg: Config, boot: Settings, actions: seq<Action>)
    requires Inv(sys, cfg, boot) && Exec(sys, cfg, actions).Some?
    ensures Inv(Exec(sys, cfg, actions).value, cfg, boot)
    decreases |actions|
  {
    hide Inv, Next;
    if actions != [] {
      InvKept(sys, cfg, boot, actions[0]);
      ExecKeeps(Next(sys, cfg, actions[0]).value, cfg, boot, actions[1..]);
    }
  }

  lemma InitialInv(cfg: Config, boot: Settings)
    ensures Inv(Initial(cfg, boot), cfg, boot)
  {
    hide DefaultKey;
  }

  /** Some order of some goroutines' steps leads from the start to `sys`. */
  ghost predicate Reachable(sys: System, cfg: Config, boot: Settings) {
    exists actions :: Exec(Initial(cfg, boot), cfg, actions) == Some(sys)
  }

  lemma ReachableInv(sys: System, cfg: Config, boot: Settings)
    requires Reachable(sys, cfg, boot)
    ensures Inv(sys, cfg, boot)
  {
    hide Inv, Initial;
    var actions :| Exec(Initial(cfg, boot), cfg, actions) == Some(sys);
    InitialInv(cfg, boot);
    ExecKeeps(Initial(cfg, boot), cfg, boot, actions);
  }

  // ---------- what every interleaving guarantees ----------

  /**
   A cached handle is closed only while the goroutine that closed it is between
   the close and the store of a reconnect on that very key.
   */
  lemma ClosedOnlyWhileReplaced(sys: System, cfg: Config, boot: Settings, key: Key)
    requires Reachable(sys, cfg, boot) && key in sys.pool.cache && sys.pool.cache[key].db in sys.pool.closed
    ensures exists t :: Replacing(sys, t, key)
  {
    ReachableInv(sys, cfg, boot);
  }

  predicate ReconnectInFlight(sys: System) {
    exists t :: 0 <= t < |sys.threads| && sys.threads[t].phase.Storing?
  }

  /** With no reconnect between close and store, the cache holds only open handles, each once, and the split of handles is clean. */
  lemma QuietCacheIsOpen(sys: System, cfg: Config, boot: Settings)
    requires Reachable(sys, cfg, boot) && !ReconnectInFlight(sys)
    ensures EntriesOpen(sys.pool) && EntriesDistinct(sys.pool)
    ensures Healthy(sys.pool, cfg, boot)
  {
    hide DefaultKey, KeyWithArgs, Private, ThreadsOk;
    ReachableInv(sys, cfg, boot);
    forall k | k in sys.pool.cache
      ensures sys.pool.cache[k].db !in sys.pool.closed
    {
      assert !exists t :: Replacing(sys, t, k);
    }
  }

  /** The default entry is always there: no goroutine ever misses it, and none ends with the missing-connection error. */
  lemma DefaultIsNeverMissing(sys: System, cfg: Config, boot: Settings)
    requires Reachable(sys, cfg, boot)
    ensures DefaultKey(cfg.uid) in sys.pool.cache
    ensures forall t :: 0 <= t < |sys.threads| ==> !sys.threads[t].phase.MissedDefault?
  {
    ReachableInv(sys, cfg, boot);
    forall t | 0 <= t < |sys.threads|
      ensures !sys.threads[t].phase.MissedDefault?
    {
      assert ThreadOk(sys, cfg, boot, sys.threads[t]);
    }
  }

  /**
   In every reachable state the handle cached under the key of some arguments was
   opened with exactly them, barring a hash collision of those two, and with the
   bootstrap settings.
   */
  lemma CacheIsCoherent(sys: System, cfg: Config, boot: Settings, args: bytes)
    requires Reachable(sys, cfg, boot) && HashLength(cfg)
    ensures var key := KeyWithArgs(cfg, args);
      && key != DefaultKey(cfg.uid)
      && (key in sys.pool.cache ==>
            sys.pool.cache[key].settings == boot && sys.pool.cache[key].db < |sys.pool.openings|)
      && (key in sys.pool.cache ==>
            var opening := sys.pool.openings[sys.pool.cache[key].db];
            && opening.settings == boot && cfg.hash(opening.args) == cfg.hash(args)
            && (NoCollision(cfg, opening.args, args) ==> opening.args == args))
  {
    hide Private, ThreadsOk, ClosedIsReplaced;
    ReachableInv(sys, cfg, boot);
    DefaultKeyIsApart(cfg, args);
    var key := KeyWithArgs(cfg, args);
    if key in sys.pool.cache {
      var h := sys.pool.cache[key].db;
      assert sys.home[h] == key;
      KeysFollowHashes(cfg, sys.pool.openings[h].args, args);
    }
  }

  /**
   The connection a goroutine works with, and the handle it is about to use, were
   opened with its own arguments, up to the hash, unless it uses the default one.
   */
  lemma WorkersHoldTheirOwn(sys: System, cfg: Config, boot: Settings, t: nat)
    requires Reachable(sys, cfg, boot) && HashLength(cfg) && HoldsAt(sys, t) && !UsesDefault(cfg, sys.threads[t].task)
    ensures OpenedFor(sys, cfg, HeldAt(sys, t), sys.threads[t].task.args)
    ensures var p := sys.threads[t].phase;
      p.Working? && p.inUse.Some? ==> OpenedFor(sys, cfg, p.inUse.value, sys.threads[t].task.args)
  {
    hide Private, Bookkeeping, ClosedIsReplaced;
    ReachableInv(sys, cfg, boot);
    var args, p := sys.threads[t].task.args, sys.threads[t].phase;
    assert ThreadOk(sys, cfg, boot, sys.threads[t]);
    HomeIsOpenedFor(sys, cfg, HeldAt(sys, t), args);
    if p.Working? && p.inUse.Some? {
      HomeIsOpenedFor(sys, cfg, p.inUse.value, args);
    }
  }

  predicate OpenedFor(sys: System, cfg: Config, h: Handle, args: bytes) {
    h < |sys.pool.openings| && cfg.hash(sys.pool.openings[h].args) == cfg.hash(args)
  }

  lemma HomeIsOpenedFor(sys: System, cfg: Config, h: Handle, args: bytes)
    requires Homes(sys, cfg) && HashLength(cfg)
    requires h < |sys.home| && sys.home[h] == KeyWithArgs(cfg, args)
    ensures OpenedFor(sys, cfg, h, args)
  {
    DefaultKeyIsApart(cfg, args);
    KeysFollowHashes(cfg, sys.pool.openings[h].args, args);
  }
}
