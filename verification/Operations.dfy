/**
 What the operations of connector.go and handleQuery of datasource.go do, as
 functions of the outside world and of the handles and cache they find.
 */
module Operations {
  import opened Prelude
  import opened Failures
  import opened Pools

  /** `args` are the connection arguments of the query, or those the forwarded headers of the check make. */
  datatype Task = Query(args: bytes) | HealthCheck(args: bytes)

  // ---------- calls to the driver ----------

  datatype Dialed = Opened(db: Handle) | Refused(err: Error)

  function Dial(w: World, net: Net, settings: Settings, args: bytes): (Dialed, Net) {
    var clock := net.clock.(dials := net.clock.dials + 1);
    match w.dial(net.clock.dials)
    case Some(err) => (Refused(err), Net(net.pool, clock))
    case None => (Opened(|net.pool.openings|), Net(Open(net.pool, settings, args), clock))
  }

  function RunQuery(w: World, net: Net): (RunOutcome, Net) {
    (w.run(net.clock.runs), net.(clock := net.clock.(runs := net.clock.runs + 1)))
  }

  function Ping(w: World, net: Net): (Option<Error>, Net) {
    (w.ping(net.clock.pings), net.(clock := net.clock.(pings := net.clock.pings + 1)))
  }

  // ---------- Reconnect, GetConnectionFromQuery, Connect ----------

  function Reconnect(w: World, net: Net, conn: CachedConnection, args: bytes, key: Key): (Dialed, Net) {
    match Dial(w, net, conn.settings, args)
    case (Refused(err), net') => (Refused(Downstream(err)), net')
    case (Opened(db), net') => (Opened(db), net'.(pool := Replace(net.pool, conn, args, key)))
  }

  datatype Lookup = Found(key: Key, conn: CachedConnection) | Rejected(err: Error)

  function GetConnection(w: World, net: Net, cfg: Config, args: bytes): (Lookup, Net) {
    var shared := DefaultKey(cfg.uid);
    var key := KeyWithArgs(cfg, args);
    if !cfg.multiple && !cfg.forwardHeaders && |args| > 0 && args != EMPTY_OBJECT then
      (Rejected(MISSING_MULTIPLE_CONNECTIONS_CONFIG), net)
    else if shared !in net.pool.cache then (Rejected(MISSING_DB_CONNECTION), net)
    else if !cfg.multiple || |args| == 0 then (Found(shared, net.pool.cache[shared]), net)
    else if key in net.pool.cache then (Found(key, net.pool.cache[key]), net)
    else
      var settings := net.pool.cache[shared].settings;
      match Dial(w, net, settings, args)
      case (Refused(err), net') => (Rejected(Downstream(err)), net')
      case (Opened(db), net') =>
        var conn := CachedConnection(db, settings);
        (Found(key, conn), net'.(pool := Store(net'.pool, key, conn)))
  }

  /** Ping errors are reported as downstream errors. */
  function CheckPing(w: World, net: Net): (Option<Error>, Net) {
    match Ping(w, net)
    case (None, net') => (None, net')
    case (Some(err), net') => (Some(Downstream(err)), net')
  }

  /** The rest of connectWithRetries from its i-th round on, while no round has failed. */
  function PingRetry(w: World, net: Net, cfg: Config, conn: CachedConnection, args: bytes, key: Key, i: nat): (Option<Error>, Net)
    decreases cfg.retries - i
  {
    if i >= cfg.retries then (None, net)
    else
      match Reconnect(w, net, conn, args, key)
      case (Refused(err), net') => (Some(err), net')
      case (Opened(_), net') =>
        match CheckPing(w, net')
        case (None, net'') => (None, net'')
        case (Some(err), net'') =>
          if !Retryable(cfg.retryOn, err) || i + 1 == cfg.retries then (Some(err), net'')
          else PingRetry(w, net'', cfg, conn, args, key, i + 1)
  }

  datatype Health = Health(conn: Option<CachedConnection>, err: Option<Error>)

  /** `args` are the connection arguments the forwarded headers make. */
  function Connect(w: World, net: Net, cfg: Config, args: bytes): (Health, Net) {
    var key := DefaultKey(cfg.uid);
    if key !in net.pool.cache then (Health(None, Some(MISSING_DB_CONNECTION)), net)
    else if cfg.retries == 0 then
      var (err, net') := CheckPing(w, net);
      (Health(None, err), net')
    else
      var conn := net.pool.cache[key];
      var (err, net') := PingRetry(w, net, cfg, conn, args, key, 0);
      (Health(Some(conn), err), net')
  }

  // ---------- NewConnector and Dispose ----------

  /** The bootstrap connection, opened with no arguments, becomes the default entry. */
  function Booted(cfg: Config, boot: Settings, net: Net): Net {
    var pool := Open(net.pool, boot, []);
    Net(Store(pool, DefaultKey(cfg.uid), CachedConnection(|net.pool.openings|, boot)), net.clock.(dials := net.clock.dials + 1))
  }

  /** A connector right after NewConnector, the first with its driver. */
  function Boot(cfg: Config, boot: Settings): Net {
    Booted(cfg, boot, Net(Pool(map[], [], {}), Clock(0, 0, 0)))
  }

  /** The state after construction meets what holds between operations. */
  lemma BootIsHealthy(cfg: Config, boot: Settings)
    ensures Healthy(Boot(cfg, boot).pool, cfg, boot) && Orphans(Boot(cfg, boot).pool) == {}
    ensures Boot(cfg, boot).pool == Pool(map[DefaultKey(cfg.uid) := CachedConnection(0, boot)], [Opening(boot, [])], {})
    ensures Boot(cfg, boot).clock == Clock(1, 0, 0)
  {
    hide DefaultKey;
    var pool := Boot(cfg, boot).pool;
    assert DefaultKey(cfg.uid) in pool.cache && pool.cache[DefaultKey(cfg.uid)].db == 0;
    assert pool.cache.Keys == {DefaultKey(cfg.uid)};
    assert Handles(pool) == {0};
  }

  /** Every cached handle is closed and every entry forgotten. */
  function Disposed(pool: Pool): Pool {
    pool.(cache := map[], closed := pool.closed + (set k | k in pool.cache :: pool.cache[k].db))
  }

  // ---------- handleQuery ----------

  datatype Answer = Answer(frames: Frames, err: Option<Error>)

  /** A retry loop returns from the query, or falls out with the frames of the last run. */
  datatype LoopEnd = Returned(answer: Answer) | FellOut(frames: Frames)

  function QueryRetry(w: World, net: Net, cfg: Config, conn: CachedConnection, args: bytes, key: Key, i: nat, frames: Frames): (LoopEnd, Net)
    decreases cfg.retries - i
  {
    if i >= cfg.retries then (FellOut(frames), net)
    else
      match Reconnect(w, net, conn, args, key)
      case (Refused(err), net') => (Returned(Answer(NilFrames, Some(Downstream(err)))), net')
      case (Opened(_), net') =>
        var (ran, net'') := RunQuery(w, net');
        if ran.err.None? || !Retryable(cfg.retryOn, ran.err.value) then (Returned(Answer(ran.frames, ran.err)), net'')
        else QueryRetry(w, net'', cfg, conn, args, key, i + 1, ran.frames)
  }

  function TimeoutRetry(w: World, net: Net, cfg: Config, conn: CachedConnection, args: bytes, key: Key, i: nat, frames: Frames): (LoopEnd, Net)
    decreases cfg.retries - i
  {
    if i >= cfg.retries then (FellOut(frames), net)
    else
      match Reconnect(w, net, conn, args, key)
      case (Refused(_), net') => TimeoutRetry(w, net', cfg, conn, args, key, i + 1, frames)
      case (Opened(_), net') =>
        var (ran, net'') := RunQuery(w, net');
        if ran.err.None? then (Returned(Answer(ran.frames, None)), net'')
        else TimeoutRetry(w, net'', cfg, conn, args, key, i + 1, ran.frames)
  }

  /** A query error that did not exceed the deadline and matches the retry filter. */
  predicate RetriesQuery(cfg: Config, e: Error) {
    e.query && !e.deadline && Retryable(cfg.retryOn, e)
  }

  /** The error examined and returned after the loops: always that of the first run. */
  function FinalError(cfg: Config, e: Error): Error {
    if e.query && Retryable(cfg.retryOn, e) then Downstream(e) else e
  }

  function AfterFirstRun(w: World, net: Net, cfg: Config, conn: CachedConnection, args: bytes, key: Key, first: RunOutcome): (Answer, Net) {
    match first.err
    case None => (Answer(first.frames, None), net)
    case Some(e) =>
      if e.noResults then (Answer(first.frames, None), net)
      else
        var (end, net') :=
          if RetriesQuery(cfg, e) then QueryRetry(w, net, cfg, conn, args, key, 0, first.frames)
          else if FinalError(cfg, e).deadline then TimeoutRetry(w, net, cfg, conn, args, key, 0, first.frames)
          else (FellOut(first.frames), net);
        match end
        case Returned(answer) => (answer, net')
        case FellOut(frames) => (Answer(frames, Some(FinalError(cfg, e))), net')
  }

  function HandleQuery(w: World, net: Net, cfg: Config, args: bytes): (Answer, Net) {
    match GetConnection(w, net, cfg, args)
    case (Rejected(err), net') => (Answer(ErrorFrame, Some(err)), net')
    case (Found(key, conn), net') =>
      var (first, net'') := RunQuery(w, net');
      AfterFirstRun(w, net'', cfg, conn, args, key, first)
  }
}
