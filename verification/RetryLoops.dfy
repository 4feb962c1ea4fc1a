/**
 What the three retry loops return and do to the handles, told from the
 outcomes the outside gives rather than from the loops.
 */
module RetryLoops {
  import opened Prelude
  import opened Failures
  import opened Pools
  import opened Operations

  function Rounds(cfg: Config): nat {
    if cfg.retries < 0 then 0 else cfg.retries
  }

  // ---------- the handles: n successful reconnects, whatever else happened ----------

  /** How many handles were opened between two states. */
  function NewHandles(before: Net, after: Net): int {
    |after.pool.openings| - |before.pool.openings|
  }

  /** How many of the `j` reconnects from the d-th call on succeed. */
  function Opens(w: World, d: nat, j: nat): (n: nat)
    ensures n <= j
  {
    if j == 0 then 0 else Opens(w, d, j - 1) + if w.dial(d + j - 1).None? then 1 else 0
  }

  lemma {:induction false} OpensCons(w: World, d: nat, j: nat)
    requires j > 0
    ensures Opens(w, d, j) == (if w.dial(d).None? then 1 else 0) + Opens(w, d + 1, j - 1)
  {
    if j > 1 {
      OpensCons(w, d, j - 1);
    }
  }

  /** How often the driver was asked to connect between two states. */
  function Attempts(before: Net, after: Net): int {
    after.clock.dials - before.clock.dials
  }

  /** A retry run: at most `rounds` attempts to reconnect, those that succeeded all closing the same handle. */
  ghost predicate IsRetryRun(w: World, before: Net, after: Net, conn: CachedConnection, args: bytes, key: Key, rounds: int) {
    var n, k := NewHandles(before, after), Attempts(before, after);
    && 0 <= k && (k == 0 || k <= rounds) && n == Opens(w, before.clock.dials, k)
    && after.pool == ReplaceTimes(before.pool, conn, args, key, n)
  }

  lemma ReconnectIs(w: World, net: Net, conn: CachedConnection, args: bytes, key: Key)
    ensures var (dialed, net') := Reconnect(w, net, conn, args, key);
      && net'.clock == net.clock.(dials := net.clock.dials + 1)
      && (dialed.Refused? <==> w.dial(net.clock.dials).Some?)
      && (dialed.Refused? ==> net'.pool == net.pool && dialed.err == Downstream(w.dial(net.clock.dials).value))
      && (dialed.Opened? ==> net'.pool == Replace(net.pool, conn, args, key))
  {
  }

  lemma RunGrows(w: World, before: Net, between: Net, after: Net, conn: CachedConnection, args: bytes, key: Key, rounds: int)
    requires w.dial(before.clock.dials).None? && between.clock.dials == before.clock.dials + 1
    requires between.pool == Replace(before.pool, conn, args, key)
    requires IsRetryRun(w, between, after, conn, args, key, rounds - 1) && rounds > 0
    ensures IsRetryRun(w, before, after, conn, args, key, rounds)
  {
    OpensCons(w, before.clock.dials, Attempts(before, after));
  }

  lemma RunSkips(w: World, before: Net, between: Net, after: Net, conn: CachedConnection, args: bytes, key: Key, rounds: int)
    requires w.dial(before.clock.dials).Some? && between.clock.dials == before.clock.dials + 1
    requires between.pool == before.pool
    requires IsRetryRun(w, between, after, conn, args, key, rounds - 1) && rounds > 0
    ensures IsRetryRun(w, before, after, conn, args, key, rounds)
  {
    OpensCons(w, before.clock.dials, Attempts(before, after));
  }

  lemma NoRounds(w: World, before: Net, after: Net, conn: CachedConnection, args: bytes, key: Key, rounds: int)
    requires after.pool == before.pool && after.clock.dials == before.clock.dials
    ensures IsRetryRun(w, before, after, conn, args, key, rounds)
  {
  }

  lemma {:induction false} QueryRetryRun(w: World, net: Net, cfg: Config, conn: CachedConnection, args: bytes, key: Key, i: nat, frames: Frames)
    ensures var (_, net') := QueryRetry(w, net, cfg, conn, args, key, i, frames);
      && IsRetryRun(w, net, net', conn, args, key, cfg.retries - i)
      && net'.clock.runs == net.clock.runs + NewHandles(net, net')
    decreases cfg.retries - i
  {
    hide Reconnect, Replace;
    ReconnectIs(w, net, conn, args, key);
    if i >= cfg.retries {
      NoRounds(w, net, net, conn, args, key, cfg.retries - i);
    } else if Reconnect(w, net, conn, args, key).0.Refused? {
      var net1 := Reconnect(w, net, conn, args, key).1;
      NoRounds(w, net1, net1, conn, args, key, cfg.retries - i - 1);
      RunSkips(w, net, net1, net1, conn, args, key, cfg.retries - i);
    } else {
      ReplaceOpensOne(net.pool, conn, args, key);
      var (ran, net1) := RunQuery(w, Reconnect(w, net, conn, args, key).1);
      NoRounds(w, net1, net1, conn, args, key, cfg.retries - i - 1);
      RunGrows(w, net, net1, net1, conn, args, key, cfg.retries - i);
      QueryRetryRun(w, net1, cfg, conn, args, key, i + 1, ran.frames);
      RunGrows(w, net, net1, QueryRetry(w, net1, cfg, conn, args, key, i + 1, ran.frames).1, conn, args, key, cfg.retries - i);
    }
  }

  lemma ReplaceOpensOne(pool: Pool, conn: CachedConnection, args: bytes, key: Key)
    ensures |Replace(pool, conn, args, key).openings| == |pool.openings| + 1
    ensures ReplaceTimes(pool, conn, args, key, 1) == Replace(pool, conn, args, key)
  {
  }

  lemma {:induction false} TimeoutRetryRun(w: World, net: Net, cfg: Config, conn: CachedConnection, args: bytes, key: Key, i: nat, frames: Frames)
    ensures var (_, net') := TimeoutRetry(w, net, cfg, conn, args, key, i, frames);
      && IsRetryRun(w, net, net', conn, args, key, cfg.retries - i)
      && net'.clock.runs == net.clock.runs + NewHandles(net, net')
    decreases cfg.retries - i
  {
    hide Reconnect, Replace;
    ReconnectIs(w, net, conn, args, key);
    if i >= cfg.retries {
      NoRounds(w, net, net, conn, args, key, cfg.retries - i);
    } else {
      var (dialed, net1) := Reconnect(w, net, conn, args, key);
      if dialed.Refused? {
        TimeoutRetryRun(w, net1, cfg, conn, args, key, i + 1, frames);
        RunSkips(w, net, net1, TimeoutRetry(w, net1, cfg, conn, args, key, i + 1, frames).1, conn, args, key, cfg.retries - i);
      } else {
        ReplaceOpensOne(net.pool, conn, args, key);
        var (ran, net2) := RunQuery(w, net1);
        NoRounds(w, net2, net2, conn, args, key, cfg.retries - i - 1);
        RunGrows(w, net, net2, net2, conn, args, key, cfg.retries - i);
        TimeoutRetryRun(w, net2, cfg, conn, args, key, i + 1, ran.frames);
        RunGrows(w, net, net2, TimeoutRetry(w, net2, cfg, conn, args, key, i + 1, ran.frames).1, conn, args, key, cfg.retries - i);
      }
    }
  }

  lemma {:induction false} PingRetryRun(w: World, net: Net, cfg: Config, conn: CachedConnection, args: bytes, key: Key, i: nat)
    ensures IsRetryRun(w, net, PingRetry(w, net, cfg, conn, args, key, i).1, conn, args, key, cfg.retries - i)
    decreases cfg.retries - i
  {
    hide Reconnect, Replace;
    ReconnectIs(w, net, conn, args, key);
    if i >= cfg.retries {
      NoRounds(w, net, net, conn, args, key, cfg.retries - i);
    } else if Reconnect(w, net, conn, args, key).0.Refused? {
      var net1 := Reconnect(w, net, conn, args, key).1;
      NoRounds(w, net1, net1, conn, args, key, cfg.retries - i - 1);
      RunSkips(w, net, net1, net1, conn, args, key, cfg.retries - i);
    } else {
      ReplaceOpensOne(net.pool, conn, args, key);
      var (_, net1) := CheckPing(w, Reconnect(w, net, conn, args, key).1);
      NoRounds(w, net1, net1, conn, args, key, cfg.retries - i - 1);
      RunGrows(w, net, net1, net1, conn, args, key, cfg.retries - i);
      PingRetryRun(w, net1, cfg, conn, args, key, i + 1);
      RunGrows(w, net, net1, PingRetry(w, net1, cfg, conn, args, key, i + 1).1, conn, args, key, cfg.retries - i);
    }
  }

  lemma HealthRun(w: World, net: Net, cfg: Config, conn: CachedConnection, args: bytes)
    requires DefaultKey(cfg.uid) in net.pool.cache && conn == net.pool.cache[DefaultKey(cfg.uid)]
    ensures IsRetryRun(w, net, Connect(w, net, cfg, args).1, conn, args, DefaultKey(cfg.uid), cfg.retries)
  {
    hide DefaultKey;
    if cfg.retries != 0 {
      PingRetryRun(w, net, cfg, conn, args, DefaultKey(cfg.uid), 0);
    }
  }

  // ---------- handleQuery: how often the query runs ----------

  lemma LookupRunsNothing(w: World, net: Net, cfg: Config, args: bytes)
    ensures GetConnection(w, net, cfg, args).1.clock.runs == net.clock.runs
  {
  }

  lemma HandleQueryRun(w: World, net: Net, cfg: Config, args: bytes)
    ensures var (lookup, got) := GetConnection(w, net, cfg, args);
      var (_, net') := HandleQuery(w, net, cfg, args);
      && (lookup.Rejected? ==> net' == got)
      && (lookup.Found? ==> IsRetryRun(w, got, net', lookup.conn, args, lookup.key, Rounds(cfg)))
      && (lookup.Found? ==> net'.clock.runs == net.clock.runs + 1 + NewHandles(got, net'))
  {
    hide QueryRetry, TimeoutRetry, ReplaceTimes, Retryable;
    var (lookup, got) := GetConnection(w, net, cfg, args);
    LookupRunsNothing(w, net, cfg, args);
    hide GetConnection;
    if lookup.Found? {
      var (first, start) := RunQuery(w, got);
      NoRounds(w, got, start, lookup.conn, args, lookup.key, Rounds(cfg));
      if first.err.Some? {
        QueryRetryRun(w, start, cfg, lookup.conn, args, lookup.key, 0, first.frames);
        TimeoutRetryRun(w, start, cfg, lookup.conn, args, lookup.key, 0, first.frames);
      }
    }
  }

  /** The query runs once for the connection found and once per successful reconnect: at most 1 + Retries times. */
  lemma RunsAreBounded(w: World, net: Net, cfg: Config, args: bytes)
    ensures var (_, net') := HandleQuery(w, net, cfg, args);
      net.clock.runs <= net'.clock.runs <= net.clock.runs + 1 + Rounds(cfg)
  {
    HandleQueryRun(w, net, cfg, args);
  }

  // ---------- handleQuery: what it answers ----------

  /** Round j of the query-error loop, counted from the state it starts in, goes on to the next round. */
  predicate QueryRoundGoesOn(w: World, start: Net, cfg: Config, j: nat) {
    && w.dial(start.clock.dials + j).None?
    && w.run(start.clock.runs + j).err.Some?
    && Retryable(cfg.retryOn, w.run(start.clock.runs + j).err.value)
  }

  /** The first round from the i-th on that does not go on, or the number of rounds. */
  function FirstStop(w: World, start: Net, cfg: Config, i: nat): (stop: nat)
    requires i <= Rounds(cfg)
    ensures i <= stop <= Rounds(cfg)
    ensures forall j :: i <= j < stop ==> QueryRoundGoesOn(w, start, cfg, j)
    ensures stop < Rounds(cfg) ==> !QueryRoundGoesOn(w, start, cfg, stop)
    decreases Rounds(cfg) - i
  {
    if i == Rounds(cfg) || !QueryRoundGoesOn(w, start, cfg, i) then i else FirstStop(w, start, cfg, i + 1)
  }

  /**
   How the query-error loop ends: with the first success or non-retryable error,
   with the first refused reconnect, or with the frames of its last run.
   */
  function QueryLoopEnd(w: World, start: Net, cfg: Config, frames: Frames): LoopEnd {
    var stop := FirstStop(w, start, cfg, 0);
    var ran := w.run(start.clock.runs + stop);
    if stop == Rounds(cfg) then FellOut(if stop == 0 then frames else w.run(start.clock.runs + stop - 1).frames)
    else
      match w.dial(start.clock.dials + stop)
      case Some(err) => Returned(Answer(NilFrames, Some(Downstream(err))))
      case None => Returned(Answer(ran.frames, ran.err))
  }

  lemma {:induction false} QueryLoopFrom(w: World, start: Net, cfg: Config, conn: CachedConnection, args: bytes, key: Key,
                                         frames: Frames, i: nat, net: Net)
    requires i <= FirstStop(w, start, cfg, 0)
    requires net.clock.dials == start.clock.dials + i && net.clock.runs == start.clock.runs + i
    ensures QueryRetry(w, net, cfg, conn, args, key, i, if i == 0 then frames else w.run(start.clock.runs + i - 1).frames).0
         == QueryLoopEnd(w, start, cfg, frames)
    decreases Rounds(cfg) - i
  {
    hide Reconnect, FirstStop;
    ReconnectIs(w, net, conn, args, key);
    if i < FirstStop(w, start, cfg, 0) {
      assert QueryRoundGoesOn(w, start, cfg, i);
      var net1 := RunQuery(w, Reconnect(w, net, conn, args, key).1).1;
      QueryLoopFrom(w, start, cfg, conn, args, key, frames, i + 1, net1);
    }
  }

  // ---------- the timeout loop ----------

  /** Round j reconnects and its run succeeds; rounds before it whose reconnect failed ran nothing. */
  predicate TimeoutRoundWins(w: World, start: Net, j: nat) {
    && w.dial(start.clock.dials + j).None?
    && w.run(start.clock.runs + Opens(w, start.clock.dials, j)).err.None?
  }

  function FirstWin(w: World, start: Net, cfg: Config, i: nat): (win: nat)
    requires i <= Rounds(cfg)
    ensures i <= win <= Rounds(cfg)
    ensures forall j :: i <= j < win ==> !TimeoutRoundWins(w, start, j)
    ensures win < Rounds(cfg) ==> TimeoutRoundWins(w, start, win)
    decreases Rounds(cfg) - i
  {
    if i == Rounds(cfg) || TimeoutRoundWins(w, start, i) then i else FirstWin(w, start, cfg, i + 1)
  }

  /** The frames of the last run before round j, or those the loop started with. */
  function LastFrames(w: World, start: Net, frames: Frames, j: nat): Frames {
    var ran := Opens(w, start.clock.dials, j);
    if ran == 0 then frames else w.run(start.clock.runs + ran - 1).frames
  }

  /** How the timeout loop ends: with its first success, or with the frames of its last run. */
  function TimeoutLoopEnd(w: World, start: Net, cfg: Config, frames: Frames): LoopEnd {
    var win := FirstWin(w, start, cfg, 0);
    if win == Rounds(cfg) then FellOut(LastFrames(w, start, frames, win))
    else Returned(Answer(w.run(start.clock.runs + Opens(w, start.clock.dials, win)).frames, None))
  }

  lemma LastFramesStep(w: World, start: Net, frames: Frames, i: nat)
    ensures var runs, ok := start.clock.runs + Opens(w, start.clock.dials, i), w.dial(start.clock.dials + i).None?;
      && start.clock.runs + Opens(w, start.clock.dials, i + 1) == runs + (if ok then 1 else 0)
      && LastFrames(w, start, frames, i + 1) == if ok then w.run(runs).frames else LastFrames(w, start, frames, i)
  {
  }

  lemma {:induction false} TimeoutLoopFrom(w: World, start: Net, cfg: Config, conn: CachedConnection, args: bytes, key: Key,
                                           frames: Frames, i: nat, net: Net)
    requires i <= FirstWin(w, start, cfg, 0)
    requires net.clock.dials == start.clock.dials + i
    requires net.clock.runs == start.clock.runs + Opens(w, start.clock.dials, i)
    ensures TimeoutRetry(w, net, cfg, conn, args, key, i, LastFrames(w, start, frames, i)).0
         == TimeoutLoopEnd(w, start, cfg, frames)
    decreases Rounds(cfg) - i
  {
    hide Reconnect, FirstWin, Retryable, Opens, LastFrames;
    ReconnectIs(w, net, conn, args, key);
    LastFramesStep(w, start, frames, i);
    if i < FirstWin(w, start, cfg, 0) {
      assert !TimeoutRoundWins(w, start, i);
      var (dialed, net1) := Reconnect(w, net, conn, args, key);
      TimeoutLoopFrom(w, start, cfg, conn, args, key, frames, i + 1, if dialed.Refused? then net1 else RunQuery(w, net1).1);
    }
  }

  // ---------- the whole answer ----------

  /** What handleQuery answers once it has a connection, by the outcomes of the runs and reconnects alone. */
  function ExpectedAnswer(w: World, got: Net, cfg: Config): Answer {
    var first := w.run(got.clock.runs);
    var start := got.(clock := got.clock.(runs := got.clock.runs + 1));
    match first.err
    case None => Answer(first.frames, None)
    case Some(e) =>
      if e.noResults then Answer(first.frames, None)
      else if e.query && !e.deadline && Retryable(cfg.retryOn, e) then
        match QueryLoopEnd(w, start, cfg, first.frames)
        case Returned(answer) => answer
        case FellOut(frames) => Answer(frames, Some(Downstream(e)))
      else if e.deadline then
        match TimeoutLoopEnd(w, start, cfg, first.frames)
        case Returned(answer) => answer
        case FellOut(frames) => Answer(frames, Some(if e.query && Retryable(cfg.retryOn, e) then Downstream(e) else e))
      else Answer(first.frames, Some(e))
  }

  lemma HandleQueryAnswers(w: World, net: Net, cfg: Config, args: bytes)
    ensures var (lookup, got) := GetConnection(w, net, cfg, args);
      HandleQuery(w, net, cfg, args).0 ==
        if lookup.Rejected? then Answer(ErrorFrame, Some(lookup.err)) else ExpectedAnswer(w, got, cfg)
  {
    var (lookup, got) := GetConnection(w, net, cfg, args);
    if lookup.Found? {
      hide GetConnection, QueryLoopEnd, TimeoutLoopEnd, QueryRetry, TimeoutRetry;
      var (first, start) := RunQuery(w, got);
      QueryLoopFrom(w, start, cfg, lookup.conn, args, lookup.key, first.frames, 0, start);
      TimeoutLoopFrom(w, start, cfg, lookup.conn, args, lookup.key, first.frames, 0, start);
    }
  }

  /** Every outcome is a retryable query error and every reconnect succeeds. */
  ghost predicate AlwaysRetryable(w: World, cfg: Config) {
    && (forall j :: w.dial(j).None?)
    && (forall j :: w.run(j).err.Some?)
    && (forall j {:trigger w.run(j)} :: var e := w.run(j).err.value; e.query && !e.deadline && !e.noResults && Retryable(cfg.retryOn, e))
  }

  /** Then the bound is reached: the query runs 1 + Retries times, and the answer pairs the last frames with the first error. */
  lemma RunsReachTheBound(w: World, net: Net, cfg: Config, args: bytes)
    requires AlwaysRetryable(w, cfg) && GetConnection(w, net, cfg, args).0.Found?
    ensures var got := GetConnection(w, net, cfg, args).1;
      var (answer, net') := HandleQuery(w, net, cfg, args);
      && net'.clock.runs == net.clock.runs + 1 + Rounds(cfg)
      && answer.frames == w.run(got.clock.runs + Rounds(cfg)).frames
      && answer.err == Some(Downstream(w.run(got.clock.runs).err.value))
  {
    hide QueryRetry, TimeoutRetry, FirstStop, Retryable, Reconnect;
    LookupRunsNothing(w, net, cfg, args);
    HandleQueryAnswers(w, net, cfg, args);
    hide GetConnection;
    var (lookup, got) := GetConnection(w, net, cfg, args);
    var (first, start) := RunQuery(w, got);
    assert first == w.run(got.clock.runs);
    AllRounds(w, start, cfg, lookup.conn, args, lookup.key, 0, first.frames);
    assert forall j :: QueryRoundGoesOn(w, start, cfg, j);
    assert FirstStop(w, start, cfg, 0) == Rounds(cfg);
  }

  lemma {:induction false} AllRounds(w: World, net: Net, cfg: Config, conn: CachedConnection, args: bytes, key: Key, i: nat, frames: Frames)
    requires AlwaysRetryable(w, cfg) && i <= Rounds(cfg)
    ensures QueryRetry(w, net, cfg, conn, args, key, i, frames).1.clock.runs == net.clock.runs + Rounds(cfg) - i
    decreases Rounds(cfg) - i
  {
    hide Reconnect;
    ReconnectIs(w, net, conn, args, key);
    if i < Rounds(cfg) {
      var (ran, net1) := RunQuery(w, Reconnect(w, net, conn, args, key).1);
      AllRounds(w, net1, cfg, conn, args, key, i + 1, ran.frames);
    }
  }

  // ---------- connectWithRetries ----------

  function PingError(w: World, p: nat): Option<Error> {
    match w.ping(p)
    case None => None
    case Some(err) => Some(Downstream(err))
  }

  /** Round j of a health check, counted from the state it starts in, reconnects and fails its ping in a way to be retried. */
  predicate PingRoundGoesOn(w: World, start: Net, cfg: Config, j: nat) {
    var err := PingError(w, start.clock.pings + j);
    w.dial(start.clock.dials + j).None? && err.Some? && Retryable(cfg.retryOn, err.value)
  }

  /** The first round from the i-th on that does not go on, or the last round there is. */
  function FirstHalt(w: World, start: Net, cfg: Config, i: nat): (halt: nat)
    requires i < cfg.retries
    ensures i <= halt < cfg.retries
    ensures forall j :: i <= j < halt ==> PingRoundGoesOn(w, start, cfg, j)
    ensures halt < cfg.retries - 1 ==> !PingRoundGoesOn(w, start, cfg, halt)
    decreases cfg.retries - i
  {
    if i == cfg.retries - 1 || !PingRoundGoesOn(w, start, cfg, i) then i else FirstHalt(w, start, cfg, i + 1)
  }

  lemma {:induction false} PingLoopFrom(w: World, start: Net, cfg: Config, conn: CachedConnection, args: bytes, key: Key, i: nat, net: Net)
    requires cfg.retries > 0 && i <= FirstHalt(w, start, cfg, 0)
    requires net.clock.dials == start.clock.dials + i && net.clock.pings == start.clock.pings + i
    ensures var halt := FirstHalt(w, start, cfg, 0);
      var refusal := w.dial(start.clock.dials + halt);
      var (err, net') := PingRetry(w, net, cfg, conn, args, key, i);
      && err == (if refusal.Some? then Some(Downstream(refusal.value)) else PingError(w, start.clock.pings + halt))
      && net'.clock.pings == start.clock.pings + halt + (if refusal.Some? then 0 else 1)
      && NewHandles(net, net') == net'.clock.pings - net.clock.pings
    decreases cfg.retries - i
  {
    hide Reconnect, Replace, FirstHalt;
    ReconnectIs(w, net, conn, args, key);
    ReplaceOpensOne(net.pool, conn, args, key);
    if i < FirstHalt(w, start, cfg, 0) {
      assert PingRoundGoesOn(w, start, cfg, i);
      PingLoopFrom(w, start, cfg, conn, args, key, i + 1, CheckPing(w, Reconnect(w, net, conn, args, key).1).1);
    }
  }

  /**
   With Retries > 0 a health check reconnects and pings up to the first success,
   non-retryable error or refused reconnect, at most Retries times. It reports
   how its last round went and the connection there was before, which it has
   closed exactly if it opened any. It leaves the
   last handle it opened, still open, under the default key, or everything as it
   was if it opened none.
   */
  lemma HealthPings(w: World, net: Net, cfg: Config, boot: Settings, args: bytes)
    requires Healthy(net.pool, cfg, boot) && cfg.retries > 0
    ensures var halt, key := FirstHalt(w, net, cfg, 0), DefaultKey(cfg.uid);
      var refusal := w.dial(net.clock.dials + halt);
      var (health, net') := Connect(w, net, cfg, args);
      && health.conn == Some(net.pool.cache[key])
      && health.err == (if refusal.Some? then Some(Downstream(refusal.value)) else PingError(w, net.clock.pings + halt))
      && net'.clock.pings == net.clock.pings + halt + (if refusal.Some? then 0 else 1)
      && NewHandles(net, net') == net'.clock.pings - net.clock.pings
      && key in net'.pool.cache && net'.pool.cache[key].db !in net'.pool.closed
      && (NewHandles(net, net') > 0 ==> net'.pool.cache[key].db == |net'.pool.openings| - 1)
      && (NewHandles(net, net') == 0 ==> net'.pool == net.pool)
      && (health.conn.value.db in net'.pool.closed <==> NewHandles(net, net') > 0)
  {
    hide Healthy, KeyWithArgs, DefaultKey, FirstHalt;
    HealthyParts(net.pool, cfg, boot);
    var key := DefaultKey(cfg.uid);
    var conn := net.pool.cache[key];
    PingLoopFrom(w, net, cfg, conn, args, key, 0, net);
    PingRetryRun(w, net, cfg, conn, args, key, 0);
    var net' := PingRetry(w, net, cfg, conn, args, key, 0).1;
    if NewHandles(net, net') > 0 {
      ReplaceTimesIs(net.pool, conn, args, key, NewHandles(net, net'));
    }
  }

  /** Without retries a health check reports exactly how its one ping of the default connection went, and changes nothing. */
  lemma HealthPingsOnce(w: World, net: Net, cfg: Config, boot: Settings, args: bytes)
    requires Healthy(net.pool, cfg, boot) && cfg.retries == 0
    ensures var (health, net') := Connect(w, net, cfg, args);
      && health.conn == None && health.err == PingError(w, net.clock.pings)
      && net'.pool == net.pool && net'.clock == net.clock.(pings := net.clock.pings + 1)
  {
    hide Healthy, DefaultKey;
    HealthyParts(net.pool, cfg, boot);
  }

  /** The round a health check ends with: no reconnect was needed, or it was not refused; and the ping was answered. */
  predicate LastRoundAnswers(w: World, net: Net, cfg: Config)
    requires cfg.retries >= 0
  {
    if cfg.retries == 0 then w.ping(net.clock.pings).None?
    else
      var halt := FirstHalt(w, net, cfg, 0);
      w.dial(net.clock.dials + halt).None? && w.ping(net.clock.pings + halt).None?
  }

  /** A health check is clean exactly if its last round was. */
  lemma CleanExactly(w: World, net: Net, cfg: Config, boot: Settings, args: bytes)
    requires Healthy(net.pool, cfg, boot) && cfg.retries >= 0
    ensures Connect(w, net, cfg, args).0.err.None? <==> LastRoundAnswers(w, net, cfg)
  {
    hide Healthy, Connect, FirstHalt;
    if cfg.retries == 0 {
      HealthPingsOnce(w, net, cfg, boot, args);
    } else {
      HealthPings(w, net, cfg, boot, args);
    }
  }

  /** Without a default connection it says so, and asks nothing of the driver. */
  lemma MissingIsReported(w: World, net: Net, cfg: Config, args: bytes)
    requires DefaultKey(cfg.uid) !in net.pool.cache
    ensures Connect(w, net, cfg, args) == (Health(None, Some(MISSING_DB_CONNECTION)), net)
  {
  }

  /** A health check that reports success has, as its last ping, one that the database answered. */
  ghost predicate CleanMeansPinged(cfg: Config, boot: Settings) {
    forall w: World, net: Net, args: bytes {:trigger Connect(w, net, cfg, args)} ::
      Healthy(net.pool, cfg, boot) && Connect(w, net, cfg, args).0.err.None? ==> EndsInAnswer(w, net, Connect(w, net, cfg, args).1)
  }

  predicate EndsInAnswer(w: World, before: Net, after: Net) {
    after.clock.pings > before.clock.pings && w.ping(after.clock.pings - 1).None?
  }

  /** So a clean health check means something exactly when Retries is not negative. */
  lemma CleanMeansPingedExactly(cfg: Config, boot: Settings)
    ensures CleanMeansPinged(cfg, boot) <==> cfg.retries >= 0
  {
    hide Healthy, Connect, Boot, EndsInAnswer;
    if cfg.retries >= 0 {
      forall w: World, net: Net, args: bytes | Healthy(net.pool, cfg, boot) && Connect(w, net, cfg, args).0.err.None?
        ensures EndsInAnswer(w, net, Connect(w, net, cfg, args).1)
      {
        CleanIsPinged(w, net, cfg, boot, args);
      }
    } else {
      CleanWithoutPing(World(_ => None, _ => Ran(NilFrames, None), _ => None), cfg, boot);
    }
  }

  lemma CleanIsPinged(w: World, net: Net, cfg: Config, boot: Settings, args: bytes)
    requires cfg.retries >= 0 && Healthy(net.pool, cfg, boot) && Connect(w, net, cfg, args).0.err.None?
    ensures EndsInAnswer(w, net, Connect(w, net, cfg, args).1)
  {
    hide Healthy, PingRetry, FirstHalt, DefaultKey;
    HealthyParts(net.pool, cfg, boot);
    if cfg.retries > 0 {
      hide Connect;
      HealthPings(w, net, cfg, boot, args);
    }
  }

  lemma CleanWithoutPing(w: World, cfg: Config, boot: Settings)
    requires cfg.retries < 0
    ensures var net := Boot(cfg, boot);
      && Healthy(net.pool, cfg, boot) && Connect(w, net, cfg, []).0.err.None?
      && !EndsInAnswer(w, net, Connect(w, net, cfg, []).1)
  {
    hide Healthy, Connect, Boot, DefaultKey;
    BootIsHealthy(cfg, boot);
    HealthyParts(Boot(cfg, boot).pool, cfg, boot);
    NegativeRetriesNeverPing(w, Boot(cfg, boot), cfg, []);
  }

  /** With a negative Retries a health check reports success without a single ping. */
  lemma NegativeRetriesNeverPing(w: World, net: Net, cfg: Config, args: bytes)
    requires cfg.retries < 0 && DefaultKey(cfg.uid) in net.pool.cache
    ensures Connect(w, net, cfg, args) == (Health(Some(net.pool.cache[DefaultKey(cfg.uid)]), None), net)
  {
  }
}
