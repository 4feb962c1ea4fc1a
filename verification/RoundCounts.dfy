/**
 How often a goroutine tries to reconnect and uses a handle, whatever the others
 do in between: the interleaved form of the bounds on runs and pings.
 */
module RoundCounts {
  import opened Prelude
  import opened Pools
  import opened Operations
  import opened RetryLoops
  import opened Interleaving

  /** Attempts to reconnect, refused ones included; replacements stored; runs and pings. */
  datatype Tally = Tally(redials: nat, stores: nat, uses: nat)

  const NOTHING: Tally := Tally(0, 0, 0)

  function Counted(n: Tally, a: Action, t: nat): Tally {
    match a
    case Redial(s, _) => if s == t then n.(redials := n.redials + 1) else n
    case StoreNew(s) => if s == t then n.(stores := n.stores + 1) else n
    case Use(s) => if s == t then n.(uses := n.uses + 1) else n
    case _ => n
  }

  /** The steps of goroutine t in a schedule, counted. */
  function TallyOf(actions: seq<Action>, t: nat): Tally
    decreases |actions|
  {
    var n := |actions| - 1;
    if n < 0 then NOTHING else Counted(TallyOf(actions[..n], t), actions[n], t)
  }

  /** One use of what was found, unless a reconnect comes first. */
  function Found(cfg: Config, task: Task): nat {
    if task.HealthCheck? && cfg.retries != 0 then 0 else 1
  }

  /** Every attempt has used up a round, and every handle that was stored has been used before the next one. */
  predicate CountsOk(cfg: Config, thread: Thread, n: Tally) {
    match thread.phase
    case Working(_, _, left, inUse) =>
      && left == cfg.retries - n.redials && n.stores <= n.redials <= Rounds(cfg)
      && n.uses + (if inUse.Some? then 1 else 0) == Found(cfg, thread.task) + n.stores
    case Closing(_, _, left, _) =>
      left == cfg.retries - n.redials + 1 && n.stores < n.redials <= Rounds(cfg) && n.uses == Found(cfg, thread.task) + n.stores
    case Storing(_, _, left, _) =>
      left == cfg.retries - n.redials + 1 && n.stores < n.redials <= Rounds(cfg) && n.uses == Found(cfg, thread.task) + n.stores
    case Finished =>
      n == NOTHING || (n.stores <= n.redials <= Rounds(cfg) && n.uses == Found(cfg, thread.task) + n.stores)
    case _ => n == NOTHING
  }

  ghost predicate AllCountsOk(sys: System, cfg: Config, actions: seq<Action>) {
    && (forall t: nat :: t < |sys.threads| ==> CountsOk(cfg, sys.threads[t], TallyOf(actions, t)))
    && (forall t: nat :: t >= |sys.threads| ==> TallyOf(actions, t) == NOTHING)
  }

  lemma TallySnoc(actions: seq<Action>, a: Action, t: nat)
    ensures TallyOf(actions + [a], t) == Counted(TallyOf(actions, t), a, t)
  {
    assert (actions + [a])[..|actions|] == actions;
  }

  lemma ActorCounts(sys: System, cfg: Config, a: Action, n: Tally)
    requires Next(sys, cfg, a).Some?
    requires a.Spawn? ==> n == NOTHING
    requires !a.Spawn? ==> CountsOk(cfg, sys.threads[a.t], n)
    ensures var sys', t := Next(sys, cfg, a).value, Actor(sys, a);
      t < |sys'.threads| && CountsOk(cfg, sys'.threads[t], Counted(n, a, t))
  {
    hide DefaultKey, KeyWithArgs, TaskKey;
  }

  lemma CountsKept(sys: System, cfg: Config, actions: seq<Action>, a: Action)
    requires AllCountsOk(sys, cfg, actions) && Next(sys, cfg, a).Some?
    ensures AllCountsOk(Next(sys, cfg, a).value, cfg, actions + [a])
  {
    hide CountsOk, TallyOf;
    var sys', actor := Next(sys, cfg, a).value, Actor(sys, a);
    NextMovesOne(sys, cfg, a);
    ActorInRange(sys, cfg, a);
    ActorCounts(sys, cfg, a, TallyOf(actions, actor));
    hide Next;
    forall t: nat
      ensures t < |sys'.threads| ==> CountsOk(cfg, sys'.threads[t], TallyOf(actions + [a], t))
      ensures t >= |sys'.threads| ==> TallyOf(actions + [a], t) == NOTHING
    {
      TallySnoc(actions, a, t);
    }
  }

  lemma ActorInRange(sys: System, cfg: Config, a: Action)
    requires Next(sys, cfg, a).Some?
    ensures !a.Spawn? ==> a.t < |sys.threads|
  {
  }

  lemma {:induction false} CountsStay(sys: System, cfg: Config, past: seq<Action>, actions: seq<Action>)
    requires AllCountsOk(sys, cfg, past) && Exec(sys, cfg, actions).Some?
    ensures AllCountsOk(Exec(sys, cfg, actions).value, cfg, past + actions)
    decreases |actions|
  {
    hide AllCountsOk, Next;
    if actions == [] {
      assert past + actions == past;
    } else {
      CountsKept(sys, cfg, past, actions[0]);
      CountsStay(Next(sys, cfg, actions[0]).value, cfg, past + [actions[0]], actions[1..]);
      assert past + [actions[0]] + actions[1..] == past + actions;
    }
  }

  /**
   In every schedule a goroutine tries to reconnect at most Retries times, refused
   attempts included, and runs or pings at most once more than that; the rounds it
   has left are Retries less its attempts; and once finished, if it found a
   connection, it has used it, or reconnected first, and used each handle it stored.
   */
  lemma RoundsAreBounded(cfg: Config, boot: Settings, actions: seq<Action>, sys: System, t: nat)
    requires Exec(Initial(cfg, boot), cfg, actions) == Some(sys)
    ensures var n := TallyOf(actions, t);
      && n.redials <= Rounds(cfg) && n.uses <= 1 + Rounds(cfg)
      && (t < |sys.threads| && sys.threads[t].phase.Working? ==> sys.threads[t].phase.left == cfg.retries - n.redials)
      && (t < |sys.threads| && sys.threads[t].phase.Finished? && n != NOTHING ==>
            n.uses == n.stores + if sys.threads[t].task.HealthCheck? && cfg.retries != 0 then 0 else 1)
  {
    hide Exec, TallyOf;
    assert [] + actions == actions;
    NothingYet(cfg, boot);
    CountsStay(Initial(cfg, boot), cfg, [], actions);
    if t < |sys.threads| {
      assert CountsOk(cfg, sys.threads[t], TallyOf(actions, t));
    }
  }

  lemma NothingYet(cfg: Config, boot: Settings)
    ensures AllCountsOk(Initial(cfg, boot), cfg, [])
  {
  }
}
