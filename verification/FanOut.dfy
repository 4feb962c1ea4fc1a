/**
 QueryData: one goroutine per query, a wait group, a response map behind a
 mutex, and panics turned into error responses.
 */
module FanOut {
  import opened Prelude
  import opened Failures
  import opened Pools

  /** What the body of one goroutine does: return frames and an error, or panic. */
  datatype Outcome = Returns(frames: Frames, err: Option<Error>) | Panics(message: string)

  datatype Source = Plugin | DownstreamSource

  datatype DataResponse = DataResponse(frames: Frames, err: Option<Error>, source: Source)

  type RefID = string

  datatype Query = Query(refID: RefID, outcome: Outcome)

  function ErrorSource(err: Option<Error>): Source {
    if err.Some? && err.value.downstream then DownstreamSource else Plugin
  }

  /** The response a goroutine sets, also when it recovers from a panic. */
  function ResponseOf(o: Outcome): DataResponse {
    match o
    case Returns(frames, err) => DataResponse(frames, err, ErrorSource(err))
    case Panics(message) => DataResponse(NilFrames, Some(Error(message, false, false, false, false)), Plugin)
  }

  /** Running the queries one by one. */
  function Sequential(queries: seq<Query>): map<RefID, DataResponse> {
    if queries == [] then map[]
    else Sequential(queries[..|queries| - 1])[queries[|queries| - 1].refID := ResponseOf(queries[|queries| - 1].outcome)]
  }

  datatype Progress = Waiting | Running | HasResponse(response: DataResponse) | WasSet | Gone

  /**
   `counter` is the wait group's; `added` is what it started from: the number of
   queries in the request before the driver could replace the request.
   */
  datatype Call = Call(progress: seq<Progress>, counter: int, responses: map<RefID, DataResponse>, negative: bool, waited: bool)

  datatype Step = Launch(i: nat) | Execute(i: nat) | SetResponse(i: nat) | Leave(i: nat) | PassWait

  function Initial(queries: seq<Query>, added: nat): Call {
    Call(seq(|queries|, _ => Waiting), added, map[], false, false)
  }

  predicate AllLaunched(call: Call) {
    forall i :: 0 <= i < |call.progress| ==> !call.progress[i].Waiting?
  }

  function Put(call: Call, i: nat, p: Progress): Call
    requires i < |call.progress|
  {
    call.(progress := call.progress[i := p])
  }

  /** The loop launches goroutines in order, waits, and a counter below zero stops everything. */
  function Next(call: Call, queries: seq<Query>, s: Step): Option<Call> {
    if call.negative || call.waited || |call.progress| != |queries| then None
    else
      match s
      case PassWait => if AllLaunched(call) && call.counter == 0 then Some(call.(waited := true)) else None
      case Launch(i) =>
        if i < |queries| && call.progress[i].Waiting? && (forall j :: 0 <= j < i ==> !call.progress[j].Waiting?)
        then Some(Put(call, i, Running)) else None
      case Execute(i) =>
        if i < |queries| && call.progress[i].Running? then Some(Put(call, i, HasResponse(ResponseOf(queries[i].outcome)))) else None
      case SetResponse(i) =>
        if i < |queries| && call.progress[i].HasResponse? then
          Some(Put(call, i, WasSet).(responses := call.responses[queries[i].refID := call.progress[i].response]))
        else None
      case Leave(i) =>
        if i < |queries| && call.progress[i].WasSet? then
          Some(Put(call, i, Gone).(counter := call.counter - 1, negative := call.counter <= 0))
        else None
  }

  function Exec(call: Call, queries: seq<Query>, steps: seq<Step>): Option<Call>
    decreases |steps|
  {
    if steps == [] then Some(call)
    else
      match Next(call, queries, steps[0])
      case None => None
      case Some(call') => Exec(call', queries, steps[1..])
  }

  // ---------- the invariant ----------

  predicate IsSet(p: Progress) {
    p.WasSet? || p.Gone?
  }

  /** How many goroutines have not left yet. */
  function Unfinished(progress: seq<Progress>): nat {
    if progress == [] then 0
    else Unfinished(progress[..|progress| - 1]) + if progress[|progress| - 1].Gone? then 0 else 1
  }

  /** The value under a reference ID is the response of one of its queries that has been set. */
  ghost predicate FromItsQuery(call: Call, queries: seq<Query>, r: RefID)
    requires |call.progress| == |queries| && r in call.responses
  {
    exists i :: 0 <= i < |queries| && IsSet(call.progress[i]) && queries[i].refID == r && call.responses[r] == ResponseOf(queries[i].outcome)
  }

  ghost predicate Inv(call: Call, queries: seq<Query>, added: nat) {
    && |call.progress| == |queries|
    && call.counter == added - (|queries| - Unfinished(call.progress))
    && (call.negative <==> call.counter < 0)
    && (forall i :: 0 <= i < |queries| && call.progress[i].HasResponse? ==> call.progress[i].response == ResponseOf(queries[i].outcome))
    && (forall i :: 0 <= i < |queries| && IsSet(call.progress[i]) ==> queries[i].refID in call.responses)
    && (forall r :: r in call.responses ==> FromItsQuery(call, queries, r))
    && (call.waited ==> call.counter == 0 && AllLaunched(call))
    && InOrder(call)
  }

  /** No goroutine is launched before those of the queries ahead of it. */
  ghost predicate InOrder(call: Call) {
    forall i, j :: 0 <= i < j < |call.progress| && call.progress[i].Waiting? ==> call.progress[j].Waiting?
  }

  lemma {:induction false} UnfinishedAfter(progress: seq<Progress>, i: nat, p: Progress)
    requires i < |progress|
    ensures Unfinished(progress[i := p]) ==
            Unfinished(progress) + (if p.Gone? then 0 else 1) - (if progress[i].Gone? then 0 else 1)
  {
    var n := |progress| - 1;
    if i == n {
      assert progress[i := p][..n] == progress[..n];
    } else {
      UnfinishedAfter(progress[..n], i, p);
      assert progress[i := p][..n] == progress[..n][i := p];
    }
  }

  lemma {:induction false} NoneUnfinished(progress: seq<Progress>)
    ensures Unfinished(progress) <= |progress|
    ensures Unfinished(progress) == 0 <==> forall i :: 0 <= i < |progress| ==> progress[i].Gone?
  {
    if progress != [] {
      var n := |progress| - 1;
      NoneUnfinished(progress[..n]);
      assert progress == progress[..n] + [progress[n]];
    }
  }

  lemma {:induction false} InitialUnfinished(n: nat)
    ensures Unfinished(seq(n, _ => Waiting)) == n
  {
    if n > 0 {
      var s := seq(n, _ => Waiting);
      InitialUnfinished(n - 1);
      assert s[..n - 1] == seq(n - 1, _ => Waiting);
    }
  }

  lemma InOrderKept(call: Call, queries: seq<Query>, s: Step)
    requires InOrder(call) && Next(call, queries, s).Some?
    ensures InOrder(Next(call, queries, s).value)
    ensures Next(call, queries, s).value.waited ==> AllLaunched(Next(call, queries, s).value)
  {
    hide ResponseOf;
  }

  lemma InvKept(call: Call, queries: seq<Query>, added: nat, s: Step)
    requires Inv(call, queries, added) && Next(call, queries, s).Some?
    ensures Inv(Next(call, queries, s).value, queries, added)
  {
    hide Unfinished, AllLaunched, ResponseOf, InOrder;
    InOrderKept(call, queries, s);
    var call' := Next(call, queries, s).value;
    if !s.PassWait? {
      UnfinishedAfter(call.progress, s.i, call'.progress[s.i]);
    }
    forall r | r in call'.responses
      ensures FromItsQuery(call', queries, r)
    {
      if r in call.responses && call'.responses[r] == call.responses[r] {
        assert FromItsQuery(call, queries, r);
        var i :| 0 <= i < |queries| && IsSet(call.progress[i]) && queries[i].refID == r && call.responses[r] == ResponseOf(queries[i].outcome);
        assert IsSet(call'.progress[i]);
      } else {
        assert IsSet(call'.progress[s.i]);
      }
    }
  }

  lemma {:induction false} ExecKeeps(call: Call, queries: seq<Query>, added: nat, steps: seq<Step>)
    requires Inv(call, queries, added) && Exec(call, queries, steps).Some?
    ensures Inv(Exec(call, queries, steps).value, queries, added)
    decreases |steps|
  {
    hide Inv, Next;
    if steps != [] {
      InvKept(call, queries, added, steps[0]);
      ExecKeeps(Next(call, queries, steps[0]).value, queries, added, steps[1..]);
    }
  }

  lemma InitialInv(queries: seq<Query>, added: nat)
    ensures Inv(Initial(queries, added), queries, added)
  {
    InitialUnfinished(|queries|);
  }

  /** Some schedule leads from the start to `call`. */
  ghost predicate Reachable(call: Call, queries: seq<Query>, added: nat) {
    exists steps :: Exec(Initial(queries, added), queries, steps) == Some(call)
  }

  lemma ReachableInv(call: Call, queries: seq<Query>, added: nat)
    requires Reachable(call, queries, added)
    ensures Inv(call, queries, added)
  {
    hide Inv, Initial;
    var steps :| Exec(Initial(queries, added), queries, steps) == Some(call);
    InitialInv(queries, added);
    ExecKeeps(Initial(queries, added), queries, added, steps);
  }

  predicate AllGone(call: Call) {
    forall i :: 0 <= i < |call.progress| ==> call.progress[i].Gone?
  }

  // ---------- the wait group ----------

  /** Goroutines are launched in the order of the queries, and all before the wait, whatever the count. */
  lemma LaunchedInOrder(call: Call, queries: seq<Query>, added: nat, i: nat, j: nat)
    requires Reachable(call, queries, added) && i < j < |queries|
    ensures |call.progress| == |queries|
    ensures !call.progress[j].Waiting? ==> !call.progress[i].Waiting?
    ensures call.waited ==> AllLaunched(call)
  {
    hide Reachable;
    ReachableInv(call, queries, added);
  }

  /** With the count right, the counter is the number of unfinished goroutines and the wait passes only when there are none. */
  lemma CounterIsUnfinished(call: Call, queries: seq<Query>)
    requires Reachable(call, queries, |queries|)
    ensures call.counter == Unfinished(call.progress) && !call.negative
    ensures call.waited ==> AllGone(call)
  {
    ReachableInv(call, queries, |queries|);
    NoneUnfinished(call.progress);
  }

  /** The wait passes with every goroutine done only if the count was right: too high and it never passes, too low and it passes early or the counter drops below zero. */
  lemma WaitedNeedsCount(call: Call, queries: seq<Query>, added: nat)
    requires Reachable(call, queries, added)
    ensures added > |queries| ==> !call.waited
    ensures added < |queries| && AllGone(call) ==> call.negative && !call.waited
  {
    ReachableInv(call, queries, added);
    NoneUnfinished(call.progress);
  }

  // ---------- the responses ----------

  ghost predicate DistinctIDs(queries: seq<Query>) {
    forall i, j :: 0 <= i < |queries| && 0 <= j < |queries| && queries[i].refID == queries[j].refID ==> i == j
  }

  lemma {:induction false} SequentialIs(queries: seq<Query>)
    ensures Sequential(queries).Keys == set i | 0 <= i < |queries| :: queries[i].refID
    ensures DistinctIDs(queries) ==>
              forall i :: 0 <= i < |queries| ==> Sequential(queries)[queries[i].refID] == ResponseOf(queries[i].outcome)
    ensures DistinctIDs(queries) ==>
              forall i :: 0 <= i < |queries| ==> Reports(queries[i].outcome, Sequential(queries)[queries[i].refID])
  {
    if queries != [] {
      var n := |queries| - 1;
      SequentialIs(queries[..n]);
      if DistinctIDs(queries) {
        assert DistinctIDs(queries[..n]);
        forall i | 0 <= i < |queries|
          ensures Sequential(queries)[queries[i].refID] == ResponseOf(queries[i].outcome)
        {
          if i < n {
            assert queries[..n][i] == queries[i];
          }
        }
        forall i | 0 <= i < |queries|
          ensures Reports(queries[i].outcome, Sequential(queries)[queries[i].refID])
        {
          ResponseReports(queries[i].outcome);
        }
      }
    }
  }

  /**
   What a response tells of its query: a panic is an error of the plugin, with the
   panic's message and no frames; otherwise frames and error are those of the
   query, and a downstream error is blamed on the downstream source.
   */
  predicate Reports(o: Outcome, res: DataResponse) {
    match o
    case Panics(message) => res.frames == NilFrames && res.err.Some? && res.err.value.message == message && res.source == Plugin
    case Returns(frames, err) =>
      res.frames == frames && res.err == err && (res.source == DownstreamSource <==> err.Some? && err.value.downstream)
  }

  /** The query has gone wrong: it panicked or returned an error. */
  predicate Failed(o: Outcome) {
    o.Panics? || o.err.Some?
  }

  lemma ResponseReports(o: Outcome)
    ensures Reports(o, ResponseOf(o))
    ensures Failed(o) <==> ResponseOf(o).err.Some?
  {
  }

  /** One by one, the last query of an ID has the last word. */
  lemma {:induction false} LastQueryWins(queries: seq<Query>, i: nat)
    requires i < |queries| && forall j :: i < j < |queries| ==> queries[j].refID != queries[i].refID
    ensures queries[i].refID in Sequential(queries)
    ensures Reports(queries[i].outcome, Sequential(queries)[queries[i].refID])
    decreases |queries|
  {
    var n := |queries| - 1;
    if i < n {
      assert forall j :: 0 <= j < n ==> queries[..n][j] == queries[j];
      LastQueryWins(queries[..n], i);
    } else {
      ResponseReports(queries[i].outcome);
    }
  }

  /** When the wait passes, every query has a response, panicked or not, that reports it, and no other ID has one. */
  lemma EveryQueryAnswers(call: Call, queries: seq<Query>)
    requires Reachable(call, queries, |queries|) && call.waited
    ensures call.responses.Keys == set i | 0 <= i < |queries| :: queries[i].refID
    ensures forall r :: r in call.responses ==>
              exists i :: 0 <= i < |queries| && queries[i].refID == r && Reports(queries[i].outcome, call.responses[r])
    ensures forall r :: r in call.responses ==>
              exists i :: 0 <= i < |queries| && queries[i].refID == r && call.responses[r] == ResponseOf(queries[i].outcome)
  {
    hide ResponseOf, Reports, Reachable, Unfinished;
    ReachableInv(call, queries, |queries|);
    CounterIsUnfinished(call, queries);
    forall r | r in call.responses
      ensures exists i :: 0 <= i < |queries| && queries[i].refID == r && call.responses[r] == ResponseOf(queries[i].outcome)
      ensures exists i :: 0 <= i < |queries| && queries[i].refID == r && Reports(queries[i].outcome, call.responses[r])
    {
      assert FromItsQuery(call, queries, r);
      var i :| 0 <= i < |queries| && IsSet(call.progress[i]) && queries[i].refID == r && call.responses[r] == ResponseOf(queries[i].outcome);
      ResponseReports(queries[i].outcome);
    }
    forall i | 0 <= i < |queries|
      ensures queries[i].refID in call.responses
    {
      assert IsSet(call.progress[i]);
    }
  }

  /** With distinct reference IDs the responses are those of running the queries one by one, whatever the schedule. */
  lemma ScheduleDoesNotMatter(call: Call, queries: seq<Query>)
    requires DistinctIDs(queries) && Reachable(call, queries, |queries|) && call.waited
    ensures call.responses == Sequential(queries)
  {
    hide Reachable, Sequential;
    EveryQueryAnswers(call, queries);
    SequentialIs(queries);
    forall r | r in call.responses
      ensures call.responses[r] == Sequential(queries)[r]
    {
      var i :| 0 <= i < |queries| && queries[i].refID == r && call.responses[r] == ResponseOf(queries[i].outcome);
    }
  }

  // ---------- every schedule ends ----------

  function StepsLeft(p: Progress): nat {
    match p
    case Waiting => 4
    case Running => 3
    case HasResponse(_) => 2
    case WasSet => 1
    case Gone => 0
  }

  function AllStepsLeft(progress: seq<Progress>): nat {
    if progress == [] then 0
    else AllStepsLeft(progress[..|progress| - 1]) + StepsLeft(progress[|progress| - 1])
  }

  lemma {:induction false} StepsLeftAfter(progress: seq<Progress>, i: nat, p: Progress)
    requires i < |progress|
    ensures AllStepsLeft(progress[i := p]) == AllStepsLeft(progress) + StepsLeft(p) - StepsLeft(progress[i])
  {
    var n := |progress| - 1;
    if i == n {
      assert progress[i := p][..n] == progress[..n];
    } else {
      StepsLeftAfter(progress[..n], i, p);
      assert progress[i := p][..n] == progress[..n][i := p];
    }
  }

  function Measure(call: Call): nat {
    AllStepsLeft(call.progress) + if call.waited then 0 else 1
  }

  /** Each step uses up exactly one of the steps left. */
  lemma NextDecreases(call: Call, queries: seq<Query>, s: Step)
    requires Next(call, queries, s).Some?
    ensures Measure(Next(call, queries, s).value) == Measure(call) - 1
  {
    if !s.PassWait? {
      StepsLeftAfter(call.progress, s.i, Next(call, queries, s).value.progress[s.i]);
    }
  }

  lemma {:induction false} ExecCounts(call: Call, queries: seq<Query>, steps: seq<Step>)
    requires Exec(call, queries, steps).Some?
    ensures |steps| == Measure(call) - Measure(Exec(call, queries, steps).value)
    decreases |steps|
  {
    hide Next, Measure;
    if steps != [] {
      NextDecreases(call, queries, steps[0]);
      ExecCounts(Next(call, queries, steps[0]).value, queries, steps[1..]);
    }
  }

  lemma {:induction false} InitialSteps(n: nat)
    ensures AllStepsLeft(seq(n, _ => Waiting)) == 4 * n
  {
    if n > 0 {
      var s := seq(n, _ => Waiting);
      InitialSteps(n - 1);
      assert s[..n - 1] == seq(n - 1, _ => Waiting);
    }
  }

  lemma {:induction false} GoneSteps(progress: seq<Progress>)
    requires forall i :: 0 <= i < |progress| ==> progress[i].Gone?
    ensures AllStepsLeft(progress) == 0
  {
    if progress != [] {
      GoneSteps(progress[..|progress| - 1]);
    }
  }

  /** No deadlock: until the wait has passed some step is possible. */
  lemma CanGoOn(call: Call, queries: seq<Query>)
    requires Reachable(call, queries, |queries|) && !call.waited
    ensures exists s :: Next(call, queries, s).Some?
  {
    hide Unfinished, ResponseOf, FromItsQuery, Reachable;
    CounterIsUnfinished(call, queries);
    ReachableInv(call, queries, |queries|);
    NoneUnfinished(call.progress);
    if i: nat :| i < |queries| && call.progress[i].Waiting? {
      var j := FirstWaiting(call.progress, i);
      assert Next(call, queries, Launch(j)).Some?;
    } else if i: nat :| i < |queries| && !call.progress[i].Gone? {
      var s := if call.progress[i].Running? then Execute(i) else if call.progress[i].HasResponse? then SetResponse(i) else Leave(i);
      assert Next(call, queries, s).Some?;
    } else {
      assert Next(call, queries, PassWait).Some?;
    }
  }

  lemma {:induction false} FirstWaiting(progress: seq<Progress>, i: nat) returns (j: nat)
    requires i < |progress| && progress[i].Waiting?
    ensures j <= i && progress[j].Waiting? && forall k :: 0 <= k < j ==> !progress[k].Waiting?
  {
    if k: nat :| k < i && progress[k].Waiting? {
      j := FirstWaiting(progress, k);
    } else {
      j := i;
    }
  }

  /** Every schedule that cannot be continued has passed the wait, after exactly four steps a query and one more. */
  lemma EveryScheduleEnds(queries: seq<Query>, steps: seq<Step>)
    requires Exec(Initial(queries, |queries|), queries, steps).Some?
    ensures var call := Exec(Initial(queries, |queries|), queries, steps).value;
      && |steps| <= 4 * |queries| + 1
      && ((forall s :: Next(call, queries, s).None?) ==> call.waited)
      && (call.waited <==> |steps| == 4 * |queries| + 1)
  {
    hide Next, Inv;
    var call := Exec(Initial(queries, |queries|), queries, steps).value;
    assert Reachable(call, queries, |queries|);
    ExecCounts(Initial(queries, |queries|), queries, steps);
    InitialSteps(|queries|);
    if call.waited {
      CounterIsUnfinished(call, queries);
      GoneSteps(call.progress);
    } else {
      CanGoOn(call, queries);
    }
  }

  /** Some continuation leads from here to a state with no step left. */
  lemma {:induction false} SomeScheduleEnds(call: Call, queries: seq<Query>) returns (steps: seq<Step>)
    ensures Exec(call, queries, steps).Some? && Stuck(Exec(call, queries, steps).value, queries)
    decreases Measure(call)
  {
    hide Next, Measure;
    if s :| Next(call, queries, s).Some? {
      NextDecreases(call, queries, s);
      var rest := SomeScheduleEnds(Next(call, queries, s).value, queries);
      steps := [s] + rest;
    } else {
      steps := [];
    }
  }

  ghost predicate Stuck(call: Call, queries: seq<Query>) {
    forall s :: Next(call, queries, s).None?
  }

  /** However the goroutines are scheduled, the end is that the wait has passed with all of them done. */
  ghost predicate AlwaysWaits(queries: seq<Query>, added: nat) {
    forall call :: Reachable(call, queries, added) && Stuck(call, queries) ==> call.waited && AllGone(call)
  }

  /** Replacing the request before the launch is safe exactly if the number of queries stays the same. */
  lemma WaitIsRightExactly(queries: seq<Query>, added: nat)
    ensures AlwaysWaits(queries, added) <==> added == |queries|
  {
    hide Next, Inv, Initial;
    if added == |queries| {
      forall call | Reachable(call, queries, added) && Stuck(call, queries)
        ensures call.waited && AllGone(call)
      {
        if !call.waited {
          CanGoOn(call, queries);
        }
        CounterIsUnfinished(call, queries);
      }
    } else {
      var steps := SomeScheduleEnds(Initial(queries, added), queries);
      var call := Exec(Initial(queries, added), queries, steps).value;
      assert Reachable(call, queries, added);
      WaitedNeedsCount(call, queries, added);
    }
  }

  // ---------- the response object and the joined errors ----------

  class Response {
    var responses: map<RefID, DataResponse>

    constructor ()
      ensures responses == map[]
    {
      responses := map[];
    }

    /** Runs under the mutex, so as one step. */
    method Set(refID: RefID, res: DataResponse)
      modifies this
      ensures responses == old(responses)[refID := res]
    {
      responses := responses[refID := res];
    }
  }

  class WaitGroup {
    var counter: int

    constructor ()
      ensures counter == 0
    {
      counter := 0;
    }

    method Add(n: int)
      modifies this
      ensures counter == old(counter) + n
    {
      counter := counter + n;
    }

    method Done()
      modifies this
      ensures counter == old(counter) - 1
    {
      Add(-1);
    }
  }

  /** The errors of the responses, taken in the given order of their IDs. */
  function ErrorsIn(responses: map<RefID, DataResponse>, order: seq<RefID>): seq<Error> {
    if order == [] then []
    else
      var r := order[|order| - 1];
      ErrorsIn(responses, order[..|order| - 1]) +
        (if r in responses && responses[r].err.Some? then [responses[r].err.value] else [])
  }

  ghost predicate Enumerates(order: seq<RefID>, ids: set<RefID>) {
    && (forall r :: r in order <==> r in ids)
    && (forall i, j :: 0 <= i < j < |order| ==> order[i] != order[j])
  }

  /** The IDs, among these, whose response has this error. */
  ghost function FailedWith(responses: map<RefID, DataResponse>, ids: set<RefID>, e: Error): set<RefID> {
    set r | r in ids && r in responses && responses[r].err == Some(e)
  }

  /** Every error is there as often as responses have it. */
  ghost predicate JoinsAll(responses: map<RefID, DataResponse>, ids: set<RefID>, joined: seq<Error>) {
    forall e :: multiset(joined)[e] == |FailedWith(responses, ids, e)|
  }

  lemma JoinsOneMore(responses: map<RefID, DataResponse>, ids: set<RefID>, joined: seq<Error>, r: RefID)
    requires JoinsAll(responses, ids, joined) && r !in ids && r in responses
    ensures JoinsAll(responses, ids + {r}, joined + if responses[r].err.Some? then [responses[r].err.value] else [])
  {
    var more := if responses[r].err.Some? then [responses[r].err.value] else [];
    forall e
      ensures multiset(joined + more)[e] == |FailedWith(responses, ids + {r}, e)|
    {
      if responses[r].err == Some(e) {
        assert FailedWith(responses, ids + {r}, e) == FailedWith(responses, ids, e) + {r};
      } else {
        assert FailedWith(responses, ids + {r}, e) == FailedWith(responses, ids, e);
      }
    }
  }

  lemma EnumeratesMore(order: seq<RefID>, ids: set<RefID>, r: RefID)
    requires Enumerates(order, ids) && r !in ids
    ensures Enumerates(order + [r], ids + {r})
  {
    forall x
      ensures x in order + [r] <==> x in ids + {r}
    {
    }
  }

  lemma ErrorsSnoc(responses: map<RefID, DataResponse>, order: seq<RefID>, r: RefID)
    requires r in responses
    ensures ErrorsIn(responses, order + [r]) ==
            ErrorsIn(responses, order) + if responses[r].err.Some? then [responses[r].err.value] else []
  {
    assert (order + [r])[..|order|] == order;
  }

  lemma {:induction false} NoErrors(responses: map<RefID, DataResponse>, order: seq<RefID>)
    ensures ErrorsIn(responses, order) == [] <==> forall r :: r in order && r in responses ==> responses[r].err.None?
    decreases |order|
  {
    if order != [] {
      var n := |order| - 1;
      NoErrors(responses, order[..n]);
      assert order == order[..n] + [order[n]];
    }
  }

  /** Joins the errors of all responses; the order is that of ranging over a map, so any. */
  method Errors(responses: map<RefID, DataResponse>) returns (joined: seq<Error>, order: seq<RefID>)
    ensures Enumerates(order, responses.Keys) && joined == ErrorsIn(responses, order)
    ensures joined == [] <==> forall r :: r in responses ==> responses[r].err.None?
    ensures JoinsAll(responses, responses.Keys, joined)
  {
    hide JoinsAll, FailedWith, ErrorsIn;
    joined, order := [], [];
    var left := responses.Keys;
    NoneJoined(responses);
    ghost var seen: set<RefID> := {};
    while left != {}
      invariant left + seen == responses.Keys && left !! seen
      invariant Enumerates(order, seen) && joined == ErrorsIn(responses, order)
      invariant JoinsAll(responses, seen, joined)
      decreases left
    {
      hide Enumerates;
      var r :| r in left;
      JoinsOneMore(responses, seen, joined, r);
      EnumeratesMore(order, seen, r);
      ErrorsSnoc(responses, order, r);
      order := order + [r];
      if responses[r].err.Some? {
        joined := joined + [responses[r].err.value];
      } else {
        assert joined + [] == joined;
      }
      left, seen := left - {r}, seen + {r};
    }
    NoErrors(responses, order);
  }

  lemma NoneJoined(responses: map<RefID, DataResponse>)
    ensures JoinsAll(responses, {}, []) && ErrorsIn(responses, []) == []
  {
    assert forall e :: FailedWith(responses, {}, e) == {};
  }

  // ---------- QueryData over the objects, for any schedule ----------

  lemma {:induction false} ExecPrefix(call: Call, queries: seq<Query>, steps: seq<Step>, k: nat)
    requires k < |steps| && Exec(call, queries, steps).Some?
    ensures Exec(call, queries, steps[..k]).Some?
    ensures Exec(call, queries, steps[..k + 1]) == Next(Exec(call, queries, steps[..k]).value, queries, steps[k])
    ensures Exec(call, queries, steps[..k + 1]).Some?
    decreases k
  {
    hide Next;
    var next := Next(call, queries, steps[0]).value;
    if k == 0 {
      assert steps[..1] == [steps[0]] && [steps[0]][1..] == [] && steps[..0] == [];
    } else {
      ExecPrefix(next, queries, steps[1..], k - 1);
      assert steps[..k][1..] == steps[1..][..k - 1] && steps[..k + 1][1..] == steps[1..][..k];
    }
  }

  /** The wait passes after this schedule. */
  predicate LetsPass(queries: seq<Query>, added: nat, schedule: seq<Step>) {
    var end := Exec(Initial(queries, added), queries, schedule);
    end.Some? && end.value.waited
  }

  /**
   The goroutines take their steps in the order of the schedule: each sets its
   response, also when it recovers from a panic, and then leaves the wait group.
   `order` is how the errors were joined.
   */
  method QueryData(queries: seq<Query>, added: nat, schedule: seq<Step>, reportErrors: bool)
    returns (response: Response, joined: seq<Error>, order: seq<RefID>)
    requires LetsPass(queries, added, schedule)
    ensures fresh(response) && response.responses == Exec(Initial(queries, added), queries, schedule).value.responses
    ensures DistinctIDs(queries) && added == |queries| ==>
              && response.responses == Sequential(queries)
              && (forall i :: 0 <= i < |queries| ==> queries[i].refID in response.responses)
              && (forall i :: 0 <= i < |queries| ==> Reports(queries[i].outcome, response.responses[queries[i].refID]))
              && (reportErrors ==> (joined == [] <==> forall i :: 0 <= i < |queries| ==> !Failed(queries[i].outcome)))
    ensures !reportErrors ==> joined == []
    ensures reportErrors ==> Enumerates(order, response.responses.Keys) && joined == ErrorsIn(response.responses, order)
    ensures reportErrors ==> JoinsAll(response.responses, response.responses.Keys, joined)
  {
    hide JoinsAll, Enumerates, ErrorsIn;
    hide Exec, DistinctIDs, Sequential;
    response := new Response();
    var wg := new WaitGroup();
    wg.Add(added);
    var progress, waited := seq(|queries|, _ => Waiting), false;
    assert Exec(Initial(queries, added), queries, schedule[..0]) == Some(Initial(queries, added)) by {
      NoSteps(Initial(queries, added), queries, schedule[..0]);
    }
    for k := 0 to |schedule|
      invariant fresh(response) && fresh(wg)
      invariant Exec(Initial(queries, added), queries, schedule[..k]) ==
                Some(Call(progress, wg.counter, response.responses, wg.counter < 0, waited))
    {
      ExecPrefix(Initial(queries, added), queries, schedule, k);
      match schedule[k] {
        case Launch(i) =>
          progress := progress[i := Running];
        case Execute(i) =>
          var res: DataResponse;
          match queries[i].outcome {
            case Returns(frames, err) =>
              res := DataResponse(frames, err, ErrorSource(err));
            case Panics(message) =>
              res := DataResponse(NilFrames, Some(Error(message, false, false, false, false)), Plugin);
          }
          progress := progress[i := HasResponse(res)];
        case SetResponse(i) =>
          response.Set(queries[i].refID, progress[i].response);
          progress := progress[i := WasSet];
        case Leave(i) =>
          wg.Done();
          progress := progress[i := Gone];
        case PassWait =>
          waited := true;
      }
    }
    assert schedule[..|schedule|] == schedule;
    ghost var end := Exec(Initial(queries, added), queries, schedule).value;
    if DistinctIDs(queries) && added == |queries| {
      assert Reachable(end, queries, |queries|);
      ScheduleDoesNotMatter(end, queries);
      SequentialReports(queries);
    }
    joined, order := Errors(response.responses);
    if !reportErrors {
      joined := [];
    }
  }

  lemma SequentialReports(queries: seq<Query>)
    requires DistinctIDs(queries)
    ensures forall i :: 0 <= i < |queries| ==> queries[i].refID in Sequential(queries)
    ensures forall i :: 0 <= i < |queries| ==> Reports(queries[i].outcome, Sequential(queries)[queries[i].refID])
    ensures (forall r :: r in Sequential(queries) ==> Sequential(queries)[r].err.None?) <==>
            (forall i :: 0 <= i < |queries| ==> !Failed(queries[i].outcome))
  {
    hide Sequential, DistinctIDs, ResponseOf;
    SequentialIs(queries);
    forall i | 0 <= i < |queries|
      ensures queries[i].refID in Sequential(queries)
      ensures Failed(queries[i].outcome) <==> Sequential(queries)[queries[i].refID].err.Some?
    {
      assert queries[i].refID in Sequential(queries).Keys;
      ResponseReports(queries[i].outcome);
    }
    forall r | r in Sequential(queries)
      ensures exists i :: 0 <= i < |queries| && queries[i].refID == r
    {
      assert r in Sequential(queries).Keys;
    }
  }

  lemma NoSteps(call: Call, queries: seq<Query>, steps: seq<Step>)
    requires steps == []
    ensures Exec(call, queries, steps) == Some(call)
  {
  }

  /** However a schedule has begun, it can be completed to such a one. */
  lemma EveryScheduleLetsPass(queries: seq<Query>, steps: seq<Step>) returns (rest: seq<Step>)
    requires Exec(Initial(queries, |queries|), queries, steps).Some?
    ensures LetsPass(queries, |queries|, steps + rest)
  {
    hide Next, Initial, Stuck;
    var call := Exec(Initial(queries, |queries|), queries, steps).value;
    rest := SomeScheduleEnds(call, queries);
    ExecAppend(Initial(queries, |queries|), queries, steps, rest);
    var end := Exec(Initial(queries, |queries|), queries, steps + rest).value;
    assert Reachable(end, queries, |queries|);
    if !end.waited {
      NotStuck(end, queries);
    }
  }

  lemma NotStuck(call: Call, queries: seq<Query>)
    requires Reachable(call, queries, |queries|) && !call.waited
    ensures !Stuck(call, queries)
  {
    CanGoOn(call, queries);
  }

  lemma {:induction false} ExecAppend(call: Call, queries: seq<Query>, a: seq<Step>, b: seq<Step>)
    requires Exec(call, queries, a).Some?
    ensures Exec(call, queries, a + b) == Exec(Exec(call, queries, a).value, queries, b)
    decreases |a|
  {
    hide Next;
    if a == [] {
      assert a + b == b;
    } else {
      assert (a + b)[0] == a[0] && (a + b)[1..] == a[1..] + b;
      ExecAppend(Next(call, queries, a[0]).value, queries, a[1..], b);
    }
  }
}
