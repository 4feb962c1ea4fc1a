# Connection lifecycle, header forwarding and query fan-out of sqlds

A model of the three parts of sqlds in which most of its state and branching
lives, and proofs about them.

**Connections.** `Pools` is the state: the cache, every handle ever opened with
what it was opened with, and the set of closed handles. `Operations` says what
`handleQuery`, the health check and their helpers do to it, as functions of a
`World` that decides the outcome of every driver call. `Datasource` holds the
objects (`Driver`, `SyncMapCache`, `Connector`, `SQLDatasource`) whose methods
change that state in place and are proved equal to those functions.
`Serving` runs those objects from construction to disposal.
`RetryLoops` tells what the loops return and how many handles they open,
without loops; `SequentialRuns` accounts for every handle over whole runs.
`Interleaving` is the same code as a step relation for any number of goroutines,
one cache access, `Connect`, `Close` or use of a handle a step, with an inductive
invariant; `RoundCounts` bounds what one goroutine does in any of its schedules.
`Schedules` connects the two: a sequential run is one of the interleavings, and
the configurations in which handles leak are determined exactly for both.

**Forwarded headers.** `JsonGrammar` and `JsonParser` are the texts of RFC 8259
(sections 2 to 7) and a byte-at-a-time parser proved sound and complete for
them; `JsonTokens` compares their automata with the productions of the standard.
`JsonMeaning` decodes and `JsonEncoding` encodes. `HeaderSplice` proves that the
textual splice of `injectJSONKey` is a map update on what the bytes decode to.
`SpaceTrimming` and `SpliceInputs` say which inputs it takes and what comes out,
told from the white space of Unicode rather than from the trimming.
`ForwardedHeaders` proves that `applyHeaders` is a map update whichever path it
takes, and `EscapedNames` covers the occurrence of the key that the substring
test cannot see.

**Queries and frames.** `FanOut` is `QueryData` with its wait group, panics and
shared response, under every schedule. `FrameWork` holds the two loops over
result frames.

## What the proofs find

- Neither retry loop, nor the one of the health check, refreshes the handle it
  will close (connector.go:93 declares a new `conn`, and `dbConn` at
  datasource.go:332 and datasource.go:368 never changes). A retry run with n
  successful reconnects leaves n - 1 open handles that nothing refers to any
  more. Run sequentially, the datasource never loses a handle if and only if
  `Retries <= 1` (`SequentialRuns.NeverLeaksIffFewRetries`).
- With goroutines interleaved this is not enough: two reconnects from the same
  cached handle, or two first queries with the same arguments, each store a
  handle and the second store loses the first. Interleaved runs never lose a
  handle if and only if `Retries <= 0` and multiple connections are off
  (`Schedules.ConcurrentLeaksExactly`).
- Under interleaving a query can be about to run on a handle that another
  goroutine's reconnect has closed, in its first run and also in a retry on the
  handle it has just opened, if and only if `Retries >= 1`
  (`Schedules.ClosedInUseExactly`). In sequential runs no query runs on, and no
  ping goes to, a closed handle (`Serving.Serve`).
- A clean health check means that the database answered its last ping if and
  only if `Retries >= 0` (`RetryLoops.CleanMeansPingedExactly`); with a negative
  `Retries` it is clean without a ping (`RetryLoops.NegativeRetriesNeverPing`).
- `applyHeaders` panics, on a write to a nil map, exactly when the arguments are
  the JSON text `null` (`ForwardedHeaders.PanicsExactlyOnNull`,
  `ForwardedHeaders.NullPanics`). The headers arrive exactly when the arguments
  are nil, blank or an object, or when the splice takes them and the trimmed body
  in braces decodes (`ForwardedHeaders.HeadersArriveExactly`).
- The splice can turn a text that is not JSON into one that is. It does so
  exactly when the trimmed body in braces is a JSON text and the input is blank
  or lost white space that JSON does not know (`HeaderSplice.RescuesExactly`); a
  vertical tab before `{}` is such an input (`HeaderSplice.VerticalTabIsRescued`).
- The wait group is incremented before the request may be replaced
  (datasource.go:191-195). Every schedule ends with the wait passed and all
  goroutines done if and only if the number of queries stays the same
  (`FanOut.WaitIsRightExactly`).

Where comment and code differ the code is followed: the comment at
connector.go:182 says the raw arguments are the cache key, the code hashes
them; the comments at query.go:382-386 and query.go:418-419 say malformed input
leaves the fast path, the code sends there only what is not braced or holds the
quoted key, and a malformed body between braces is spliced and stays malformed.

## Assumptions

- `driver.Connect` gives a fresh open handle or an error and no handle.
- The cache is the default one; each of its loads and stores is atomic.
- The hash gives 64 digits (`HashLength`). Injectivity is never assumed of all
  arguments, which would contradict that length, but only of the two argument
  values a statement compares (`NoCollision`).
- Wrapping an error as a downstream error keeps its message and what `errors.Is`
  finds in it.
- Encoding is faithful: decoding an encoded number or string gives it back
  (`Faithful`; an encoder of this kind is given). The order in which encoding
  writes the keys of an object is arbitrary. Decoding of number tokens and of
  string contents is a parameter, and a number may fail to decode.
- The request headers encode to a valid JSON text without characters that
  compacting would escape, as `json.Marshal` writes them.

## Model

| member | source | states |
|---|---|---|
| JsonParser.ParseSound | query.go:425 | a text the decoder accepts is a text of the RFC 8259 grammar, and its tree prints as that very text |
| JsonParser.ParseComplete | query.go:425 | every text of the grammar is accepted, as its own tree |
| JsonParser.ParserExact | query.go:425 | parsing and the grammar agree in both directions, and the tree of a text is unique |
| JsonTokens.NumberExact | query.go:425 | the automaton accepts exactly [ minus ] int [ frac ] [ exp ] of RFC 8259 section 6 |
| JsonTokens.ContentExact | query.go:425 | the automaton accepts exactly the string contents of RFC 8259 section 7 |
| JsonTokens.SpellingExact | query.go:425 | the literal names are null, true and false |
| JsonMeaning.ItemsMeanEach | query.go:425 | an array decodes exactly if its elements do, to the list of them in order |
| JsonMeaning.LastMemberWins | query.go:421-425 | an object decodes exactly if its members do, to a map whose keys are its names, each bound to its last value |
| JsonEncoding.WordsDecode | query.go:425 | null, true and false decode to what they say |
| JsonMeaning.LeanMeaning | query.go:425 | white space between tokens does not change what a text decodes to |
| JsonMeaning.LeanRun | query.go:388-404 | texts read up to states that differ only in white space go on to such states, so trimming inside the braces is harmless |
| JsonEncoding.EncodeRoundTrip | query.go:430 | decoding an encoded value gives the value back, for every order of object keys |
| JsonEncoding.RawIsFaithful | query.go:430 | encoders of the assumed kind exist |
| SpaceTrimming.SpaceRuneExactly | query.go:388 | the bytes taken for white space are the UTF-8 of the code points unicode.IsSpace accepts, and no others |
| SpaceTrimming.TrimSpaceParts | query.go:388 | trimming cuts a text in three and loses nothing |
| SpaceTrimming.TrimSpaceExactly | query.go:388 | both ends cut off are white-space runes only, and what is left neither begins nor ends with one |
| SpaceTrimming.TrimSpaceUnique | query.go:388 | there is only one way to cut a text like that |
| SpaceTrimming.TrimSpaceTwice | query.go:388-404 | trimming twice is trimming once |
| SpliceInputs.SplicesExactly | query.go:388-402 | the splice takes white space, and braces with white space around them and no quoted key inside, and nothing else |
| SpliceInputs.ObjectsAreTaken | query.go:388-402 | braces without the quoted key between them are taken, with any JSON white space around them |
| SpliceInputs.SpliceIs | query.go:404-415 | what comes out: the body without the white space around it, a comma exactly if there is a body, the key and the value |
| HeaderSplice.InjectJSONKey | query.go:387-416 | the buffer built by appends is the splice, and the splice is refused exactly for what is not braced or holds the quoted key |
| HeaderSplice.CommaKeyColon | query.go:407-412 | `,"key":` leads the parser on only from just after a member of an object, from any other state it fails |
| HeaderSplice.SplicedTail | query.go:407-414 | the bytes appended after the old body are accepted exactly when the body ended after a member of the outermost object, and add one member |
| HeaderSplice.NoQuoteNoEnd | query.go:388-415 | an unterminated string stays unterminated |
| HeaderSplice.SpliceParses | query.go:388-415 | for every accepted non-blank input: it is a JSON text if and only if the output is and only JSON white space was trimmed; the output has the input's members and the new one last |
| HeaderSplice.SpliceValidExactly | query.go:388-415 | the output is a JSON text if and only if the trimmed body in braces is one, blank input included |
| HeaderSplice.RescuesExactly | query.go:388-415 | an input that is not JSON gives an output that is, if and only if its trimmed body in braces is JSON and it is blank or lost white space JSON does not know |
| HeaderSplice.VerticalTabIsRescued | query.go:388-415 | a vertical tab before `{}` is such an input |
| HeaderSplice.SpliceOfCore | query.go:387-416 | for any accepted input the output decodes exactly when the trimmed body in braces does, to its map with the key bound to the value |
| HeaderSplice.SpliceUpdates | query.go:387-416 | decoding the output gives the input's map with the key bound to the value, and the output decodes exactly when the input does; a blank input counts as no entries |
| EscapedNames.SameText | query.go:400-402 | the key with its first letter as a \u escape stands for the same text |
| EscapedNames.EscapesStandFor | query.go:400-402 | the escapes stand for the characters RFC 8259 section 7 gives |
| EscapedNames.HeaderKeyIsPlain | datasource.go:33 | the key the program uses meets the conditions on keys |
| EscapedNames.SubstringTestMisses | query.go:400-402 | the substring test does not see an escaped spelling of the key |
| EscapedNames.EscapedSpellingIsOverwritten | query.go:387-416 | an object holding the key in an escaped spelling is spliced, and decodes to the new value alone |
| ForwardedHeaders.ApplyHeaders | query.go:367-380 | replaces the arguments in place by the outcome of the path chosen, and keeps them on every error |
| ForwardedHeaders.ApplyHeadersSlow | query.go:420-437 | decode, overwrite, encode; the arguments are kept when decoding or encoding fails, nil becoming `{}` |
| ForwardedHeaders.MarshalDecodes | query.go:429-435 | what the slow path writes decodes to the old entries with the headers under the key |
| ForwardedHeaders.ApplyUpdates | query.go:367-437 | whichever path runs, the decoded arguments are the old ones with the key bound to the headers |
| ForwardedHeaders.PanicsExactlyOnNull | query.go:421-429 | the call panics if and only if the arguments are JSON null |
| ForwardedHeaders.NullPanics | query.go:421-429 | the witness: on the text `null` it panics |
| ForwardedHeaders.HeadersArriveExactly | query.go:367-437 | the call leaves an object holding the headers under the key if and only if the arguments count as entries, or the splice takes them and their trimmed body in braces decodes |
| ForwardedHeaders.KeptOtherwise | query.go:368-428 | arguments neither path can use, but for null, are kept byte for byte, and all are when the headers cannot be encoded |
| ForwardedHeaders.AppliedRefusesSplice | query.go:400-402 | after one call the quoted key is in the bytes, so the next call takes the slow path |
| ForwardedHeaders.LastHeadersWin | query.go:374-379 | applying h1 then h2 decodes to the same arguments as applying h2 alone |
| ForwardedHeaders.ReapplyingKeepsBytes | query.go:367-437 | from the second call on the same headers leave the same bytes, hence the same cache key |
| Failures.ShouldRetry | connector.go:212-219 | true exactly if some configured text occurs in the message |
| Pools.DefaultKeyIsApart | datasource.go:40-47 | no key with arguments is the default key |
| Pools.KeysFollowHashes | datasource.go:44-47 | keys with arguments agree exactly when the hashes do |
| Pools.KeysNameTheirSource | datasource.go:40-47 | keys of datasources with different UIDs never meet |
| Pools.ReplaceTimesIs | connector.go:138-149 | n reconnects that close the same handle leave the last handle cached, n more opened and one closed |
| Pools.HandlesSplit | connector.go:138-175 | the handles opened are the disjoint union of closed, cached and orphaned ones |
| Pools.NoLeakIsNoOrphan | connector.go:138-175 | every handle is closed or cached under exactly one key if and only if there is no orphan |
| Pools.ReplaceTimesHealthy | connector.go:88-97 | a retry run keeps every cached handle open, cached once, with the bootstrap settings and under the key of its arguments |
| Pools.ReplaceTimesOrphans | connector.go:88-97 | the new orphans of a retry run are exactly all its handles but the last |
| Pools.RetryRunAccounts | datasource.go:330-341 | a retry run with n successful reconnects adds exactly max(0, n-1) orphans |
| Pools.OrphanCount | connector.go:138-175 | the orphans number the handles opened less those closed and those cached |
| Datasource.Driver.Connect | connector.go:42 | a fresh handle opened with the given settings and arguments, or an error and no handle |
| Datasource.SyncMapCache.Load | cache.go:48-56 | finds an entry exactly if there is one |
| Datasource.SyncMapCache.Store | cache.go:58-60 | overwrites one key and no other |
| Datasource.SyncMapCache.Range | cache.go:62-66 | visits live entries, none twice, all of them unless the callback stops it, and stops where it says no |
| Datasource.SyncMapCache.Dispose | cache.go:68-74 | closes exactly the cached handles and empties the map |
| Datasource.NewConnector | connector.go:40-62 | fails exactly if connecting does, with that error as a downstream error, else the bootstrap connection is the one entry, under the default key |
| Datasource.Connector.Reconnect | connector.go:138-150 | opens with the old settings and the query's arguments, closes the old handle, stores the new one; a refusal changes nothing |
| Datasource.Connector.GetConnectionFromQuery | connector.go:177-210 | which connection, error and new state every combination of settings, arguments and cache contents gives |
| Datasource.Connector.CheckPing | connector.go:119-136 | ping errors come back as downstream errors |
| Datasource.Connector.ConnectWithRetries | connector.go:80-117 | the loop with its shadowed connection refines the recursive specification, and pings exactly the handles it opened, in order, none of them closed |
| Datasource.Connector.Connect | connector.go:64-78 | the health check's result and state, returning the connection held before the reconnects; it pings the default handle without retries and those it opened with them, and no closed one from a usable cache |
| Datasource.Connector.Dispose | connector.go:173-175 | closes every cached handle and forgets them |
| Serving.QueryServed | datasource.go:289-375 | after any run, a query runs on handles opened with the bootstrap settings, the first one for its arguments up to the hash, every further one with exactly its arguments |
| Serving.HealthServed | connector.go:64-117 | and a health check pings handles it opened with exactly its arguments |
| Serving.Serve | datasource.go:130-383 | making the objects and serving any tasks in turn never runs a query on, or pings, a closed handle, uses for each task the handles said above and no others, and ends in the state the accounts are about |
| Serving.ServeAndDispose | connector.go:173-175 | disposing of them afterwards empties the cache and, with Retries <= 1, leaves every handle closed |
| Datasource.SQLDatasource.RetryQuery | datasource.go:330-352 | the loop after a query error refines the specification and runs exactly on the handles it opened, in order |
| Datasource.SQLDatasource.RetryTimeout | datasource.go:365-379 | so does the loop after a timeout |
| Datasource.SQLDatasource.HandleQuery | datasource.go:285-383 | answer and state refine the specification; the first run is on the connection looked up and each retry on the handle opened for it, none of them closed from a usable cache; a rejected lookup runs nothing |
| RetryLoops.QueryRetryRun | datasource.go:330-352 | the query-error loop is a run of reconnects that all close one handle, with one query run for each |
| RetryLoops.TimeoutRetryRun | datasource.go:366-379 | so is the timeout loop, its failed reconnects using up a round and nothing else |
| RetryLoops.PingRetryRun | connector.go:88-114 | so is the loop of the health check |
| RetryLoops.HandleQueryRun | datasource.go:316-382 | a query runs once and once more for each successful reconnect, of which there are at most Retries |
| RetryLoops.RunsAreBounded | datasource.go:327-379 | the two loops never both run: at most 1 + Retries runs |
| RetryLoops.RunsReachTheBound | datasource.go:327-357 | with every outcome retryable and every reconnect successful it is exactly 1 + Retries, and the answer pairs the last frames with the first error as a downstream error |
| RetryLoops.QueryLoopFrom | datasource.go:330-352 | the loop ends with the first success, non-retryable error or refused reconnect, or falls out with the last frames |
| RetryLoops.TimeoutLoopFrom | datasource.go:366-379 | the loop ends with the first successful run, or falls out with the last frames; failed reconnects run nothing |
| RetryLoops.HandleQueryAnswers | datasource.go:316-382 | the answer, told from the stream of run and reconnect outcomes alone |
| RetryLoops.PingLoopFrom | connector.go:88-114 | the loop of the health check ends with the first success, non-retryable error or refused reconnect, or with its last round |
| RetryLoops.HealthPings | connector.go:64-117 | with Retries > 0, pings go up to the first success, non-retryable error or refused reconnect, capped at Retries; the error is that of the last round; the last handle opened is open under the default key; the connection returned is the one before the reconnects, closed exactly if there was one |
| RetryLoops.HealthPingsOnce | connector.go:71-74 | without retries a health check makes one ping, reports exactly its outcome, and changes nothing |
| RetryLoops.CleanExactly | connector.go:64-117 | with Retries >= 0 a health check is clean if and only if its last round needed no reconnect or had one, and its ping was answered |
| RetryLoops.MissingIsReported | connector.go:66-69 | without a default connection a health check says so and asks nothing |
| RetryLoops.CleanMeansPingedExactly | connector.go:71-117 | a clean health check has ended in a ping the database answered, whatever happened, if and only if Retries >= 0 |
| RetryLoops.NegativeRetriesNeverPing | connector.go:71-88 | the witness: a negative Retries gives a clean health check without a ping |
| SequentialRuns.GetConnectionKeeps | connector.go:177-210 | looking a connection up orphans nothing, keeps the pool healthy and finds what is cached under its key |
| SequentialRuns.LookupExactly | connector.go:177-210 | a lookup fails exactly on arguments not accepted or a refused connect, each with its own error, and opens a handle exactly for arguments seen for the first time |
| SequentialRuns.LookupTwice | connector.go:193-197 | looking the same arguments up again finds the same connection and changes nothing |
| SequentialRuns.OpAccounts | datasource.go:316-382 | one query or health check orphans exactly all but the last of the handles its retries opened |
| SequentialRuns.RunAccounts | connector.go:138-210 | after any run, handles split into closed, cached and orphaned, and the orphans number the excess reconnects |
| Operations.BootIsHealthy | connector.go:40-62 | after construction the one handle, opened with the bootstrap settings and no arguments, is cached under the default key, and the invariant holds |
| SequentialRuns.NeverLeaksIffFewRetries | connector.go:88-97 | no run of any length ever loses a handle if and only if Retries <= 1 |
| SequentialRuns.TimeoutsLeak | datasource.go:366-373 | one query that keeps timing out loses Retries - 1 handles |
| SequentialRuns.RunsStayUsable | connector.go:138-210 | after any run every cached handle is open and every closed one was opened before |
| SequentialRuns.DisposeAccounts | cache.go:68-74 | after Dispose exactly the orphans are still open |
| SequentialRuns.DisposeClosesAll | connector.go:173-175 | with Retries <= 1, Dispose after any run leaves every handle closed and the cache empty |
| SequentialRuns.RefusalsNeverPoison | connector.go:138-142 | when every later connect fails, no run changes the cache or any handle |
| SequentialRuns.NeverMissing | connector.go:183-187 | the missing-connection error never comes out of a lookup or a health check |
| SequentialRuns.ConnectionsFitTheirArguments | connector.go:193-209 | with multiple connections a query gets a handle opened with exactly its arguments and the bootstrap settings |
| Interleaving.InvKept | connector.go:138-210 | every step of every goroutine keeps the invariant |
| Interleaving.ReachableInv | connector.go:138-210 | the invariant holds in every state any interleaving reaches |
| Interleaving.ClosedOnlyWhileReplaced | connector.go:144-148 | a cached handle is closed only while the goroutine that closed it is about to store its replacement under that key |
| Interleaving.QuietCacheIsOpen | connector.go:144-148 | with no reconnect between close and store, every cached handle is open and cached once |
| Interleaving.DefaultIsNeverMissing | connector.go:64-69 | under any interleaving the default key is bound and no goroutine misses it |
| Interleaving.CacheIsCoherent | connector.go:193-209 | under any interleaving the handle under the key of some arguments was opened with those arguments and the bootstrap settings |
| Interleaving.WorkersHoldTheirOwn | datasource.go:285-332 | a goroutine never works with, or is about to use, a handle opened for other arguments |
| RoundCounts.RoundsAreBounded | datasource.go:330-371 | in every schedule a goroutine tries to reconnect at most Retries times, refused attempts included, uses a handle at most once more, and once finished has used each handle it stored |
| Schedules.OperationIsSchedule | datasource.go:316-382 | a whole operation does to cache and handles what its steps do one by one, refused reconnects included, and its goroutine finishes |
| Schedules.SequentialRunIsReachable | connector.go:138-210 | every sequential run is one of the interleavings, in which every goroutine finishes |
| Schedules.FirstConnectionsRace | connector.go:194-207 | two first queries with the same arguments lose a handle |
| Schedules.ReconnectsRace | connector.go:138-149 | two reconnects from the same handle lose a handle, already with one retry |
| Schedules.ConcurrentLeaksExactly | connector.go:138-210 | interleaved goroutines never lose a handle if and only if Retries <= 0 and multiple connections are off |
| Schedules.QuietAccounts | connector.go:138-210 | with no goroutine about to store, the handles lost number one plus the successful connects, less distinct handles closed, less keys cached |
| Schedules.ClosedUnderfoot | datasource.go:316-332 | one retry is enough for a query to be about to run for the first time on a handle another query has closed |
| Schedules.ClosedBeforeRetry | datasource.go:332-344 | and for a retry to be about to run on the handle just opened, already closed by another query |
| Schedules.ClosedInUseExactly | datasource.go:316-344 | interleaved goroutines never use a closed handle, in a first run or in a retry, if and only if Retries <= 0 |
| FanOut.InvKept | datasource.go:198-232 | every step of launching, running, setting and leaving keeps the invariant |
| FanOut.CounterIsUnfinished | datasource.go:191-234 | the wait counter is the number of unfinished goroutines, and when the wait passes all are done |
| FanOut.WaitedNeedsCount | datasource.go:191-195 | too high a count never lets the wait pass; too low a count passes early or drops below zero |
| FanOut.WaitIsRightExactly | datasource.go:191-195 | every schedule ends with the wait passed and all goroutines done if and only if the replaced request has as many queries |
| FanOut.LaunchedInOrder | datasource.go:198-234 | goroutines are launched in the order of the queries, all of them before the wait passes |
| FanOut.EveryQueryAnswers | datasource.go:198-234 | when the wait passes the response IDs are exactly the queried ones, each with the report of one of its queries: a panic is an error with its message and no frames, otherwise frames, error and source are those returned |
| FanOut.ScheduleDoesNotMatter | datasource.go:198-234 | with distinct IDs the responses are those of running the queries one by one |
| FanOut.SequentialIs | datasource.go:226-230 | that reference result binds exactly the queried IDs, with distinct ones to the reports of their queries |
| FanOut.LastQueryWins | response.go:14-18 | in it the last query of an ID has the last word |
| FanOut.CanGoOn | datasource.go:198-234 | no deadlock before the wait has passed |
| FanOut.EveryScheduleEnds | datasource.go:198-234 | every schedule ends, after four steps a query and one more, with the wait passed |
| FanOut.QueryData | datasource.go:183-243 | over the shared response and the wait group, under any schedule after which the wait passes, the response is that of the step relation; with distinct IDs and the right count every query has its report, and the joined errors are empty exactly if none panicked or failed; errors are joined only if the driver asks for them |
| FanOut.EveryScheduleLetsPass | datasource.go:198-234 | however a schedule has begun, it can be completed to one after which the wait passes |
| FanOut.Errors | datasource.go:407-423 | joins every error as often as responses have it, in some order of their IDs; empty exactly if none failed |
| FrameWork.FixFrameForLongToMulti | query.go:331-365 | all or nothing: on error the frame is unchanged, else it is the repaired one |
| FrameWork.FixKeepsCells | query.go:341-364 | the first time field becomes non-nullable with every cell, name, label and config kept, other fields and the row count are unchanged, and a second call changes nothing |
| FrameWork.FixFailsExactly | query.go:336-350 | fails exactly without a time field or when the first one is nullable and holds a null, and says which |
| FrameWork.CellsOfEqualFields | query.go:206 | rows times fields is the number of values, field by field |
| FrameWork.TotalsCount | query.go:195-207 | the totals are the sizes of the sets of rows and of values of all frames that are there |
| FrameWork.ObserveResponseSize | query.go:194-217 | emits exactly when all frames are regular; the totals are the numbers of rows and values modulo 64-bit wrap-around, and exact below 2^63 |

## Left out

- Custom caches with eviction: they may close or drop entries at any time, and the invariants do not hold for them.
- Queries racing with Dispose: its range, close and clear are not one step, so it comes last in a run.
- Steps of GetQuery, macro interpolation and the query mutators: they return before any connection is touched, or change only the query text.
- DBQuery.Run, row conversion and the SDK's frame conversions: their outcome is the `World`'s; that a run on a closed handle fails is one of the outcomes.
- Real time: pauses, deadlines, the shared context of the timeout loop and cancellation; a run that exceeded its deadline is an error flag.
- SHA-256 itself, metrics, logging, HTTP routes, row limits and option setters.
- The errors of closing a handle are logged and ignored by the program, so closing always succeeds here.
- Handles are numbers in the order they were opened, not heap objects; what the database does with them is not modelled.
- The mutex of Response: a set is one step.
- The two retry loops of handleQuery, inline in the program, are methods of their own here.
- Queries and health checks interleave at loads, stores, connects, closes and uses of a handle; the outcome of a run or ping decides whether a goroutine goes on, and the step relation allows every outcome.
- FanOut takes the outcome of each query, including its response mutator, as given; the outcomes of queries that share connections are those of Interleaving.
- JSON decoding limits outside RFC 8259: the nesting limit of 10000 and the replacement of invalid UTF-8, which belongs to the text decoding that is a parameter.
- EscapedNames covers one family of escaped spellings as a witness; that an escaped key anywhere is overwritten follows from SpliceUpdates, which takes any decoding of names.
- The values of frame cells other than null are plain numbers, and a field's config is a number.
- The lazily installed cache and connectors built without NewConnector, which only fixtures use.
