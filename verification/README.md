# openfirma: verified models

Dafny models of the five parts of openfirma that carry its hardest promises, with
proofs of what those parts are for. Imperative code is modelled by methods and
classes; protocols between processes are state machines over single steps; the
environment (reads, writes, clocks, other processes, crashes, cancellations) is
nondeterministic.

| files | system part |
|---|---|
| `Glob.dfy`, `GlobText.dfy`, `MappingHost.dfy` | action mapping: glob matching, glob overlap, host normalisation |
| `HttpText.dfy`, `HttpMessage.dfy`, `HttpStream.dfy`, `HttpForwarder.dfy` | the HTTP/1 forwarder that replaces attribution headers |
| `StackStop.dfy`, `StackState.dfy`, `StackSafety.dfy`, `StackDirectory.dfy` | stack lifecycle: teardown, generation-fenced state directory, detached handoff |
| `ConnectionRecord.dfy`, `ConnectionStore.dfy`, `NativeSession.dfy`, `SessionMachine.dfy` | saved connection, its two stores, and refresh-token rotation |
| `RevocationFormat.dfy`, `RevocationStore.dfy`, `RevocationDelivery.dfy` | revocation file, memory and streams |
| `Prelude.dfy`, `Text.dfy`, `Utf8.dfy` | shared bytes, ASCII and UTF-8 definitions |

How the parts fit together:

- **Globs.** `Accepts` says what a pattern means: every literal stands for itself
  and every `*` for any byte sequence. The in-place matcher decides exactly
  `Accepts`; the breadth-first search decides exactly whether two patterns accept
  a common string, and terminates because every pop shrinks the queue or uses up
  one of finitely many index pairs. For patterns in UTF-8 the common string can be
  taken in UTF-8 too.
- **Hosts.** Normalisation is not idempotent for every host. `IdempotentIff`
  gives the exact condition on the input; `NotIdempotent` shows a host for which it
  fails (`"a :443"`).
- **Forwarder.** `Forward` says, over the whole client stream, what is sent
  upstream, which requests are reported and how the run ends. The buffer-driven
  class refines it for every way of cutting the stream into reads and for every
  failing read or write. Rewriting keeps method, target, framing and head end, so
  forwarding the output again reproduces it.
- **Stack.** `StackStop` is the teardown loop with its history of probes, signals
  and sleeps. `StackState` is one machine of startups, owned shutdowns, external
  stops and detached launches over one directory, where each file operation is a
  move and any process may crash between moves. `StackSafety` proves the invariant
  and the theorems about every reachable state. `StackDirectory` holds the actual
  loops over the directory and shows that whatever they do is a run of that machine.
- **Login.** `ConnectionStore` keeps a committed record and its keyring secret in
  step through every fault and crash. `NativeSession` is the renewal protocol with
  its history; `Run` makes any number of calls, each cancelled anywhere, and the
  lemmas are about that history and about what each call left behind.
  `SessionMachine` runs any number of sessions over one locked store and proves what
  a single session relies on. One key per credential does not hold across sessions
  when one of them gives its credential up; `LoadedBeforeIff` says exactly when.
- **Revocation.** One line format, one expiry rule, one merge. A compacted file
  loads back to exactly the unexpired entries. A revocation appended after an
  unfinished last line may not be loaded; `RevokeLoadsIff` says exactly when it is,
  and `LostRetry` reaches such a line by a write that failed half way. The delivery
  machine shows that quiet streams hold the current set; a file change between the
  first load and the registration of the watch, or one whose reload could not read
  the file, is not noticed until the next one.

## Model

| member | source | states |
|---|---|---|
| Glob.GlobMatch | crates/firma-core/src/mapping.rs:151-179 | true exactly when the pattern's literals and stars can be assigned pieces of the value, including both shortcut branches |
| Glob.SpreadRight | crates/firma-core/src/mapping.rs:164-169 | in place, a cell becomes reachable exactly when it or a cell to its left was |
| Glob.ShiftOver | crates/firma-core/src/mapping.rs:170-175 | in place, a cell becomes reachable exactly when its left neighbour was and the byte between is the token |
| Glob.ReachesStar | crates/firma-core/src/mapping.rs:164-169 | a prefix of the value fits the pattern up to and including a star exactly when some shorter prefix fits the pattern before it |
| Glob.ReachesLiteral | crates/firma-core/src/mapping.rs:170-175 | a prefix fits up to and including a literal exactly when it ends in that literal and the rest fits before it |
| Glob.LiteralPattern | crates/firma-core/src/mapping.rs:155-157 | a pattern without a star accepts exactly itself |
| Glob.GlobPatternsOverlap | crates/firma-core/src/mapping.rs:183-219 | true exactly when some byte string is accepted under both patterns; terminates |
| Glob.PushesStayReachable | crates/firma-core/src/mapping.rs:197-215 | every pair pushed by the search is inside the grid and reached by one common string |
| Glob.ClosedFollows | crates/firma-core/src/mapping.rs:183-219 | a visited set closed under pushes contains the end whenever the two remaining patterns accept a common string |
| Glob.ExploringVisits | crates/firma-core/src/mapping.rs:186-216 | visiting a new pair keeps the search invariant and uses up one unvisited pair |
| Glob.ExploredAll | crates/firma-core/src/mapping.rs:183-219 | an exhausted queue means there is no common string |
| GlobText.StarMeetsChar | crates/firma-core/src/mapping.rs:200-215 | a star that meets a whole character of the other pattern takes none of it or can take all of it |
| GlobText.OverlapIsTextOverlap | crates/firma-core/src/mapping.rs:181-219 | for patterns in UTF-8 the search answers whether some string in UTF-8 is accepted under both |
| MappingHost.CanonicalPortStable | crates/firma-core/src/mapping.rs:292-303 | canonicalising a port twice is the same as once and keeps its value, however long the port |
| MappingHost.DefaultPort | crates/firma-core/src/mapping.rs:238-258 | the dropped ports are exactly those whose value is 443 or 80, with any leading zeros |
| MappingHost.PartsOf | crates/firma-core/src/mapping.rs:307-325 | every unbracketed authority is a name and dots, or a name, dots, a port and dots |
| MappingHost.SplitPort | crates/firma-core/src/mapping.rs:307-325 | an authority with a port splits into the lowered name without trailing dots and the canonical port |
| MappingHost.SplitPlain | crates/firma-core/src/mapping.rs:307-325 | any other unbracketed authority splits into its lowered name without trailing dots and no port |
| MappingHost.Normalizes | crates/firma-core/src/mapping.rs:252-258 | the normal form of an unbracketed host in terms of its parts |
| MappingHost.BracketParts | crates/firma-core/src/mapping.rs:329-337 | a bracketed address keeps its whole text or splits at the bracket before a valid port |
| MappingHost.BracketedStable | crates/firma-core/src/mapping.rs:238-258 | normalisation is idempotent on every bracketed host |
| MappingHost.IdempotentIff | crates/firma-core/src/mapping.rs:238-258 | normalisation is idempotent exactly when no whitespace stands right before a suffix that normalisation drops |
| MappingHost.SpaceFreeIdempotent | crates/firma-core/src/mapping.rs:238-258 | normalisation is idempotent on every host without whitespace |
| MappingHost.SpaceBeforeDefaultPort | crates/firma-core/src/mapping.rs:252-258 | every name ending in whitespace followed by `:443` normalises differently the second time |
| MappingHost.NotIdempotent | crates/firma-core/src/mapping.rs:252-258 | a concrete host whose normal form is not normal |
| HttpText.FindCrlfIsFirst | crates/firma-http/src/proxy.rs:310-312 | the line-end search returns a position exactly when it is the first line end |
| HttpText.FindTerminatorIsFirst | crates/firma-http/src/proxy.rs:149-151 | the head search returns a position exactly when it is the first blank line |
| HttpText.LinesOfUnlines | crates/firma-http/src/proxy.rs:73-115 | lines written with line ends split back into the same lines |
| HttpText.HeadEnd | crates/firma-http/src/proxy.rs:117-147 | a head of non-empty lines is found to end exactly where it was written to end |
| HttpMessage.RewriteKeepsMeta | crates/firma-http/src/proxy.rs:73-115 | replacing the attribution headers keeps method, target and body framing |
| HttpMessage.RewriteTwice | crates/firma-http/src/proxy.rs:73-115 | replacing the same attribution headers again changes nothing |
| HttpMessage.HeadRoundTrip | crates/firma-http/src/proxy.rs:27-115 | a rewritten head is found again at its end, is valid UTF-8, has the same metadata and is its own rewriting |
| HttpForwarder.ParseRequestMetadata | crates/firma-http/src/proxy.rs:165-210 | the line scan yields the first line's method and target, chunked if any line says so, else the last length line's value; refuses non-UTF-8 heads |
| HttpForwarder.ReplaceAttributionHeaders | crates/firma-http/src/proxy.rs:73-115 | the rebuilt head is the first line, every line naming no attribution header, then the attribution headers |
| HttpForwarder.Forwarder.ReadUntilHeaderBlock | crates/firma-http/src/proxy.rs:117-147 | buffers without losing a byte until the first head end of the whole stream; end of input with nothing pending is a clean end; the limit is reported only with more than 128 KiB buffered and no head end among them, and no head is taken that ends more than one read past the limit or past what was buffered before |
| HttpForwarder.Forwarder.ReadUntilCrlf | crates/firma-http/src/proxy.rs:290-308 | buffers without losing a byte until the first line end of the whole stream, or fails only if there is none |
| HttpForwarder.Forwarder.EnsureBuffered | crates/firma-http/src/proxy.rs:275-288 | buffers at least the needed bytes without losing any, or fails only if the stream is shorter |
| HttpForwarder.Forwarder.CopyExactBytes | crates/firma-http/src/proxy.rs:212-231 | sends exactly the next count bytes; a short stream fails after sending all of it |
| HttpForwarder.Forwarder.ForwardTrailers | crates/firma-http/src/proxy.rs:251-261 | sends lines up to and including the first blank one |
| HttpForwarder.Forwarder.ForwardChunkedBody | crates/firma-http/src/proxy.rs:233-273 | sends exactly the chunked body of section 7.1 of RFC 9112, as the scan of the whole stream defines it, with the same failure |
| HttpForwarder.Forwarder.ForwardMessageBody | crates/firma-http/src/proxy.rs:44-69 | after the body the run continues as the specification of the rest, and after CONNECT the whole tail is copied |
| HttpForwarder.Forwarder.ForwardHead | crates/firma-http/src/proxy.rs:33-42 | the reported request and the rewritten head are those of the specification |
| HttpForwarder.Forwarder.ForwardRequest | crates/firma-http/src/proxy.rs:28-70 | one round of the loop keeps what is sent plus what is still due equal to the specification, and consumes input |
| HttpForwarder.Forwarder.ForwardRequests | crates/firma-http/src/proxy.rs:16-71 | a successful run sent and reported exactly what the specification says for the whole stream; a malformed stream stops it with exactly the specification's failure; one that meets the size limit did everything before a head longer than that limit and nothing after; any other failure sent and reported a prefix |
| HttpStream.BodyLocal | crates/firma-http/src/proxy.rs:44-60 | a complete body is found by reading only its own bytes, whatever follows |
| HttpStream.ForwardTwice | crates/firma-http/src/proxy.rs:16-115 | for well-formed attribution headers, forwarding the output of a complete run gives that output and those requests again |
| HttpForwarder.CutsDoNotMatter | crates/firma-http/src/proxy.rs:16-71 | two runs over one stream, read in any two ways, that both succeed send the same bytes and report the same requests; one that succeeds rules out a malformed-input failure of the other |
| HttpForwarder.OutputIsStable | crates/firma-http/src/proxy.rs:16-115 | running the forwarder on its own output reproduces it whenever both runs succeed, and the second never finds its input malformed |
| StackStop.TeardownOrder | crates/firma-process-orchestrator/src/stop.rs:106-125 | components in reverse startup order, then the supervisor |
| StackStop.SettledMeans | crates/firma-process-orchestrator/src/stop.rs:409-418 | a target counts as settled exactly when some probe found it absent |
| StackStop.OrderedMeans | crates/firma-process-orchestrator/src/stop.rs:285-395 | in an ordered history, every signal comes after each earlier target in teardown order was probed absent |
| StackStop.GracefulMeans | crates/firma-process-orchestrator/src/stop.rs:322-354 | every hard signal comes after a soft signal to the same target, and at or after the shared deadline unless a probe or collection failed before it |
| StackStop.FailureMeans | crates/firma-process-orchestrator/src/stop.rs:40-58 | no first failure is recorded exactly when no probe and no child collection ever failed |
| StackStop.Teardown.TargetMayExist | crates/firma-process-orchestrator/src/stop.rs:409-418 | a failed probe counts as present and is recorded as the first failure; absent means probed absent |
| StackStop.Teardown.CollectOwned | crates/firma-process-orchestrator/src/stop.rs:310-313 | a failed collection is recorded and makes the target's absence uncertain |
| StackStop.Teardown.AwaitSoft | crates/firma-process-orchestrator/src/stop.rs:326-336 | the graceful wait terminates at the shared deadline, on a failure or on absence, and keeps the history ordered and the sleeping within that deadline |
| StackStop.Teardown.AwaitHard | crates/firma-process-orchestrator/src/stop.rs:357-373 | the settlement wait terminates and reports disappearance only after an absent probe with no uncertain collection |
| StackStop.Teardown.StopTarget | crates/firma-process-orchestrator/src/stop.rs:309-378 | the loop advances past a target only when it was probed absent, otherwise a failure is recorded or it is not settled; force follows a graceful request that ran out of time or into a failure |
| StackStop.Teardown.Stop | crates/firma-process-orchestrator/src/stop.rs:285-402 | every run is ordered and graceful before it is forced, its result is the verdict of its history, success means no target is left, and the sleeps add up to at most the timeout plus two seconds |
| StackState.RecordedPidsIs | crates/firma-process-orchestrator/src/stop.rs:211-219 | the stop snapshot is exactly the process ids on record |
| StackSafety.InitOk | crates/firma-process-orchestrator/src/start.rs:857-912 | a directory left behind by one earlier generation satisfies the invariant |
| StackSafety.WorldMoveOk | crates/firma-process-orchestrator/src/state_lease.rs:40-63 | arrivals, deaths, crashes, giving up and taking the transaction keep the invariant |
| StackSafety.BuildMoveOk | crates/firma-process-orchestrator/src/start.rs:857-1000 | stale check, claim, reap, clear, spawn, record and publish keep the invariant |
| StackSafety.AttachMoveOk | crates/firma-process-orchestrator/src/start.rs:1258-1403 | announcing, acknowledging, confirming, failing and proving absence keep the invariant |
| StackSafety.CleanMoveOk | crates/firma-process-orchestrator/src/stop.rs:180-557 | stopping and every step of a cleanup keep the invariant |
| StackSafety.LaunchMoveOk | crates/firma-process-orchestrator/src/start.rs:1056-1174 | every launcher step keeps the invariant |
| StackSafety.ClaimedOk | crates/firma-process-orchestrator/src/start.rs:1409-1425 | a claim over dead records keeps the latest claimant the only generation with live records |
| StackSafety.DirectoryClearOk | crates/firma-process-orchestrator/src/start.rs:1445-1471 | when a startup has reaped and cleared, no component record is left, so that from then on every one under its lock is its own |
| StackSafety.OwnRecordsDead | crates/firma-process-orchestrator/src/stop.rs:439-458 | once a generation's own processes are gone and the lock still names it, every component on record is dead |
| StackSafety.MoveOk | crates/firma-process-orchestrator/src/start.rs:857-1461 | every move of every process keeps the invariant |
| StackSafety.RunKeepsInv | crates/firma-process-orchestrator/src/start.rs:857-1461 | so does every run |
| StackSafety.AtMostOneGeneration | crates/firma-process-orchestrator/src/start.rs:1409-1461 | in every reachable state all live processes on record were recorded by one generation, the one a readable lock names |
| StackSafety.CleanupIsFenced | crates/firma-process-orchestrator/src/stop.rs:439-521 | a cleanup removes a file only while holding the transaction, never one of a generation that claimed later, never the record of a live component; without a lease nobody has claimed since the stop loaded the lock (the lock itself: LockIsCommitMarker) |
| StackSafety.LockIsCommitMarker | crates/firma-process-orchestrator/src/stop.rs:512-519 | a cleanup removes the lock only inside the transaction, only while it names the cleaning lease and that generation is the latest claim, and by then no process record and no endpoint is left |
| StackSafety.ClaimOverDeadRecords | crates/firma-process-orchestrator/src/start.rs:1409-1442 | a startup claims, or removes an old lock, only while holding the transaction over records that are all dead |
| StackSafety.HandoffInOrder | crates/firma-process-orchestrator/src/start.rs:1258-1403 | a launcher returned a handle only after its supervisor confirmed; supervisors confirm only after their readiness record was removed |
| StackSafety.HandleIsOwn | crates/firma-process-orchestrator/src/start.rs:1147-1174 | the handle is read under the transaction with the launcher's generation the latest claim, lists every recorded id, and every record it lists was written by that generation |
| StackSafety.RollbackSignalsOwn | crates/firma-process-orchestrator/src/stop.rs:180-232 | a failing launcher signals only recorded ids, and only live processes its own generation recorded |
| StackSafety.TransactionsExclude | crates/firma-process-orchestrator/src/state_lease.rs:22-63 | two processes are never both inside the transaction |
| StackDirectory.Directory.IsStackStale | crates/firma-process-orchestrator/src/start.rs:1428-1442 | stale means every record is dead, not stale means one is live; the loop is a run of the machine |
| StackDirectory.Directory.AcquireLock | crates/firma-process-orchestrator/src/start.rs:1409-1425 | winning leaves the lock naming this generation over dead records and untouched files; a refusal changes nothing; the loop ends after at most one retry |
| StackDirectory.Directory.ReapStale | crates/firma-process-orchestrator/src/start.rs:1445-1461 | on a directory just claimed no process record is left and nothing but records was removed |
| StackDirectory.Directory.ClearListen | crates/firma-process-orchestrator/src/start.rs:1463-1471 | afterwards no record and no endpoint of an earlier generation is left |
| StackDirectory.Directory.StartComponents | crates/firma-process-orchestrator/src/start.rs:923-988 | success leaves every component recorded and published by this generation and owned by it; failure leaves only its own records |
| StackDirectory.Directory.SpawnStack | crates/firma-process-orchestrator/src/start.rs:857-912 | a whole startup ends with the claim and one own record and endpoint per component, is refused with every file as it was, or has to roll back while holding its claim |
| StackDirectory.Directory.RemoveAll | crates/firma-process-orchestrator/src/stop.rs:459-511 | every listed file is attempted in order, nothing outside the list changes, and without a failure all of them are gone |
| StackDirectory.Directory.CleanupGeneration | crates/firma-process-orchestrator/src/stop.rs:439-521 | the lock goes exactly when it named the lease and every other removal succeeded; another generation's directory is untouched |
| StackDirectory.Directory.ReadStackHandle | crates/firma-process-orchestrator/src/start.rs:1147-1174 | a handle is every component's recorded id under a lock naming this generation |
| StackDirectory.Directory.StaysReachable | crates/firma-process-orchestrator/src/start.rs:857-1461 | wherever these methods stop, the state is a reachable one |
| ConnectionRecord.RecordSize.Write | crates/firma-connection-store/src/record.rs:25-48 | accepts bytes exactly while the total stays below the limit and remembers having exceeded it |
| ConnectionRecord.RecordBuffer.Write | crates/firma-connection-store/src/record.rs:50-80 | appends exactly when the buffer stays within the size it was given |
| ConnectionRecord.Encode | crates/firma-connection-store/src/record.rs:138-165 | succeeds exactly when the record and its newline fit the limit, and then is that text; the second pass never outgrows the first |
| ConnectionRecord.ReadBounded | crates/firma-connection-store/src/file.rs:105-137 | returns the whole file for every way of reading it, within a capacity that never passes the limit, and calls a file too large only if it is |
| ConnectionRecord.EncodedReadsBack | crates/firma-connection-store/src/record.rs:138-165 | every encoded record passes both read limits and reads back unchanged |
| ConnectionStore.Store.Load | crates/firma-connection-store/src/store.rs:135-152 | returns what is saved; a committed record never misses its secret |
| ConnectionStore.Store.CurrentNativeId | crates/firma-connection-store/src/store.rs:154-174 | names the previous keyring entry exactly when the file says so |
| ConnectionStore.Store.Prepare | crates/firma-connection-store/src/store.rs:214-268 | the new record's secret is in place before the record is written; plaintext only where allowed; the saved connection is unchanged |
| ConnectionStore.Store.Retire | crates/firma-connection-store/src/store.rs:270-277 | retiring the previous secret never touches the saved connection and says when something may be left |
| ConnectionStore.Store.Replace | crates/firma-connection-store/src/store.rs:176-196 | success saves the new connection, an error leaves the old one, a crash leaves one of the two |
| ConnectionStore.Store.Remove | crates/firma-connection-store/src/store.rs:198-212 | success leaves nothing saved, an error leaves everything, a crash leaves one of the two |
| ConnectionStore.Store.Run | crates/firma-connection-store/src/store.rs:135-238 | over any sequence of loads, replaces and removes with any faults and crashes, every answer explains what is saved and the record always finds its secret |
| ConnectionStore.LastSuccessIsSaved | crates/firma-connection-store/src/store.rs:135-238 | without crashes, what is saved is what the last successful change saved |
| NativeSession.EventAt | crates/firma-login/src/session.rs:110-287 | a well-formed history was well formed at every event |
| NativeSession.NewKeyMeansResolved | crates/firma-login/src/session.rs:110-177 | when a new idempotency key is drawn, each earlier key led to a saved successor or only ever failed to connect |
| NativeSession.RetriesRepeat | crates/firma-login/src/session.rs:258-287 | while an outcome is unknown, every later request repeats the same credential and key |
| NativeSession.SavedUnderItsLock | crates/firma-login/src/session.rs:211-256 | a successor is saved under the very lock that loaded its predecessor, after the server granted it |
| NativeSession.OneKeyPerCredential | crates/firma-login/src/session.rs:110-287 | a credential that may have reached the server is only ever sent again with the same key |
| NativeSession.KeyDrawnOnce | crates/firma-login/src/session.rs:180-209 | no idempotency key is drawn twice |
| NativeSession.EveryLaterCallFails | crates/firma-login/src/session.rs:110-177 | in every recorded run of calls, once one ended in a final refusal, an outlived recovery window or a failed or cancelled save, every later one answers that login is required and leaves history and store as they were |
| NativeSession.LoginRequiredBecause | crates/firma-login/src/session.rs:110-177 | a session that requires login got there by a failed call that used its credential up or came after the recovery window |
| NativeSession.Session.PrepareRefresh | crates/firma-login/src/session.rs:180-209 | a pending refresh holds the lock, the credential loaded under it and a new key; failing leaves none pending |
| NativeSession.Session.Send | crates/firma-login/src/session.rs:262-277 | one attempt sends the pending credential and key and nothing else |
| NativeSession.Session.RefreshWithRetry | crates/firma-login/src/session.rs:258-287 | one to three attempts, cancelled anywhere, all with the pending credential and key; each but the last failed retryably, and giving up on a retryable failure takes all three |
| NativeSession.Session.CompleteRefresh | crates/firma-login/src/session.rs:211-256 | success saves the granted successor under the lock of its predecessor; an error saves nothing or is a storage error |
| NativeSession.Session.AccessToken | crates/firma-login/src/session.rs:110-177 | access is handed out only for a saved successor or while still fresh; past the recovery window of an unknown outcome nothing is loaded, sent or saved; login becomes required exactly after the credential was used up without access being handed out, or past that window; once required a call changes nothing; an unknown outcome stays pending until it is resolved or login is required |
| NativeSession.Session.Run | crates/firma-login/src/session.rs:99-177 | any sequence of calls, each cancelled anywhere, gives such a recorded run with a well-formed history, so after a call that ended the session the history no longer grows |
| NativeSession.Session.ForgetAccess | crates/firma-login/src/session.rs:99-101 | only the cached access goes |
| SessionMachine.MoveOk | crates/firma-login/src/session.rs:110-287 | every step of any number of sessions, logins, logouts and crashes over one locked store keeps the invariant |
| SessionMachine.RunKeepsInv | crates/firma-login/src/session.rs:110-287 | so does every run, and no request and no abandoned credential is forgotten |
| SessionMachine.UsedUpStaysAway | crates/firma-login/src/session.rs:110-177 | a credential a session used up is not in the store any more once that session goes on, whatever the others do |
| SessionMachine.OneKeyForAll | crates/firma-login/src/session.rs:110-287 | across all sessions, every request of a credential that no session abandoned carried the same key |
| SessionMachine.LoadedBeforeIff | crates/firma-login/src/session.rs:180-209 | a credential about to be loaded was sent before exactly when a session abandoned it: crashed, was refused, outlived its window or could not save |
| SessionMachine.SecondKey | crates/firma-login/src/session.rs:110-177 | an abandoned credential still in the store can be sent again under another key |
| SessionMachine.CrashAbandons | crates/firma-login/src/session.rs:103-109 | a process that ends while waiting for an answer leaves its credential abandoned and unlocked in the store |
| SessionMachine.LockExcludes | crates/firma-login/src/session.rs:180-209 | one session at a time has a credential loaded |
| RevocationFormat.ParsedReasonOk | crates/firma-authority/src/revocation.rs:106-131 | every parsed reason is non-empty, on one line and without trailing whitespace |
| RevocationFormat.ParseFormatted | crates/firma-authority/src/revocation.rs:106-131 | a written entry parses back to itself |
| RevocationFormat.SplitJoined | crates/firma-authority/src/revocation.rs:312-346 | a file written from lines splits back into those lines |
| RevocationFormat.ClampTtl | crates/firma-authority/src/service.rs:617-622 | the granted lifetime is the requested one when positive and within the maximum, else the maximum |
| RevocationFormat.EntryOutlivesToken | crates/firma-authority/src/revocation.rs:138-140 | an entry stays unexpired while any clock within the margin may still accept a token it revokes, and no instant longer than that needs |
| RevocationFormat.MergeMeans | crates/firma-authority/src/revocation.rs:152-183 | a load keeps what is held, adds exactly the tokens with an unexpired line, each with the entry of the first such line |
| RevocationStore.MergeKeepsOk | crates/firma-authority/src/revocation.rs:152-183 | loading keeps every entry in writable form |
| RevocationStore.CompactThenLoad | crates/firma-authority/src/revocation.rs:312-346 | loading a compacted file at the same instant gives exactly the unexpired entries, in whatever order they were written |
| RevocationStore.CompactionForgetsUnloaded | crates/firma-authority/src/revocation.rs:312-346 | a token not in memory is not in the compacted file |
| RevocationStore.RevokeThenLoad | crates/firma-authority/src/revocation.rs:196-221 | a revocation appended after a finished line is loaded while it is fresh, whatever its reason contains |
| RevocationStore.RevokeLoadsIff | crates/firma-authority/src/revocation.rs:196-221 | appended after any unfinished last line, with any reason, the token is held after the next load exactly when it was held, an earlier line or a further line of the reason revokes it, or the glued line still names it in time: behind a blank line, or behind one whose own first field is the token, dated by the glued second field |
| RevocationStore.GluedParses | crates/firma-authority/src/revocation.rs:106-131 | which token and timestamp the glued line is read with |
| RevocationStore.RetryIsLost | crates/firma-authority/src/revocation.rs:196-221 | a revocation cut off anywhere inside its token is lost when tried again, although the second write succeeds |
| RevocationStore.RetryIsDatedByFirst | crates/firma-authority/src/revocation.rs:196-221 | cut off behind its timestamp, it is loaded exactly while the first attempt's timestamp is unexpired |
| RevocationStore.LostRetry | crates/firma-authority/src/revocation.rs:196-221 | a concrete sequence of a failed and a successful revoke after which the token is not held |
| RevocationStore.Store.constructor | crates/firma-authority/src/revocation.rs:77-99 | a new store holds exactly the merged file |
| RevocationStore.Store.MergeContent | crates/firma-authority/src/revocation.rs:152-183 | the load loop computes the merge and reports exactly the new entries |
| RevocationStore.Store.ReloadFromFile | crates/firma-authority/src/revocation.rs:256-296 | a reload merges the file, a missing file adds nothing, an unreadable one changes nothing; no new entries means no change |
| RevocationStore.Store.RevokeWithRoom | crates/firma-authority/src/revocation.rs:196-221 | what a revoke leaves in the file for every amount the disk takes |
| RevocationStore.Store.Revoke | crates/firma-authority/src/revocation.rs:196-221 | appends the line unless the token is held; a failed write leaves at most part of the line |
| RevocationStore.Store.CurrentSet | crates/firma-authority/src/revocation.rs:237-250 | every unexpired entry once, oldest first |
| RevocationStore.Store.CompactFile | crates/firma-authority/src/revocation.rs:312-346 | success leaves a file that loads to the unexpired entries; a failure leaves the old file or the first part of the new one |
| RevocationDelivery.ParsedEarlier | crates/firma-authority/src/revocation.rs:106-140 | a line that is fresh now parsed to a fresh entry for the same token at every earlier instant |
| RevocationDelivery.MergedCovers | crates/firma-authority/src/revocation.rs:256-296 | after a merge, memory holds every fresh token of the lines read |
| RevocationDelivery.MergedLoads | crates/firma-authority/src/revocation.rs:256-296 | memory holds exactly the tokens that some load found in its lines |
| RevocationDelivery.InitOk | crates/firma-authority/src/revocation.rs:77-99 | memory just loaded from the file satisfies the invariant |
| RevocationDelivery.MoveOk | crates/firma-authority/src/revocation.rs:409-430 | clock, file, reload and stream moves keep the invariant |
| RevocationDelivery.RunKeepsInv | crates/firma-authority/src/service.rs:247-275 | so does every run |
| RevocationDelivery.QuiescentStreamsAreCurrent | crates/firma-authority/src/service.rs:247-275 | with no signal pending and the reload idle, the last set each stream sent holds every unexpired entry in memory, even after lagged or coalesced signals |
| RevocationDelivery.QuiescentMemoryIsCurrent | crates/firma-authority/src/revocation.rs:357-431 | and memory holds every fresh token of the file exactly when the last read succeeded and no change fell between the first load and the watch without a later read, or some earlier load had found them all |
| RevocationDelivery.MissedChange | crates/firma-authority/src/revocation.rs:77-99 | a revocation written in that gap stays out of memory with every queue empty |
| RevocationDelivery.FailedRead | crates/firma-authority/src/revocation.rs:409-430 | a revocation whose only reload could not read the file stays out of memory with every queue empty |

## Left out

- Cedar policies, PASETO signing, TLS, X.509, gRPC, HTTP clients, the browser callback and the command line: foreign code or plumbing.
- Managed-rule and authored-host validation and mapping specificity (`mapping.rs:23-140`, `262-280`): single-branch checks.
- File permissions, symlinks, directory flushing, power loss and process-id reuse: the code puts the last two outside its guarantees; the others are part of a step that may fail.
- Component readiness probing, command building and log wiring: a component start may fail between any two steps instead.
- The removal of a half-published endpoint by the component publication guard, and the destructors that end a startup or a stack early: the same files are removed by the rollback's cleanup, and an early end is a crash.
- Startup, stop and launch as wholes in one method each: the state machine orders their parts, and `StackDirectory` has the loops over files; the polling loops of the handoff are single moves that become possible when the awaited file appears or goes.
- While a method of `StackDirectory` runs, only deaths interleave; markers removed by launchers in between are covered by the machine, not by the methods' exact file lists.
- Several topologies in one directory: every process of a model uses the same component list.
- JSON, UUID, TypeID and RFC 3339 codecs: `CodecOk` takes print and parse as inverse and printed values as free of whitespace and line breaks; `Strict` takes token ids as having one spelling.
- The order of compacted lines: proved for every order instead of the sorted one.
- Store locking and the keyring's own behaviour: a keyring call may fail with or without effect; ids are not reused; the first state of a store is taken to be consistent.
- The contents of access tokens, workspace checks and network timeouts: answers are classified into the outcomes the session distinguishes, and a cancellation may fall on every await.
- Servers that grant a credential already used: a granted successor is new.
- HttpForwarder.Forwarder.ForwardRequests: whether a head somewhat longer than 128 KiB meets the limit depends on where reads fall, so two runs may differ there.
- HttpForwarder.OutputIsStable: needs attribution names that are tokens other than transfer-encoding and content-length, and values without line ends, as the callers supply.
- StackStop.Teardown.Stop: the bound is on the sleep asked for; a sleep is taken to last at least as long as asked, and the clock may move on between any two steps.
