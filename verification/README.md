# Proofs about gklog

A Dafny model of the stateful parts of gklog and proofs of what they promise.
`dafny verify dfyconfig.toml` checks all of it.

## What is modelled

**The locked, rotating writer.** Any number of processes, each with any number of
goroutines, append records to one log path that is rotated by renaming.
`Storage` is the part of a file system that matters: a path, archives in rotation
order, inodes with recyclable numbers, and writes at an explicit offset (a stale
descriptor overwrites, or leaves a hole, and may hit an archive).
`CriticalSection` lists the atomic actions of one `Write` while it holds both
locks, with every I/O outcome as a parameter: the descriptor check (`refresh`),
lumberjack's keep-open / reopen / rotate decision, chunks landing one by one,
clearing `lastFile`, and `remember`. `LockProtocol` interleaves these over all
goroutines and instances with mutex and file-lock steps, `Close`, and lock-holding
mutators that may rename, trim, replace or remove the file and set any times. A writer
may wrap a logger that is open already. The invariant is proved for every step, and
`WriterRuns` draws the conclusions for whole runs.
`WriterAnswers` says what every call answers, and how soon. `ReopenRefinement` shows that
skipping the reopen is never observable.
`LockedWriter` is the sequential code as classes; each method is proved to follow
a path of the same actions, and such a path to be steps of the protocol.
`FailingRuns` holds two runs in which something fails that almost always holds.

Lumberjack is the component the source describes: an optional descriptor with its
own offset and a cached size; `Close` drops the descriptor; an open descriptor
rotates above the limit; a reopen rotates above the limit and may do so at equality.
Closing may fail, and may then keep or drop the descriptor; every other operation may fail too.

**Handlers.** `Slog` says what a chain of `WithAttrs`/`WithGroup` calls and a record
mean: a list of values, each under the groups open when it was added.
`TextHandler` renders exactly that, and its lists are arrays, so that clones provably
share none. `LineText` reads the line back. `TeeHandler` delivers over arbitrary trees.
`Router` replays derivations groups first, and the replay law says exactly when
that shows; `RouterDemux` interleaves `Handle` calls of many goroutines over
the shared cache.

**Email cooldown.** `EmailLimiter` is the shared map under its mutex, with the
saturating subtraction of times, and the optimality of its greedy choice.

**Correlation.** `Strings` and `Traceparent` are the parser and printer of W3C Trace
Context, section 3.2.2. `Carriers` moves a context through HTTP headers or gRPC
metadata and over chains of spans and hops. `IdentityAttributes` is the list-backed
ordered map; `Slices` is the built-in append with its sharing of arrays. `Injection` is
the handler that adds the identifiers to records.

## Findings

Each is stated by a member with the exact condition; where something fails, another
has an input or a run that shows it.

- `lastFile` is stale while lumberjack writes, exactly from the first byte, or the move
  to another file, until the assignment after `wc.Write` (handlers.go:411-414):
  `WriterRuns.DescriptorCoherence`, and the run `FailingRuns.SnapshotGoesStale`.
- The result of `lock.Unlock` is ignored (handlers.go:405). The file lock is held with
  nobody inside exactly after an unlock that failed, until the same instance locks
  again (`WriterRuns.LeakedExactlyByFailedUnlock`). Safety holds all the same; some
  call can go on exactly if some instance with a pending call is not blocked
  (`WriterRuns.SomeCallGoesOn`). In the run `FailingRuns.FailedUnlockStopsOthers` none can.
- Router replay is not the slog order: attributes given before a named group end up
  inside it (`Router.ReplayLaw`, `Router.ReplayShows`).
- HTTP may fill a blank request id from its caller's fallback and gRPC has no
  fallback, which is the only way in which the two carriers differ
  (`Carriers.CarriersAgree`, `Carriers.FallbackShows`).
- A hop reports the sender's parent only if that is absent or a well-formed span id
  (`Carriers.ParentIfThereIsOne`). `Context.Valid` does not look at the parent, and a
  malformed one is dropped for the sender's span (`Carriers.MalformedParentIsDropped`).
- Identifiers are added to the record, so after `WithGroup` they are rendered under
  the open groups (`Injection.IdentifiersAreRenderedLast`).
- A second injecting handler around the first changes the deliveries unless it has no
  diagnostics of its own and the attributes given to the first beforehand hold back no
  identifier (`Injection.WrappingTwice`). `Injection.SecondWrapperShows` has one held back.
- `AppendAttrs` appends to its caller's own slice (correlation/correlation.go:187-193).
  What the slice shows never changes, but with spare capacity two results share cells:
  the first survives the second call exactly if it did not fit or the second wrote the
  same (`IdentityAttributes.AppendTwice`, `IdentityAttributes.SecondCallOverwrites`).
- With the smallest Duration as cooldown nothing is ever suppressed, since a saturated
  difference is never below it (`EmailLimiter.AttemptsAreSpaced`, `EmailLimiter.SmallestCooldownIsMissed`).

## Model

| member | source | states |
|---|---|---|
| `Storage.PutAtEndAppends` | locked_rotation.go:9-10 | a write at the true end of the active file extends that file and the total log by exactly the chunk |
| `Storage.RenameKeepsLog` | handlers.go:367-373 | rotation moves the active bytes behind the archives and changes no log byte |
| `Storage.WrittenCells` | locked_rotation.go:9-10 | a write at an offset cell by cell: the chunk, what was there, and zero bytes in a hole |
| `Storage.StatSays` | locked_rotation.go:18-25 | a stat tells file, size and time of what is at the path, or that nothing is |
| `CriticalSection.ActionKeepsInv` | locked_rotation.go:17-43 | every action under the locks keeps the caches coherent and grows the log by exactly the record bytes it puts down, failing actions included |
| `CriticalSection.OpenNewKeepsInv` | locked_rotation.go:28-29 | starting a new file leaves the descriptor at its end and the log unchanged |
| `CriticalSection.LandKeepsInv` | handlers.go:411-411 | a chunk lands at the end of the file now at the path |
| `CriticalSection.TrustsExactly` | locked_rotation.go:22-32 | the descriptor is trusted iff file, size and time are those of the snapshot; else the logger is closed |
| `LockProtocol.InitInv` | handlers.go:374-390 | new writers around any loggers, open or not, on any file system satisfy the invariant |
| `LockProtocol.AtMostOneInside` | handlers.go:399-405 | mutex and file lock together admit one goroutine, although a held `Flock` object can be locked again by its own instance |
| `LockProtocol.InsideKeepsInv` | handlers.go:406-423 | an action of one goroutine disturbs no other goroutine or instance |
| `LockProtocol.TakeLockKeepsInv` | handlers.go:399-404 | acquiring the file lock re-establishes what the critical section relies on |
| `LockProtocol.DropLockKeepsInv` | handlers.go:401-405 | giving the file lock back while the mutex is still held keeps the invariant, and so does failing to give it back |
| `LockProtocol.OutsideKeepsInv` | handlers.go:426-436 | `Close` under the mutex alone, waiting, and failing to lock keep the invariant while others write |
| `LockProtocol.MutatorKeepsInv` | handlers.go:372-373 | any change by a lock holder keeps it, since open descriptors pin their inodes |
| `LockProtocol.ReclaimKeepsInv` | locked_rotation.go:22-27 | recycled inode numbers cannot fool the identity check |
| `LockProtocol.StepKeepsInv` | handlers.go:399-436 | the invariant is inductive over every step of every writer and of the environment |
| `WriterRuns.RunKeepsInv` | handlers.go:392-436 | it holds in every reachable state |
| `WriterRuns.MutualExclusion` | handlers.go:399-405 | in every run at most one goroutine of all instances is between lock and unlock, and none while a mutator holds the lock |
| `WriterRuns.HistoryIsLockOrder` | handlers.go:402-405 | the history lists exactly the Writes that took the lock, in lock order |
| `WriterRuns.Conservation` | handlers.go:399-424 | archives followed by the active file are at every moment what the history of Writes and mutations adds up to |
| `WriterRuns.ConservationOfWrites` | handlers.go:367-371 | without mutations: the initial log followed by exactly the prefixes put down, nothing lost, doubled, overwritten or left as a hole, through all errors |
| `WriterRuns.HistoryIsFinal` | handlers.go:367-371 | the entry of a Write that released the lock never changes again, so records stay contiguous |
| `WriterRuns.ReturnedCount` | handlers.go:411-423 | at the unlock the call's count is that of the history's last entry, and success means the whole record |
| `WriterAnswers.WriteAnswers` | handlers.go:399-424 | what every Write of every run answers: success iff none of its own steps failed, the unlock aside, and then for all of p with a fresh `lastFile`; a refused lock answers zero and never held it; else the log grew under the lock by exactly the n bytes answered, and the history by that entry |
| `WriterAnswers.CloseAnswers` | handlers.go:426-436 | what every Close answers is the outcome of closing the logger, which touches no file; success means no descriptor |
| `WriterAnswers.EveryCallBegan` | handlers.go:399-436 | every position inside a call, so every answer, belongs to a Write or Close begun before and not returned since |
| `WriterAnswers.CallsEnd` | handlers.go:399-436 | a Write of p takes at most \|p\| + 10 further steps of its own, a Close three |
| `CriticalSection.DisagreesExactlyWhenStale` | handlers.go:411-414 | under the locks snapshot and descriptor disagree exactly between the first byte, or the move to another file, and the clearing of `lastFile` |
| `WriterRuns.CoherentUnlessStale` | locked_rotation.go:22-33 | the same for every instance of every state that satisfies the invariant |
| `WriterRuns.DescriptorCoherence` | locked_rotation.go:22-33 | in every reachable state: `lastFile` unset, no descriptor, or a descriptor on that file at the recorded size, iff the instance is not in that window |
| `FailingRuns.SnapshotGoesStale` | handlers.go:411-414 | a run of two Writes that ends in the window with a stale `lastFile` |
| `WriterRuns.NextWriteLandsAtEnd` | locked_rotation.go:22-34 | after every successful refresh the descriptor in use stands at the end of the file now at the path |
| `WriterRuns.SizeBound` | handlers.go:341-365 | a successful Write of a record within the limit leaves the active file within the limit, whatever others did in between |
| `WriterRuns.InsideCanGoOn` | handlers.go:406-423 | no position under the locks is stuck |
| `WriterRuns.InstanceGoesOn` | handlers.go:399-436 | an instance with a pending call that is not blocked has a step of a pending call that need not fail |
| `WriterRuns.WaitsExactlyWhenBlocked` | handlers.go:399-404 | it has one iff it is not the case that its mutex owner waits for a file lock held elsewhere |
| `WriterRuns.NoDeadlock` | handlers.go:399-436 | unless the file lock is held from outside, some instance with a pending call goes on |
| `WriterRuns.StepLeaks` | handlers.go:402-405 | what each step does to a leaked lock: a failed unlock leaks it, locking again ends that, nothing else changes it |
| `WriterRuns.LeakedExactlyByFailedUnlock` | handlers.go:402-405 | in every run the file lock is held with nobody inside exactly after a failed unlock, by that instance and until it locks again |
| `WriterRuns.SomeCallGoesOn` | handlers.go:399-436 | some pending call has a step that need not fail iff some instance with a pending call is not blocked |
| `FailingRuns.FailedUnlockStopsOthers` | handlers.go:405-405 | a run in which a failed unlock leaves another instance waiting with nobody inside and no call able to go on |
| `WriterRuns.Progress` | handlers.go:399-436 | in every reachable state with a pending call: the iff above; a mutator can release the lock; after a failed unlock the calls of the leaking instance go on; otherwise some call does |
| `WriterRuns.CallsAreBounded` | handlers.go:399-436 | own steps taken plus the remaining rank never grow, on all early returns |
| `ReopenRefinement.ActionRefines` | locked_rotation.go:22-34 | trusting the snapshot acts on the disk as closing and reopening would |
| `ReopenRefinement.StepRefines` | handlers.go:399-436 | one step of the real writer is one step of the always-reopening writer |
| `ReopenRefinement.FastRefinesReopen` | locked_rotation.go:22-29 | every run has a run that never trusts and never keeps a descriptor, with the same files, positions, answers, locks and history at every moment |
| `ReopenRefinement.RotationPoint` | locked_rotation.go:28-29 | a new file is started above the limit always, below never, at equality only after a reopen |
| `ReopenRefinement.SameHistorySameLog` | handlers.go:406-423 | equal histories give equal total log bytes, whatever the limits and rotation points |
| `LockedWriter.PathAppends` | handlers.go:406-423 | any path through one Write keeps the local invariant and appends exactly what it put down |
| `LockedWriter.PathIsSteps` | handlers.go:399-424 | any path through the code is a sequence of protocol steps of its goroutine |
| `LockedWriter.FileSystem.Stat` | locked_rotation.go:18-21 | success, absence and other errors are told apart |
| `LockedWriter.Logger.Close` | locked_rotation.go:28-32 | success means the descriptor is dropped |
| `LockedWriter.Logger.StartFile` | locked_rotation.go:28-29 | performs the rotate action, or fails with or without the rename done |
| `LockedWriter.Logger.EnsureOpen` | locked_rotation.go:9-10 | keeps, reopens or rotates exactly where the protocol allows it |
| `LockedWriter.Logger.Write` | handlers.go:411-411 | chunks, errors between them, and the count are a path of the protocol |
| `LockedWriter.LockedRotation.constructor` | handlers.go:386-388 | a new cache trusts nothing |
| `LockedWriter.LockedRotation.Refresh` | locked_rotation.go:17-35 | a path of the protocol; keeps descriptor and snapshot iff the snapshot matches what is at the path, else drops both; fails iff an operation failed |
| `LockedWriter.LockedRotation.TakeSnapshot` | locked_rotation.go:37-43 | records what is at the path, or reports and records nothing |
| `LockedWriter.LockedWriteCloser.constructor` | handlers.go:382-389 | a writer around a logger in any coherent state is coherent |
| `LockedWriter.LockedWriteCloser.WriteLocked` | handlers.go:406-423 | the code between the locks is a path from lock to unlock |
| `LockedWriter.LockedWriteCloser.Write` | handlers.go:399-424 | appends exactly p[..n] on every path and keeps the caches coherent; succeeds iff no operation failed, then with all of p, the size bound and a fresh snapshot; without the lock nothing changes |
| `LockedWriter.LockedWriteCloser.Close` | handlers.go:426-436 | succeeds iff closing did; keeps the caches coherent although `lastFile` stays set |
| `Slog.AllLeavesConcat` | handlers.go:273-277 | attribute lists mean what their parts mean, in order |
| `Slog.DropIsInvisible` | handlers.go:308-311 | the empty groups that `slog.GroupValue` drops render to nothing |
| `Slog.DottedIsJoin` | handlers.go:316-321 | joining non-empty group names equals extending the prefix one name at a time |
| `TextHandler.WriteAttrs` | handlers.go:273-277 | appends the rendering of all leaves under the path that the prefix stands for |
| `TextHandler.WriteAttr` | handlers.go:279-300 | the same for one attribute, arbitrarily nested; the zero attribute is silent |
| `LineText.OneLeaf` | handlers.go:292-299 | a value is printed as a space, its names joined with dots, '=' and its text |
| `LineText.JoinSplits` | handlers.go:316-321 | a joined key splits back into its names |
| `LineText.LineReadsBack` | handlers.go:273-300 | every value is read back from its piece of the line: names up to the first '=', then the text |
| `LineText.PlainLeaves` | handlers.go:273-300 | plain attributes stand for one value each, in order, under the open groups |
| `LineText.OtherLeaves` | handlers.go:280-291 | a group stands for its members under its name, nil for "<nil>", the zero attribute for nothing |
| `LineText.AttrsLast` | handlers.go:243-255 | a last WithAttrs is as good as attributes at the start of the record |
| `LineText.GroupFirst` | handlers.go:259-271 | a first WithGroup opens a group for everything after it, an empty name opens none |
| `TextHandler.WrapGroups` | handlers.go:302-314 | the wrapped form rendered from the top is the plain form rendered under the groups |
| `TextHandler.GroupPrefix` | handlers.go:316-321 | the prefix string is the dotted path |
| `TextHandler.TextHandler.Handle` | handlers.go:216-239 | exactly one write, holding the whole line |
| `TextHandler.TextHandler.WithAttrs` | handlers.go:243-255 | a clone with lists of its own, holding the parent's attributes and the wrapped new ones; parent and argument untouched; the receiver itself if there is nothing to add |
| `TextHandler.TextHandler.WithGroup` | handlers.go:259-271 | the same with one more group |
| `TextHandler.SiblingsStayApart` | handlers.go:243-255 | two clones from one reused argument slice keep what each was given, and the parent renders as before |
| `TextHandler.WrappingIsPrefixing` | handlers.go:302-314 | wrapping then rendering equals rendering with the joined prefix |
| `TextHandler.DerivedMeaning` | handlers.go:243-271 | eager wrapping over any chain means the chain |
| `TextHandler.LineMeaning` | handlers.go:216-271 | for every chain and record the line lists all attributes in order, each under the groups open when it was added |
| `TextHandler.FreshLineMeaning` | handlers.go:187-209 | the same from a new handler |
| `LineText.LineLayout` | handlers.go:216-239 | time, label if any, level and message with one space between, the attributes, the end of the line |
| `LineText.LineExample` | handlers.go:187-193 | one line in full |
| `TeeHandler.Enabled` | handlers.go:119-126 | true iff some leaf of the tree would get the record |
| `TeeHandler.Handle` | handlers.go:131-145 | one copy to exactly the enabled leaves, left to right; nested errors flatten to their failures in order; nil iff none failed |
| `TeeHandler.Offer` | handlers.go:133-140 | one child in the loop: skipped when disabled, and its failure stops nobody |
| `TeeHandler.DeriveTee` | handlers.go:167-183 | builds the derived tree child by child |
| `TeeHandler.LeafGets` | handlers.go:131-145 | as many deliveries as enabled leaves, each the record itself, the i-th leaf's after those of the enabled leaves before it |
| `TeeHandler.SinksInOrder` | handlers.go:131-140 | the leaves of a tee are its children's, in their order |
| `TeeHandler.FailureOf` | handlers.go:137-144 | failures follow the leaves' order, each with its cause, success with none |
| `TeeHandler.FlattensInOrder` | handlers.go:147-164 | nested errors flatten from left to right |
| `TeeHandler.ChainReachesEveryLeaf` | handlers.go:167-183 | a chain on a tree is that chain on every leaf, in place |
| `Router.RouterState.WithAttrs` | router.go:124-128 | a clone with an attribute list of its own |
| `Router.RouterState.WithGroup` | router.go:131-138 | a clone with a group list of its own, or the receiver for an empty name |
| `Router.RouterState.ApplyState` | router.go:140-151 | the loop derives the sink by all groups and then by one WithAttrs, changing neither |
| `Router.DerivedState` | router.go:124-138 | a clone's state is the joined attributes and the named groups of its chain |
| `Router.ReplayIsGroupsFirst` | router.go:140-151 | what a sink gets means all groups first, then all WithAttrs calls one by one |
| `Router.DirectAgainstReplay` | router.go:124-151 | against the direct chain: equal, or strictly longer where a visible attribute preceded a named group |
| `Router.ReplayLaw` | router.go:123-151 | the router's line equals the directly derived sink's line iff no visible attribute was added before a named group |
| `Router.ReplayShows` | router.go:123-151 | an attribute and then a group: the lines differ |
| `Router.ReplayExample` | router.go:140-151 | what the sink is told for that input: the group first, with both values in it |
| `Router.MisplacedMeans` | router.go:123-151 | the replay's exception is a visible attribute at some position and a named group at a later one |
| `RouterDemux.MessageConcern` | router.go:164-167 | segment.rest goes to segment; no dot or a leading dot goes to the fallback |
| `RouterDemux.AttributeConcern` | router.go:158-163 | by attribute: the first attribute with the key decides, the router's own before the record's, unless its text is empty; else the fallback |
| `RouterDemux.AttrConcern` | router.go:170-187 | the first attribute with the key, the router's own before the record's |
| `RouterDemux.ConcernOf` | router.go:157-168 | computes the concern, blank values falling back |
| `RouterDemux.RunKeepsCache` | router.go:192-208 | in every interleaving the cache holds exactly the concerns computed, and pending calls hold its handlers |
| `RouterDemux.CacheIsWriteOnce` | router.go:192-208 | over all clones a concern's path is computed at most once and its handler, or nil, never changes |
| `RouterDemux.StepDelivers` | router.go:113-121 | what one step adds to one file and to the combined sink |
| `RouterDemux.RunDelivers` | router.go:113-121 | what each step of a run delivers: to the combined sink if enabled for the level, to the concern's file if it has one and the level reaches its threshold |
| `RouterDemux.Demultiplexing` | router.go:113-121 | each file holds exactly the deliveries routed to its path, the combined sink exactly the records enabled for it, in order |
| `RouterDemux.ConcernFile` | router.go:113-121 | with an injective path function a file is the subsequence of records that select its concern and clear its level |
| `RouterDemux.EachCallDeliversOnce` | router.go:113-121 | in every run each Handle call delivers its one record exactly once to the combined sink, if enabled, and once done exactly once to its concern's file, if due, and to no other |
| `RouterDemux.Shared.ChildFor` | router.go:192-208 | returns and remembers; asks the callbacks only on a miss; an empty path is remembered as nil |
| `RouterDemux.Shared.Handle` | router.go:113-121 | the code is the three steps in their order |
| `EmailLimiter.SaturationIsHarmless` | emaillog/handler.go:85-85 | the saturating difference answers the cooldown test as the exact one would, with one cooldown excepted |
| `EmailLimiter.Handler.Handle` | emaillog/handler.go:77-122 | check and set in one step; a failed send still counts |
| `EmailLimiter.Handler.WithAttrs` | emaillog/handler.go:148-152 | a clone shares the limiter and has an attribute list of its own |
| `EmailLimiter.Handler.WithGroup` | emaillog/handler.go:157-169 | a clone shares the limiter; group names are joined by dots |
| `EmailLimiter.StateIsLastAttempt` | emaillog/handler.go:22-28 | the map holds exactly the last attempt of each message |
| `EmailLimiter.DecisionRule` | emaillog/handler.go:77-90 | nothing below the threshold; suppressed iff the last attempt for the message is less than one cooldown ago; else an attempt |
| `EmailLimiter.OtherMessages` | emaillog/handler.go:82-89 | a call for another message makes no attempt for this one |
| `EmailLimiter.AttemptsAreGreedy` | emaillog/handler.go:77-90 | message by message the handler takes a request whenever one cooldown has passed since the last taken; all requests for the smallest Duration |
| `EmailLimiter.AttemptsAreSpaced` | emaillog/handler.go:82-90 | consecutive attempts are one cooldown apart over any interleaving and any clock, iff the cooldown is not the smallest Duration or the requests are spaced anyway |
| `EmailLimiter.SmallestCooldownIsMissed` | emaillog/handler.go:85-88 | two requests that show the exception |
| `EmailLimiter.RateBound` | emaillog/handler.go:1-4 | a window of length T holds at most T/cooldown + 1 attempts |
| `EmailLimiter.AttemptsAreMaximal` | emaillog/handler.go:77-90 | no spaced subset of the requests is larger, for a non-decreasing clock |
| `EmailLimiter.AttemptsAreAChoice` | emaillog/handler.go:77-90 | the attempts are such a subset |
| `EmailLimiter.SuppressedIsRecent` | emaillog/handler.go:85-88 | a suppressed record lies less than one cooldown after an attempt |
| `Strings.TrimSpaceTrims` | correlation/correlation.go:372-372 | trimming leaves no space at either end, and leaves a trimmed string alone |
| `Strings.TrimSpaceCuts` | correlation/correlation.go:372-372 | what is cut off at either end is white space |
| `Strings.SplitIsFaithful` | correlation/correlation.go:372-372 | joining the parts gives the string back, and no part holds the separator |
| `Traceparent.ValidHex` | correlation/correlation.go:450-461 | true iff lowercase hex of the length |
| `Traceparent.ValidIdsAre` | correlation/correlation.go:442-461 | valid ids are 32 or 16 of the digits 0-9 and a-f, not all zero |
| `Traceparent.ParseAcceptsExactly` | correlation/correlation.go:371-383 | accepts exactly the trimmed forms 00-t-s-f with valid t and s and dash-free f, and returns t and s |
| `Traceparent.PrintParses` | correlation/correlation.go:144-151 | a valid context's traceparent parses to its ids; an invalid context prints nothing |
| `Traceparent.PrintedForm` | correlation/correlation.go:146-151 | version 00, the two ids at their places, flags 01 |
| `Traceparent.AcceptedReprints` | correlation/correlation.go:144-151 | anything accepted can be printed and parsed to the same ids |
| `Carriers.SetHTTPHeaders` | correlation/correlation.go:304-323 | non-empty fields overwrite, empty ones leave the header as it was |
| `Carriers.SetMetadata` | correlation/correlation.go:434-440 | stores the trimmed value or nothing |
| `Carriers.Metadata` | correlation/correlation.go:356-366 | holds the trimmed fields and nothing for blank ones |
| `Carriers.FieldsAre` | correlation/correlation.go:304-323 | the five values sent, the traceparent only for valid ids |
| `Carriers.FromHTTPHeader` | correlation/correlation.go:279-300 | the step-by-step overrides amount to one precedence rule |
| `Carriers.FromMetadata` | correlation/correlation.go:403-421 | the same rule, without a fallback request id |
| `Carriers.TraceparentAlone` | correlation/correlation.go:284-288 | a traceparent without explicit ids: its trace, its span as parent unless an explicit one is valid, a span of its own |
| `Carriers.ExplicitIdsWin` | correlation/correlation.go:289-298 | explicit valid ids win, each for its own field |
| `Carriers.NothingReceived` | correlation/correlation.go:279-300 | what is neither explicit nor in a traceparent is fresh, the parent empty |
| `Carriers.RequestIdRule` | correlation/correlation.go:279-283 | the carried request id unless blank, else the caller's, trimmed |
| `Carriers.RoundTrips` | correlation/correlation.go:279-366 | sending and receiving through both carriers gives equal contexts, up to the request id's fallback |
| `Carriers.CarriersAgree` | correlation/correlation.go:279-421 | for every sender, valid or not, equal contexts iff the request id is not blank or the fallback is |
| `Carriers.FallbackShows` | correlation/correlation.go:279-283 | a blank request id and a fallback: the carriers differ |
| `Carriers.HopFromValid` | correlation/correlation.go:279-300 | the trace survives a hop; the receiver is valid; its parent is the sender's parent if valid, else the sender's span |
| `Carriers.ChildOfAny` | correlation/correlation.go:119-137 | from any context, field by field: trace kept or fresh, a fresh span, the old span as parent, attachments kept; valid iff there was no trace or a well-formed one |
| `Carriers.EnsureSettles` | correlation/correlation.go:96-110 | always yields a trace, changes an existing context at most by an empty request id, and returns it unchanged iff there is nothing to fill or to fill it with |
| `Carriers.HopKeepsTrace` | correlation/correlation.go:279-300 | a hop from any valid context, whatever its parent, keeps the trace and reports the inherited parent |
| `Carriers.MoveKeepsTrace` | correlation/correlation.go:101-137 | what Child, Ensure and each hop keep and set, from any valid context |
| `Carriers.TraceIsPreserved` | correlation/correlation.go:119-137 | over any chain of spans and hops from any valid context the trace never changes and every context is valid |
| `Carriers.HopsKeepParent` | correlation/correlation.go:296-298 | hops without a child span between them all report what the first inherits: the sender's parent if well-formed once trimmed, else its span; before the first hop nothing changes |
| `Carriers.ParentIfThereIsOne` | correlation/correlation.go:292-298 | a hop reports the sender's parent if it has one, else its span, iff that parent is absent or well-formed |
| `Carriers.MalformedParentIsDropped` | correlation/correlation.go:140-142 | a valid context whose malformed parent is replaced by its span |
| `IdentityAttributes.PutKeepsKeys` | correlation/correlation.go:212-224 | replacing or appending keeps keys unique and their order |
| `IdentityAttributes.PutSetsValue` | correlation/correlation.go:212-224 | it changes the lookup of its own key only |
| `IdentityAttributes.MergeRepresents` | correlation/correlation.go:202-226 | merging after any history gives the ordered map of the longer history |
| `IdentityAttributes.MergesRepresentHistory` | correlation/correlation.go:198-226 | over any merges from nothing: keys unique and trimmed, lookup gives the last non-blank value, order is first insertion |
| `IdentityAttributes.MergeOne` | correlation/correlation.go:207-224 | one entry: nothing if blank; else its trimmed key and value, in the place of the first entry with that key or at the end |
| `IdentityAttributes.MergeInParts` | correlation/correlation.go:207-224 | merging two lists is merging one after the other |
| `IdentityAttributes.BlankIsIgnored` | correlation/correlation.go:198-201 | an entry with a blank key or value changes nothing, wherever it stands |
| `IdentityAttributes.LastEntryDecides` | correlation/correlation.go:198-226 | the last entry with a non-blank value for its key is found in the result, trimmed |
| `IdentityAttributes.WithIdentityAttributes` | correlation/correlation.go:202-226 | the in-place loop on a copy computes the merge and leaves the receiver's list untouched |
| `IdentityAttributes.IdentityAttributeValue` | correlation/correlation.go:230-241 | returns the map's value for the trimmed key, or nothing |
| `IdentityAttributes.AppendIdentityAttributes` | correlation/correlation.go:252-272 | the loop computes the extension that `AppendedExtends` characterises |
| `IdentityAttributes.AppendedExtends` | correlation/correlation.go:252-272 | exactly the keys not taken are added, once, in order of first appearance, with the first non-blank value |
| `IdentityAttributes.AppendedOne` | correlation/correlation.go:260-270 | one entry: nothing if blank or its key is there; else an attribute with its trimmed key and value, at the end |
| `IdentityAttributes.AppendedInParts` | correlation/correlation.go:260-270 | appending two lists is appending one after the other |
| `IdentityAttributes.FirstEntryIsAdded` | correlation/correlation.go:252-272 | the first entry with a non-blank value for a key not taken is among what is added, trimmed |
| `IdentityAttributes.Attrs` | correlation/correlation.go:155-170 | core identifiers in their order, empty ones omitted, then the identity attributes |
| `IdentityAttributes.CoreHolds` | correlation/correlation.go:157-168 | each core identifier under its own key, iff it is not empty |
| `IdentityAttributes.CoreInOrder` | correlation/correlation.go:157-168 | and in this order |
| `IdentityAttributes.AttrsMeaning` | correlation/correlation.go:153-170 | no key repeats and core identifiers win |
| `Slices.Push` | correlation/correlation.go:192-192 | append writes into the spare capacity of the shared array, or moves to a new one |
| `IdentityAttributes.AppendAttrs` | correlation/correlation.go:179-196 | the given attributes come first, then exactly the context's with other keys; the caller's slice reads as before, the cells behind it are overwritten as far as they reach |
| `IdentityAttributes.AppendTwice` | correlation/correlation.go:179-196 | of two results from one slice the second is right, and the first keeps its attributes iff they did not fit or the second wrote the same |
| `IdentityAttributes.SecondCallOverwrites` | correlation/correlation.go:187-193 | one spare cell and two traces: the first result loses its trace |
| `Injection.AttrKeySet` | correlation/handler.go:143-153 | collects the keys of handler and record |
| `Injection.Enhance` | correlation/handler.go:64-78 | the record with what it lacks, and the keys it then has |
| `Injection.Handle` | correlation/handler.go:55-91 | delivers the diagnostics and then the enhanced record, through any stack of injecting handlers, and ends as the record's own delivery ends |
| `Injection.CheckRequired` | correlation/handler.go:79-86 | reports the required entries still absent, in order |
| `Injection.EmitMissingField` | correlation/handler.go:155-165 | one diagnostic through the rest of the stack, its result dropped |
| `Injection.MissingMeaning` | correlation/handler.go:65-70 | an attribute is missing iff its key is on neither handler nor record |
| `Injection.EnhancedMeaning` | correlation/handler.go:55-78 | own attributes stay as a prefix; each correlation key is added exactly when absent, once |
| `Injection.AddedExactly` | correlation/handler.go:64-78 | added are the context's attributes whose key no attribute of handler or record has |
| `Injection.MissingKeepsOrder` | correlation/handler.go:65-70 | in the context's order |
| `Injection.DerivedHandler` | correlation/handler.go:93-111 | a chain derives the wrapped handler and collects its attributes |
| `Injection.ChainDelivers` | correlation/handler.go:55-111 | after any chain: one diagnostic for each absent required entry under a trace, in order, then the record once |
| `Injection.ChainDeliversEach` | correlation/handler.go:155-165 | what is in each of these: a warning that names the entry and the source message and carries the context; at last the record with its own fields |
| `Injection.AbsentMeaning` | correlation/handler.go:79-86 | an entry is reported as often as it is required unless its key is present |
| `Injection.AbsentKeepsOrder` | correlation/handler.go:80-85 | entries are reported in the order required |
| `Injection.WrappedTwice` | correlation/handler.go:55-91 | a second wrapper leaves the deliveries alone iff it has no diagnostics of its own and the first was given nothing that holds back an identifier |
| `Injection.WrappingTwice` | correlation/handler.go:31-111 | the same for any handler, any chain before the second wrapper and any chain after it |
| `Injection.WrappingAtOnceIsUnnoticed` | correlation/handler.go:31-111 | a non-strict wrapper put directly around a new one is never noticed, whatever is derived afterwards |
| `Injection.SecondWrapperShows` | correlation/handler.go:64-78 | a trace id given to the first wrapper beforehand: the second, not strict, adds the context's |
| `Injection.LastIsFinal` | correlation/handler.go:87-90 | the last delivery is that of the record itself, enhanced by every wrapper |
| `Injection.FailsWithTheRecord` | correlation/handler.go:84-90 | Handle fails iff the record's own delivery fails, with its cause |
| `Injection.IdentifiersAreRenderedLast` | correlation/handler.go:71-78 | what a sink renders gains exactly the added identifiers, last, under the open groups |

## Left out

- Real file systems, flock system calls and lumberjack's internals (backup names, compression, ageing, pruning): archives get fresh names and are never removed by rotation; what a mutator does to them is covered.
- Process crashes between two steps, and writers that do not take the lock.
- Writers other than lumberjack: the rotation field is nil and Write is lock, write, unlock.
- `os.FileInfo` is identity, size and modification time; a stat between two steps of another goroutine is not split further.
- Slices are arrays in the handlers that clone themselves, in `WithIdentityAttributes` and in `AppendAttrs`. The injecting handler and the tee are values: that their copies share nothing holds by construction there.
- Values are already resolved (no `LogValuer`), and the texts of times, levels and scalars are inputs; JSON encoding and the email body are not modelled.
- Write errors of the text handler's writer, which the code ignores.
- `NewRouter` defaults, path joining and directory creation; the combined sink's Enabled depends on the level alone.
- Random ids are inputs and required to be valid for the trace properties; the all-zero id after a failed random read is not covered.
- Headers and metadata hold one value per key, with one spelling of each key; absent incoming metadata is an empty carrier.
- All diagnostics of one Handle call carry one clock reading.
- Texts of error wrappers; which operation failed is kept only as the protocol position where it failed.
- The handler factory, the trace and version packages, the context helpers and the correlation header handler: single branches over libraries that are not part of this model.
