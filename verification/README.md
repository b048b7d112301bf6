# Verification of a Go utility library

This project models seven parts of the library and proves what they promise.

- `Promise`: the protocol of `async.Promise`. Any number of callers share an atomic pointer, a
  one-token channel used as a lock, a one-shot data channel, and a plain variable. The module is a
  transition system with one step per atomic operation, and a class with the captured variables whose
  method `Get` is the closure, with the other callers acting before each of its operations.
- `Migrate`: `sqlmigrate.Exec`, a leader election through inserted rows. Callers come and go, may hold
  different lists of statements, and may crash between any two database calls; every call may fail,
  with or without having been applied. The class `Cluster` holds the shared table, and its methods are
  the loops of `Exec` and `run`.
- `Json`, `JsonLaws`, `JsonHandlers`, `JsonCalls`, `JsonStrategic`, `JsonItems`: `jdig` merging and resolving
  as functions on values (`Json`), the laws of handler-free merging, the laws of resolving handlers and
  discard markers, what calls of `Merge` return field by field and item by item, and the loops of
  `StrategicMerge` with what they amount to, also in terms of the fields of the items.
- `JsonHeap`, `JsonLists`, `JsonResolve`: the same merging, copying and resolving in place, with the handlers
  Keep and Replace, on heap cells that may be shared, tied to the functions of `Json` through snapshots.
  `JsonPlaces` describes the places of a heap value and the cells at them, and `JsonSharing` shows exactly
  which values can be merged into in place.
- `Forwarder`: the log forwarder of `daemonize`, one buffer that survives partial writes, errors,
  panics and reopened files.
- `Supervisor`: the restart loop of `daemonize` as a transition system of the loop, the goroutines that
  start and await its processes, the processes, the channels, the signals and the clock (in
  milliseconds), and a class whose method `StartMainLoop` is the loop.
- `Shell`, `LogTagger`, `OneLine`: three printers together with their readers, namely a shell
  tokenizer, a demultiplexer of tagged lines and an unescaping function. `Strings` has the
  string replacement they share, and `Sequences` and `Wrappers` have small helpers.

Scripts and step sequences stand for the outside world: the scheduler, the database, the file system,
the clock and the child processes. A theorem about all scripts is a theorem about everything
that these can do. Where a method takes a script, its contract says that the state becomes exactly what the
turns that were used make of it, and a lemma `EveryRunIsAScript` says that no run of the transition system is
missing among the scripts.

Some results differ from what the code's comments or a first reading suggest.

- The comment at `sqlmigrate/sqlmigrate.go:103` says that `run` leaves the row filled or deleted.
  `Migrate.NullRowStays` gives a run in which the statement succeeds and the row stays null for good.
  The package comment at `sqlmigrate/sqlmigrate.go:3-5` blames crashes for stuck migrations;
  `Migrate.StuckIff` says exactly which events make a migration stuck, and crashes are one of three kinds.
- Merging is not associative. `JsonLaws.FoldsDiffer` gives an input, `JsonLaws.MergeAssociates` gives
  the exact condition, and `JsonLaws.NoClashAssociates` gives a simpler sufficient one.
- Merging in place into a value in which one map, or one array that is not empty, occurs at a second place
  changes more than the patch says. `JsonSharing.MergeIntoSingle` and `JsonSharing.ExposeSharing` make this
  exact: every source can be merged into the value if no cell that merging can reach is at a second place,
  and for any other value there is a source that also changes the second place. Values that are only merged
  from, copied or resolved may share cells.
- A `$patch` directive of `StrategicMerge` stays in the result as data if the destination is no array, for
  example because the key is new (`JsonStrategic.DirectiveStays`, `JsonStrategic.DirectivesVanishIff`).
- The supervisor can send SIGKILL to a process that is gone already and was waited for
  (`Supervisor.LateKillHappens`); `Supervisor.LateKillIff` says exactly from which states. It can also panic
  for a signal although the process ended with success (`Supervisor.PanicHappens`, `Supervisor.PanicIff`).
- A reader of tagged lines cannot tell every set of tags apart. `LogTagger.SeparableIsExact` gives the
  exact condition for arbitrary tags, also for tags with newlines, which never get their bytes back.

## Model

| member | source | states |
|---|---|---|
| Promise.RunKeepsInv | async/async.go:39-83 | the invariant that ties the lock's token, the pointer, the shared result and each caller's position together survives every interleaving |
| Promise.StepKeepsInv | async/async.go:39-83 | so does each single step: a new call, a cancellation, the function's end, and every atomic operation |
| Promise.OneToken | async/async.go:57-80 | as long as the lock is open, the tokens in it and the callers that hold one add up to 1 |
| Promise.NoRaceNoFault | async/async.go:50-83 | in no run does a caller read or write the shared result while another one is about to write it, no token is sent into a full or closed lock, and the lock is not closed twice |
| Promise.FutureFate | async/async.go:23-30 | the function finishes at most once in a run, and its result stays the same from then on |
| Promise.OneResult | async/async.go:50-83 | every return is either the error of a cancelled context or exactly the result with which the function finished in that run |
| Promise.StepWork | async/async.go:50-83 | each atomic operation of a caller strictly decreases the work that is left, calls add a constant, and nothing else changes it |
| Promise.BoundedWork | async/async.go:50-83 | over a whole run, the operations taken and the work left are bounded by the work at the start and a constant for each call |
| Promise.NotStuck | async/async.go:50-83 | once the function has finished, some caller can move in every reachable state until all have returned |
| Promise.MaximalRun | async/async.go:50-83 | a run that no caller can extend is bounded in length, and each caller has returned, with the function's result if it was not cancelled |
| Promise.CancelledCanMove | async/async.go:58-74 | a caller whose context is cancelled is never blocked, whether the function has finished or not |
| Promise.FastPath | async/async.go:51-55 | a caller that comes when the result is announced returns it, even if its context is cancelled |
| Promise.EveryRunIsAScript | async/async.go:39-83 | every run of the whole protocol around a call is what some script makes of it |
| Promise.Cell.Get | async/async.go:50-83 | the closure, with other callers acting before each of its operations: all variables become exactly what the turns that were used make of them, and it returns the error of its own cancelled context or the one result with which the function has finished, or else, only after the end of the script, it is blocked in a select none of whose cases is ready |
| Promise.Cell.GiveBack | async/async.go:72-75 | sending the token back finds an open channel with room for it, so it cannot block |
| Migrate.ReformatKeepsChecksum | sqlmigrate/sqlmigrate.go:137-143 | inserting a blank, newline or tab anywhere in a statement does not change its checksum |
| Migrate.SameChecksumIff | sqlmigrate/sqlmigrate.go:137-143 | two statements have the same checksum, whatever the hash, if and only if they differ at most in blanks, newlines and tabs and in the case of letters |
| Migrate.NormalFormStays | sqlmigrate/sqlmigrate.go:137-143 | a statement without these characters and without upper-case letters is hashed as it is |
| Migrate.StepKeepsInv | sqlmigrate/sqlmigrate.go:52-135 | each database call, with each of its outcomes, each new call and each crash keeps the invariant and changes no filled row |
| Migrate.RunKeepsInv | sqlmigrate/sqlmigrate.go:47-135 | the invariant of table, leaders and successes survives every run with errors and crashes, and in it filled rows never change and histories only grow |
| Migrate.TableIsPrefix | sqlmigrate/sqlmigrate.go:52-68 | from an empty table, the table is always a gap-free prefix of filled rows with at most one null row behind it, and at most one caller over all indices leads |
| Migrate.EachStatementOnce | sqlmigrate/sqlmigrate.go:105-132 | the statements succeed in the order 0, 1, 2, ..., none of them twice, and every filled row belongs to one that did |
| Migrate.NilMeansStored | sqlmigrate/sqlmigrate.go:52-100 | when a call returns nil, each row of its list holds the checksum of its statement |
| Migrate.NilCallsAgree | sqlmigrate/sqlmigrate.go:89-100 | two calls that return nil agree on the checksums of their common prefix |
| Migrate.NeverAgain | sqlmigrate/sqlmigrate.go:56-99 | after a nil return no later step of any caller executes a statement at one of its indices or changes one of its rows |
| Migrate.StuckIff | sqlmigrate/sqlmigrate.go:56-135 | a run from the empty table ends with a null row that nobody will fill or delete if and only if in it a leader crashed, a leader's last bookkeeping call was not applied, or an insertion was applied and reported as failed |
| Migrate.StuckForGood | sqlmigrate/sqlmigrate.go:52-99 | from then on no later run changes the table, executes a statement or has a leader |
| Migrate.MovesOnIff | sqlmigrate/sqlmigrate.go:56-135 | with a null row, some later run changes the table if and only if a caller is between its winning insertion and its last bookkeeping call |
| Migrate.NullRowStays | sqlmigrate/sqlmigrate.go:103-135 | a run in which the statement succeeds, the update fails, the leader returns that error, and the row stays null |
| Migrate.LeaderSettlesRow | sqlmigrate/sqlmigrate.go:103-135 | the leader's last database call leaves the row filled or gone, or makes the migration stuck, the latter exactly if that call is not applied |
| Migrate.CanGoOn | sqlmigrate/sqlmigrate.go:54-97 | unless the migration is stuck, an unfinished caller means that some step other than waiting is possible, without a crash or a bookkeeping failure |
| Migrate.HealthyStepDecreases | sqlmigrate/sqlmigrate.go:54-97 | without such failures every call but a repeated read of a null checksum decreases a lexicographic measure, and that read changes nothing |
| Migrate.ProductiveBound | sqlmigrate/sqlmigrate.go:54-97 | so over a run the steps other than waiting are bounded by the measure at the start and what the calls that start in it add |
| Migrate.QuietRunReturned | sqlmigrate/sqlmigrate.go:54-100 | a run without such failures that only waiting can extend has brought every caller to its return |
| Migrate.SmoothRunReturnsNil | sqlmigrate/sqlmigrate.go:54-100 | if moreover no statement, callback or read fails, nobody is cancelled, and the lists of all calls have the same checksums as far as they go, every call has returned nil |
| Migrate.RetryBound | sqlmigrate/sqlmigrate.go:76-78 | without such failures a caller goes back to the election at most once for every other leader that gave up |
| Migrate.EveryRunIsAScript | sqlmigrate/sqlmigrate.go:47-135 | every run of the whole system around a call that does not crash is what some script makes of it, with one turn for each of its database calls |
| Migrate.FailureIsUndone | sqlmigrate/sqlmigrate.go:103-125 | if the statement or its callback fails and the row can be deleted, the call returns the statement's error and the row is gone, whatever others do meanwhile |
| Migrate.GoodScriptMigrates | sqlmigrate/sqlmigrate.go:47-135 | on its own and without failures, a call on an empty table returns nil, and the table has exactly the checksums of its statements |
| Migrate.FailingScriptStops | sqlmigrate/sqlmigrate.go:47-135 | if statement n or its callback fails, such a call returns that statement's error and the table has exactly the checksums of those before it |
| Migrate.RerunChecks | sqlmigrate/sqlmigrate.go:79-97 | on its own, a caller whose rows are filled returns nil if they hold its checksums, and otherwise the mismatch at the first one that does not, with both checksums, and changes no row |
| Migrate.Cluster.Request | sqlmigrate/sqlmigrate.go:56-97 | one database call after the other callers' steps, which ends as the turn says if that is possible: the new state is that turn's, and what this caller does next follows from the outcome and the content of its row |
| Migrate.Cluster.Lead | sqlmigrate/sqlmigrate.go:104-135 | the statement, the callback, the update and the deferred deletion, one turn of the script for each, with the error that is returned; without a return, the script has ended |
| Migrate.Cluster.Exec | sqlmigrate/sqlmigrate.go:47-101 | the nested loops, with other callers acting before each database call: the table and all callers become exactly what the turns that were used, one for each call, make of them; the result is where that leaves this call, and without one the script has ended; a nil return means that all rows of the list hold their checksums |
| JsonLaws.AnyExists | jdig/jdig.go:11-42 | the loop returns what a recursive lookup finds and whether a non-empty path exists, and panics exactly if it reaches a key of another type |
| JsonLaws.LookupMeans | jdig/jdig.go:16-33 | a lookup with one more key finds a value if and only if what was found before is an object with it in the field of that name, or an array with it at that index, counted from 0 |
| JsonLaws.BadKeyMeans | jdig/jdig.go:13-36 | the query panics if and only if a key of another type follows a path at which there is a value other than null |
| JsonLaws.DepthIsLongest | jdig/jdig.go:11-42 | the prefixes of a path that exist in a value are exactly those up to its depth |
| JsonLaws.PlainMerge | jdig/merge.go:109-154 | merging a handler-free source never panics, and the result is handler-free if the destination is |
| JsonLaws.PlainMeans | jdig/merge.go:81-107 | a value is handler-free, or clean, if and only if no path leads to a handler, or to a handler or a marker |
| JsonLaws.MergePath | jdig/merge.go:109-154 | what a lookup along any path finds after a merge: the source's value, merged into the destination's if there is one, and elsewhere the destination's exactly if both have one kind of container where the path leaves the source |
| JsonLaws.MergeSelf | jdig/merge.go:109-154 | merging a handler-free value into itself changes nothing |
| JsonLaws.MergeTwice | jdig/merge.go:109-154 | applying a handler-free patch a second time changes nothing |
| JsonLaws.CoveredMeans | jdig/merge.go:109-154 | merging c into a gives c if and only if c covers every container of a that would be merged |
| JsonLaws.MergeAssociates | jdig/merge.go:56-66 | the right fold of three values equals their left fold if and only if, wherever the outer two are containers of one kind and the middle one is not, the last one covers the first |
| JsonLaws.NoClashAssociates | jdig/merge.go:56-66 | in particular the folds agree if on no shared path the outer two have one kind of container and the middle one another kind of value |
| JsonLaws.FoldsDiffer | jdig/merge.go:60-64 | an input on which the folds differ |
| JsonHandlers.MergeSuffixFirst | jdig/merge.go:56-66 | merging a non-empty suffix of the arguments first changes neither the value nor whether the call panics, with handlers too |
| JsonHandlers.MergePrefixFirst | jdig/merge.go:60-64 | merging a prefix first changes nothing if and only if the three values associate |
| JsonHandlers.ResolveCleans | jdig/merge.go:73-107 | resolving leaves no handler and no discard marker at any depth |
| JsonHandlers.CleanIsResolved | jdig/merge.go:81-107 | resolving a value without handlers and markers changes nothing and does not panic |
| JsonHandlers.MergedIsClean | jdig/merge.go:42-46 | a call of Merge panics or returns a value without handlers and markers, and merging that value alone returns it again |
| JsonHandlers.ResolveInTwoPasses | jdig/merge.go:81-107 | resolving only the markers and then everything is the same as resolving everything at once, in its value and in its panics |
| JsonHandlers.DiscardThenMerge | jdig/merge.go:68-79 | ResolveOnlyDiscard before Merge does not change the outcome of Merge |
| JsonHandlers.PlainListMerges | jdig/merge.go:42-66 | handler-free arguments never make a call of Merge panic |
| JsonHandlers.TameArgumentsMerge | jdig/merge.go:23-66 | a call of Merge returns if in its arguments no Replace has a handler in it and every directive is a known one |
| JsonHandlers.MergePanicsIff | jdig/merge.go:109-154 | merging a source without StrategicMerge panics if and only if at some path the destination has a null and the source a Replace around a handler |
| JsonHandlers.MultiPanicsIff | jdig/merge.go:56-66 | merging a list without StrategicMerge panics if and only if this happens at some path between one of the values and the merge of those behind it |
| JsonHandlers.ResolvePanicsIff | jdig/merge.go:81-107 | resolving any value panics if and only if at some depth in it a Replace has a handler in it |
| JsonHandlers.MergedPanicsIff | jdig/merge.go:23-66 | a call of Merge without StrategicMerge panics if and only if one of these two things happens |
| JsonCalls.AloneBecomes | jdig/merge.go:42-107 | what a single argument becomes: Keep and a marker become null, Replace what its value becomes unless that is a handler, StrategicMerge what the array of its items becomes, and a clean value itself |
| JsonCalls.SourceWins | jdig/merge.go:109-120 | a call with two arguments: what it returns when the second one is a handler, a marker, or of another kind than the first, StrategicMerge into something other than an array included |
| JsonCalls.FieldByField | jdig/merge.go:42-138 | with handlers and markers, merging two objects panics if and only if merging the values of some field would, and otherwise each field is what a call for its values returns, or gone if it is discarded |
| JsonCalls.NewFieldBecomesItems | jdig/merge.go:42-107 | StrategicMerge for a key that the destination does not have becomes exactly its items, in their order |
| JsonCalls.ItemByItem | jdig/merge.go:42-154 | the same for the items of two arrays, where a discarded item leaves a null behind |
| JsonCalls.OnlyDiscardPath | jdig/merge.go:68-107 | ResolveOnlyDiscard keeps everything along every path, handlers included, except that a marker in an object is gone and any other marker is a null |
| JsonStrategic.IndexByKey | jdig/strategic_merge.go:27-32 | the index of the source holds the last item of each non-empty key |
| JsonStrategic.MergeDst | jdig/strategic_merge.go:34-61 | the loop over the destination panics exactly when an unknown directive or a panicking merge is met, and otherwise yields the destination's items with their partners |
| JsonStrategic.AppendSrc | jdig/strategic_merge.go:62-74 | the loop over the source appends, without directives, the items that were not processed |
| JsonStrategic.StrategicMerge | jdig/strategic_merge.go:20-78 | the callback as a whole returns what merging says and panics exactly when merging says so |
| JsonStrategic.FirstLoopRewrites | jdig/strategic_merge.go:36-61 | if the destination's keys are distinct, the first loop treats each item on its own, by its partner's directive |
| JsonStrategic.SecondLoopAppends | jdig/strategic_merge.go:62-74 | the second loop appends exactly the items whose key is not among the destination's keys |
| JsonStrategic.KeyedMergeIs | jdig/strategic_merge.go:36-76 | if the destination's keys are distinct, its items are kept, replaced, dropped or merged one by one in order, followed in order by the source items without a key in the destination |
| JsonStrategic.ResultKeys | jdig/strategic_merge.go:36-76 | with distinct keys on both sides the keys of the result are distinct, and they are the destination's keys without the deleted ones and then the new keys of the source |
| JsonStrategic.DirectivesVanish | jdig/strategic_merge.go:51-65 | no directive of the source gets into what an array is merged to |
| JsonStrategic.DirectivesVanishIff | jdig/strategic_merge.go:20-65 | for any destination, the items of the result have no directives if and only if the destination is an array or the source has none |
| JsonStrategic.DirectiveStays | jdig/strategic_merge.go:22-25 | an input for which a call of Merge returns a directive as data |
| JsonItems.KeyOfMeans | jdig/strategic_merge.go:5-15 | a key that is not empty is read from an item if and only if the item is an object with that string in that field |
| JsonItems.SameKey | jdig/strategic_merge.go:36-76 | an item that meets one with the same string in the key field is merged with it, replaced or deleted as the other's `$patch` field says, which is removed; another directive panics |
| JsonItems.OtherKey | jdig/strategic_merge.go:36-76 | with different strings in the key field the destination's item stays as it is and the source's follows it |
| JsonItems.DirectiveUsedOnce | jdig/strategic_merge.go:50-61 | of two destination items with the key of one source item that says delete, the first is deleted and the second is merged |
| JsonItems.OneSideOnly | jdig/strategic_merge.go:34-76 | with items on one side only, these are the result, in their order and without directives of the source |
| JsonItems.ResultItems | jdig/strategic_merge.go:36-76 | if no key occurs twice on either side, none does in the result, and a key is in it if and only if the destination has it and the source does not ask to delete it, or only the source has it |
| JsonItems.ItemStays | jdig/strategic_merge.go:37-48 | a destination item without a key, or with one that the source does not have, is in the result as it is |
| JsonItems.ItemMeets | jdig/strategic_merge.go:49-60 | a destination item whose key the source has is in the result merged with that source item, or that one is in its place, as the directive says |
| JsonItems.ItemIsNew | jdig/strategic_merge.go:62-74 | a source item without a key, or with one that the destination does not have, is in the result, without its directive |
| JsonHeap.SnapshotIsRead | jdig/merge.go:122-154 | the snapshot of a full tree is the one value that can be read from the heap cells, field by field and item by item |
| JsonHeap.MergeObj | jdig/merge.go:122-138 | merging an object in place, in any order of the keys, panics exactly if the merge of the snapshots does, and otherwise leaves that merge in the destination's own map; only cells of the destination are written |
| JsonHeap.MergeArr | jdig/merge.go:140-154 | the same for arrays, whose elements are merged in place, and which get a new cell if they grow |
| JsonHeap.MergeInPlace | jdig/merge.go:109-120 | into a destination no reachable cell of which is at a second place, any source apart from it is merged: the call panics exactly if the merge of the snapshots does, the result shows that merge and has the destination's own cells, and only those are written |
| JsonLists.MultiMergeInPlace | jdig/merge.go:56-66 | for arguments that are apart, the result shows the right fold of their snapshots, the call panics exactly if that fold does, and no cell of the last argument, in which cells may be shared, is written |
| JsonSharing.MergeIntoSingle | jdig/merge.go:109-154 | if no cell of a value that merging can reach is at a second place, every source apart from it can be merged into it in place: the result fully shows the merge of the snapshots |
| JsonSharing.ExposeSharing | jdig/merge.go:109-154 | conversely, for any value with such a cell at two places a source is built, which puts one new value into that cell; its merge does not panic and is correct along the path, but the value then fully shows a tree with the new value wherever that cell is, which is not the merge of the snapshots |
| JsonSharing.SingleIsUnshared | jdig/merge.go:122-154 | the condition on places implies the one on sets of cells under which merging in place is proved |
| JsonPlaces.Acyclic | jdig/merge.go:122-154 | in a value that is a finite tree no cell is below itself |
| JsonLists.CopyObj | jdig/jdig.go:117-122 | the copy of an object shows the same value, also if the original shares cells |
| JsonLists.CopyArr | jdig/jdig.go:123-128 | the copy of an array shows the same value, also if the original shares cells |
| JsonLists.DeepCopy | jdig/jdig.go:115-132 | the copy of any acyclic value shows the same value; its cells are new and none of them is at a second place, except for what handlers refer to, which is not copied; nothing that existed before is written |
| JsonLists.MergeIntoCopy | jdig/jdig.go:115-132 | merging into a copy yields the merge, or panics exactly if the merge does, which the result fully shows, and leaves both originals as they are, in whatever way they share cells |
| JsonResolve.ResolveObj | jdig/merge.go:83-90 | resolving an object in place, for the first time or again, while keys are deleted: it panics exactly if it is the first time and resolving the snapshot does, and afterwards every cell below it is resolved |
| JsonResolve.ResolveArr | jdig/merge.go:91-98 | the same for arrays, with nulls for markers |
| JsonResolve.ResolveInPlace | jdig/merge.go:81-107 | resolving a value in place, also if cells are shared, gives the resolved snapshot within the cells of the argument, or panics exactly if resolving the snapshot does |
| JsonResolve.MergeCall | jdig/merge.go:42-46 | Merge on the heap, for arguments that are apart, the last one with shared cells or not: it panics exactly if merging or resolving the snapshots does, and otherwise the result fully shows what these give, without handlers and markers |
| Forwarder.PlayConserves | daemonize/pkg/logger.go:158-193 | whatever reads and writes do, the bytes written and the pending chunk are the old chunk and the bytes read, in order, and the chunk fits into the buffer |
| Forwarder.PlaySessionConserves | daemonize/pkg/logger.go:123-194 | the same for a whole session, even if it cannot set its deadline or open its file |
| Forwarder.GoodRoundsCopyAll | daemonize/pkg/logger.go:158-193 | without errors and with complete writes a session copies exactly its input and leaves nothing pending |
| Forwarder.PanicsIff | daemonize/pkg/logger.go:158-178 | the rounds of a session panic if and only if it gets to one in which, with nothing pending, it reads an unknown error, or nothing without an error |
| Forwarder.SessionPanicsIff | daemonize/pkg/logger.go:123-194 | a session panics if and only if its deadline cannot be set, or its file is opened and such a read follows |
| Forwarder.ForwardState.Refill | daemonize/pkg/logger.go:159-161 | a read fills the shared buffer, which requires that no chunk is pending |
| Forwarder.ForwardState.WriteSome | daemonize/pkg/logger.go:180-181 | a write moves exactly the first bytes of the chunk to the file opened last and no earlier file changes |
| Forwarder.ForwardState.DoRound | daemonize/pkg/logger.go:159-192 | one iteration reads only if nothing is pending, writes a prefix of what is there and keeps the rest, and returns, panics or goes on as the source's branches say |
| Forwarder.ForwardState.DoRounds | daemonize/pkg/logger.go:158-193 | the loop over the shared buffer reads, writes, keeps and panics exactly as the rounds say, and touches no earlier file |
| Forwarder.ForwardState.DoForward | daemonize/pkg/logger.go:123-194 | the same for a whole session, which opens at most one file |
| Forwarder.ForwardState.Forward | daemonize/pkg/logger.go:53-112 | over all sessions and the final attempt, the contents of all files in order, followed by what is discarded, are exactly the bytes read; only the tail that the final attempt could not write is discarded |
| Supervisor.RunKeepsHandshake | daemonize/pkg/start.go:137-252 | in every interleaving the position of the loop, the goroutine of each round, its process and its channel fit together |
| Supervisor.HeadIsClean | daemonize/pkg/start.go:137-252 | when the loop begins a round, or ends normally, every earlier process was waited for or never started, every goroutine is done and every channel is empty |
| Supervisor.OneChild | daemonize/pkg/start.go:137-252 | in every reachable state at most one process is not waited for, that of the current round, and only before its result was received |
| Supervisor.StartRate | daemonize/pkg/start.go:137-252 | in any window of time there are at most one round more than whole intervals of 15 seconds plus the SIGUSR1 handled in it |
| Supervisor.BackoffRests | daemonize/pkg/start.go:169-199 | when the timer of the back-off fires, 15 seconds have passed since the round began and 100 milliseconds since the failure was seen |
| Supervisor.FailureBacksOff | daemonize/pkg/start.go:169-199 | after a failure the timer of the back-off fires exactly when the rest of 15 seconds, and at least 100 milliseconds, have passed, and then another round begins |
| Supervisor.TimeoutIsExact | daemonize/pkg/start.go:237-239 | the timer of the kill fires exactly 15 seconds after it was set |
| Supervisor.EndsFor | daemonize/pkg/start.go:160-251 | the loop ends with success only if the last process did, stops only for a SIGTERM, panics only for a signal, and handles at most the SIGUSR1 that came |
| Supervisor.SignalsQueue | daemonize/pkg/start.go:134-135 | signals wait in order, and one that comes while two of them wait is dropped |
| Supervisor.NoEarlyKill | daemonize/pkg/start.go:234-245 | in every run, SIGKILL goes only to a process that was sent SIGTERM at least 15 seconds before |
| Supervisor.LateKillIff | daemonize/pkg/start.go:234-246 | from a reachable state SIGKILL can follow the waiting for a process if and only if it has, or the round is the current one and SIGTERM was sent in it or can still be sent |
| Supervisor.LateKillHappens | daemonize/pkg/start.go:237-246 | a run in which SIGKILL is sent after the process was waited for, while the channel is still empty |
| Supervisor.GoneBeforeKill | daemonize/pkg/start.go:238-244 | right before SIGKILL, the process was waited for if and only if its goroutine has left the wait, that is, the result is in the channel or about to be sent |
| Supervisor.PanicIff | daemonize/pkg/start.go:234-235 | when SIGTERM is about to be sent, the loop panics if and only if the process is not started yet, or its result is about to be sent or in the channel |
| Supervisor.PanicHappens | daemonize/pkg/start.go:218-235 | a run in which the process ends with success and the loop panics for a signal |
| Supervisor.EveryRunIsAScript | daemonize/pkg/start.go:137-252 | every run of the whole system is what some script makes of it |
| Supervisor.Loop.BackOff | daemonize/pkg/start.go:169-216 | the back-off ends the loop exactly after SIGTERM, counts a SIGUSR1, and without a signal lasts at least as long as it was set to; it is unfinished only after the end of the script, blocked in a select |
| Supervisor.Loop.AskToEnd | daemonize/pkg/start.go:218-251 | SIGTERM, the wait, SIGKILL and the second wait end the loop only if the signal was SIGTERM, lead to another round, which counts, only if it was SIGUSR1, and otherwise panic because there is no process to signal; they are unfinished only after the end of the script, blocked in a select |
| Supervisor.Loop.StartMainLoop | daemonize/pkg/start.go:137-253 | the loop, with everything else acting before each of its operations: the whole system becomes exactly what the turns that were used make of it; it ends where it says, or else, only after the end of the script, is blocked in a select none of whose cases is ready; after a normal end no process, no goroutine and no result is left |
| Shell.Escape | sh/sh.go:121-133 | the builder loop yields the quoted arguments, separated by blanks |
| Shell.QuoteIs | sh/sh.go:128-130 | an argument stands between single quotes, and a single quote in it is left, escaped and entered again |
| Shell.LexQuote | sh/sh.go:128-130 | the tokenizer reads a quoted argument as its characters, all of them quoted, whatever word it continues and whatever follows |
| Shell.EscapeRoundTrip | sh/sh.go:121-133 | the shell's tokenizer reads the escaped text as exactly the given arguments, each one word with every character quoted |
| Shell.EscapeInjective | sh/sh.go:121-133 | different lists of arguments are escaped differently |
| Shell.FullCommand | sh/sh.go:41-48 | the loop yields the assignments, in the order in which the variables come, and the command |
| Shell.AssignmentsReadBack | sh/sh.go:42-47 | the tokens of the prefix are read back as exactly the variables and their values |
| Shell.PrefixRoundTrip | sh/sh.go:41-48 | the whole command is read as those assignments followed by the command as it is read on its own |
| LogTagger.Tagger.Build | logtagger/log.go:44-61 | the loop over the message fills the buffer with one frame for each line, and one with another bracket for an unfinished line |
| LogTagger.FramesOfLines | logtagger/log.go:44-61 | the frames, spelled out: a line gets the tag in brackets, a blank and its newline, and an unfinished one another bracket and a newline |
| LogTagger.Tagger.Write | logtagger/log.go:36-77 | with a destination that takes any part of what it is given, a successful call adds exactly its frames and a failed one a prefix of them; what is taken and whether it fails is exactly what the answers deliver |
| LogTagger.DeliveredMeans | logtagger/log.go:68-74 | an error is returned if and only if the first answer that reports one comes before everything was taken, and then exactly the bytes up to it were taken |
| LogTagger.RunsAreFramed | logtagger/log.go:63-76 | in every interleaving of writers the output is the frames of whole calls and the part of the holder's frames written so far |
| LogTagger.DemuxOtherFrames | logtagger/log.go:44-61 | the frames of a call give nothing to a reader of another tag that does not clash with the call's tag |
| LogTagger.DemuxOutput | logtagger/log.go:44-61 | the frames of a list of calls give back to a separable tag the bytes of its own calls, in order |
| LogTagger.InterleavedDemux | logtagger/log.go:36-77 | when no call is under way, the lines of a tag that is separable among the tags in use give back exactly what was written with it, in the order of the calls |
| LogTagger.SeparableIsExact | logtagger/log.go:36-77 | for any tag and any set of tags, the lines give back what was written with it for all lists of calls with these tags if and only if it has no newline, or is not among them, and clashes with none of them |
| LogTagger.NewlineTagIsMute | logtagger/log.go:49-58 | a tag with a newline gets no bytes back from any output |
| LogTagger.PlainTagsAreSeparable | logtagger/log.go:49-58 | tags without closing brackets and newlines can all be told apart |
| LogTagger.ClashIsExtension | logtagger/log.go:49-58 | two tags without newlines clash if and only if one goes on after the other one with a closing bracket and a blank |
| LogTagger.ClashIsExact | logtagger/log.go:49-58 | for any two tags, some message of one is read as one of the other if and only if they clash |
| LogTagger.DemuxSpeaks | logtagger/log.go:49-58 | the lines that a tag with newlines puts above the content say something to another tag exactly if one of them begins with its header |
| OneLine.PassesCompose | errors/util.go:7-13 | the four passes amount to escaping, character by character, the text with normalized line breaks |
| OneLine.RenderingOf | errors/util.go:7-13 | character by character: CRLF, CR and LF become a backslash and an n, a backslash becomes two, and other characters stay |
| OneLine.UnescapeEscaped | errors/util.go:8-11 | unescaping from left to right undoes the escaping of backslashes and line feeds |
| OneLine.OneLineRoundTrip | errors/util.go:7-13 | the rendering has no CR or LF, and unescaping it gives the text with CRLF and CR turned into LF |
| OneLine.OneLineIsFaithful | errors/util.go:7-13 | two texts have the same rendering if and only if they differ at most in the kind of their line breaks |

## Left out

- JsonStrategic.StrategicMerge: on values only. The source deletes directives from the caller's maps, so
  using one handler value twice behaves differently the second time; the model tracks that deletion
  within one call and not across calls.
- JsonStrategic.KeyedMergeIs: requires a merge key other than `$patch`, because the source removes that
  entry before it reads the key again. `JsonStrategic.StrategicMerge` covers this case and duplicate keys.
- JsonLists.MultiMergeInPlace: the handlers are Keep and Replace; StrategicMerge, which also changes its source
  maps, is modelled on values. The arguments are apart from each other, and no reachable cell of those before
  the last one is at a second place, see `JsonSharing.ExposeSharing`.
- JsonHeap.MergeInPlace: the handlers are Keep and Replace; the destination has no reachable cell at a second
  place, which is exactly when every source can be merged into it.
- JsonHeap.MergeObj: as `JsonHeap.MergeInPlace`.
- JsonHeap.MergeArr: as `JsonHeap.MergeInPlace`; an array grows into a new cell, as a slice without spare
  capacity does, and an empty array has no cell. Two slices over one backing array with spare room are not
  modelled, and neither are cyclic values, on which the source does not end.
- JsonLists.DeepCopy: the handlers are Keep and Replace, which are copied as references, like any other.
- JsonLists.CopyObj: as `JsonLists.DeepCopy`.
- JsonLists.CopyArr: as `JsonLists.DeepCopy`.
- JsonResolve.ResolveObj: the handlers are Keep and Replace.
- JsonResolve.ResolveArr: the handlers are Keep and Replace.
- JsonResolve.ResolveInPlace: the handlers are Keep and Replace. If only the markers are resolved, what handlers
  refer to must be apart from what is resolved.
- JsonHandlers.MergedPanicsIff: with StrategicMerge the panics are those of its loops, see
  `JsonStrategic.StrategicMerge`; `JsonHandlers.TameArgumentsMerge` gives a sufficient condition for it.
- JsonHandlers.MergedIsClean: handlers are Keep, Replace and StrategicMerge; arbitrary callbacks, which
  need not terminate, are not modelled.
- Supervisor.Loop.StartMainLoop: starting a process is one step, and a signal before it makes the loop panic
  for the missing process; that another process may have got the number of one that is gone is not modelled.
- Supervisor.StartRate: counts rounds by the clock reading in front of their select; the delay until the
  operating system has started the process is not bounded by the source.
- Forwarder.ForwardState.Forward: bytes still in the pipe at shutdown are never read and are not part of
  the input; how a reopen request cancels a session is not modelled beyond the end of its rounds.
- LogTagger.InterleavedDemux: for successful calls; a failed call leaves a prefix of its frames, as
  `LogTagger.Tagger.Write` says.
- LogTagger.Tagger.Write: the reuse of buffers through the pool is not modelled.
- Shell.PrefixRoundTrip: the tokenizer rejects unquoted characters with other meanings to the shell, and
  then both sides of the statement fail alike; expansion and execution are not modelled.
- Migrate.ReformatKeepsChecksum: lower-casing is that of ASCII letters, and CRC-32 is any function.
- Migrate.TableIsPrefix: statements do not touch the bookkeeping table, and nobody repairs it by hand.
- Nil and empty maps and slices are the same in the models of `jdig`.
- Panics inside the function given to `async.Promise` and their conversion to errors: the function is
  assumed to deliver one result.
- The semaphore, mutex and channel helpers of `async`, which wrap one select each.
- The typed getters, conversions and JSON encoding of `jdig`.
- `errors.FormatWithFilter` and stack traces, which depend on reflection and the runtime.
- Process creation, pid files and signal delivery of `daemonize`.
- Running commands, options and output capture of `sh`.
- All other packages of the repository.
