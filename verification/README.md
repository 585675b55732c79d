# Verification of mark's review store, patch readers and annotation codes

`mark` shows diffs and lets people and agents discuss them. This project models the four
parts of it that are hardest to get right and proves what the rest of the program relies
on. Everything is ordinary Dafny 4.11; `dafny verify dfyconfig.toml` checks the whole.

## What is modelled

**The durable review store** (`ReviewTypes`, `ReviewHandlers`, `ReviewEffects`,
`ReviewInvariant`, `ReviewPages`, `ReviewRuns`, `ReviewValidation`, `ReviewStore`,
`AgentView`, `Framing`). A review is one record: a patch with its generation, threads of
messages, immutable feedback submissions with per-consumer acknowledgements, a bounded
change log, and one receipt per accepted mutation. Twelve mutations change it. Each call
runs under one exclusive lock, so it is one atomic step of a state machine; any number of
clients call in any order, and a crash loses a call before it is persisted or its reply
after (`ReviewRuns.Event`). The theorems are about whole runs: exactly-once effects,
immutable message versions, delivery until acknowledgement, a change feed that loses
nothing. They rest on an invariant stronger than what `validate_record` checks
(`ReviewInvariant.Inv`): the revision is one more than the number of receipts, the change
log has no gap, threads that are not stale carry the current generation, and a message id
and revision determine one content everywhere. The handlers are functions; `ReviewStore`
holds the same handlers as methods that update a record's fields in place, and its
`Mutation` and `ReconcileRefresh` are proved to be the steps of the state machine;
`OpenReview` looks through any directory, and is that step on the ones a run reaches.
`AgentView` is the projection that agents see over MCP and `Framing` the newline-delimited
reader below it.

**The unified-diff readers** (`PatchModel`, `GitPaths`, `PatchParser`, `ParserLoop`,
`PatchCounts`, `ParallelParser`, `ParallelLimits`, `PatchRows`, `HunkHeaders`,
`HeaderLines`, `PatchPieces`, `PatchStats`, `StatSimulation`, `StatOutputs`,
`PathRoundTrip`, `PatchMeaning`, `Difftool`, `DifftoolMeaning`, `DifftoolPaths`). Over
arbitrary bytes, three line machines read the same patch: the serial parser, the parallel
one that finds section starts in chunks and parses groups of sections on their own, and the
streaming stat counter; a fourth loop rewrites the paths of a difftool patch.
`PatchParser.Step` is one turn of the parser's loop as a function of its state, `ParserLoop`
the loop with its builder objects. The theorems are refinement (parallel against serial),
simulation (counter against parser, under an exact guard), conservation (rows, counts, line
numbers), preservation of meaning (rewriting) and round trips (quoted paths, hunk headers).
What a parsed patch means apart from its paths is `PatchMeaning.ViewFiles`: hunks with
ranges, row kinds, row bytes and line numbers, counts and binary flags.

**The annotation hint codes** (`HintCodes`, `HintOptimality`): base-r numerals that form a
prefix-free code of an exact size, and the Kraft inequality, by which no code is shorter.
**The style cache** (`StyleCache`): two slots with round-robin eviction beside a growing
stack table.

`Utf8` is section 4 of RFC 3629: a Rust `str` is a byte sequence that satisfies `ValidUtf8`,
and `Lossy` is the replacement decoding. In the review store's text fields, which only ever
get bounded and compared, a string is a sequence of characters and `Utf8Size` its length in
bytes.

Assumptions: a SHA-256 request fingerprint determines the request, so the request itself
stands for it; `unique_id` gives ids that are not in use (`FreshIds`, `FreshEvent`);
`snapshot::unchanged_paths`, which is not part of this model, may retain any set of paths;
writing a checkpoint is atomic; a byte buffer is at most `isize::MAX` long; Rayon's parallel
map returns its results in order.

## Where the code promises less than one might expect

- The parallel parser can accept more than the serial one under a row or hunk limit: the
  serial loop counts `\ No newline` markers and the rows and hunks of binary files as it
  goes, the finished files do not show them. `ParallelParser.LimitsAgree` is the exact
  condition, in those terms; `ParallelLimits.MarkerParts` is a family of inputs, and
  `MarkerPartsLargePatches` one that the released size threshold lets through.
- Parser and stat counter part on three kinds of line: a `diff --git ` row of an open hunk,
  a lone `--- ` header where a file could start, and a hunk header, or a row that looks
  like one, after which the two wait for different numbers of rows (none, or a start past
  32 bits, among them). `StatSimulation.Guard` names them. On patches without such lines
  the two agree (`StatsSimulateParser`); after any patch without them, each such line and
  some rows make them list different files (`StatOutputs.BrokenGuardShows`). `LoneMinus`,
  `FileRow` and `RowAfterNothing` are inputs.
- A style is resolved once only for one theme, or two that are not 0: a third theme evicts
  a slot, and theme 0 is what marks an unused one (`StyleCache.ThemesThatStay`, both ways;
  `ThirdThemeEvicts` and `ThemeZeroEvicts` are the runs).
- The rewriter compares a side header with `/dev/null` byte for byte, the parser after
  unquoting and cutting at a tab: a null side stays null exactly when its bytes are
  `/dev/null` (`DifftoolPaths.NullStaysNull`), and other spellings get the display path
  (`OtherNullSpellings`).
- When the full tree outgrows a machine word, the saturated product can leave fewer hints
  than targets: `HintCodes.MachineCodesExact` says when, `SevenKeys` is an input. It does
  not happen while keys and targets are within 32 bits (`MostCodesFit`).

## Model

| member | source | states |
|---|---|---|
| `ReviewRuns.ExactlyOnce` | crates/mark-session/src/review.rs:306-433 | once a call was accepted, sending the same request again after any run of any clients returns the first reply and leaves the store unchanged, whether or not the first reply was lost |
| `ReviewRuns.ReconcileOnce` | crates/mark-session/src/review.rs:259-284 | the same for a refresh reconciled by its client part, whatever patch bytes the adapter would read by then |
| `ReviewRuns.OtherRequestConflicts` | crates/mark-session/src/review.rs:339-354 | an accepted mutation id is refused for good for any other request, without a change |
| `ReviewRuns.AtMostOneEffect` | crates/mark-session/src/review.rs:339-430 | in any run a mutation id changes a review at most once, and exactly once when its receipt appears in the run |
| `ReviewRuns.MutateKeeps` | crates/mark-session/src/review.rs:379-430 | a mutation whose handler succeeds is never rejected when it is persisted: the invariant holds again, the revision rises by one, the generation by one exactly when the patch text changed; otherwise the record is as before |
| `ReviewRuns.CallExact` | crates/mark-session/src/review.rs:339-396 | under a mutation id not used before a call succeeds exactly when the id is in bounds, a receipt is free, generation and expected revision match and the handler accepts; every other call leaves the store as it was |
| `ReviewRuns.BeginAccepted` | crates/mark-session/src/review.rs:391-394 | a review with room for a receipt can always be begun again |
| `ReviewRuns.RunKeeps` | crates/mark-session/src/review.rs:306-433 | from any good store every record of every later state satisfies the invariant and has only evolved: receipts, submissions, message ids and logged changes stay |
| `ReviewRuns.ReachableRecord` | crates/mark-session/src/review.rs:1049-1168 | every record reachable from an empty directory passes validation, has a change log without gaps and threads whose generation never exceeds the current one and equals it unless stale |
| `ReviewRuns.OpenResumes` | crates/mark-session/src/review.rs:184-249 | after any run, opening again with the same binding and source resumes the one review they have, as it stands |
| `ReviewRuns.ScanExact` | crates/mark-session/src/review.rs:217-222 | looking through the sorted directory stops at the first checkpoint that cannot be loaded, whose error is returned, or that is of this binding and source; it finds nothing exactly when all load and none matches |
| `ReviewRuns.OpenInReachable` | crates/mark-session/src/review.rs:184-249 | on every directory that satisfies the invariant, opening resumes the one review of the binding and source or starts it, as the run theorems take it |
| `ReviewRuns.VersionsImmutable` | crates/mark-session/src/review.rs:592-726 | a message id and revision that existed once has the same content wherever a later state shows it, live or in a submission |
| `ReviewRuns.SubmitAccepted` | crates/mark-session/src/review.rs:651-701 | a submit without a selection is accepted exactly when there is room and some live human version is in no submission |
| `ReviewRuns.SubmitCompletes` | crates/mark-session/src/review.rs:669-725 | afterwards every live human version is in a submission, and a second such submit is refused |
| `ReviewRuns.EditReopensSubmit` | crates/mark-session/src/review.rs:592-649 | after a successful edit some version is unsent again, so a submit is accepted while there is room |
| `ReviewRuns.DeliveredUntilAcknowledged` | crates/mark-session/src/review.rs:728-753 | through any run a submission keeps its content, and a consumer is on its list exactly when it was or acknowledged it in the run, whatever other consumers do |
| `ReviewRuns.DeliveredOnPage` | crates/mark-session/src/review.rs:992-1016 | a submission is on a consumer's page, unchanged, until that consumer acknowledges it and never after |
| `ReviewRuns.FeedLosesNothing` | crates/mark-session/src/review.rs:943-990 | a client that polls any of the states of a run and follows the cursor gets every logged change between its start and its last cursor, once and in order |
| `ReviewRuns.FeedCatchesUp` | crates/mark-session/src/review.rs:943-990 | when the last page says that nothing is left, and only then, the client has every revision up to the last state it polled; each poll brings at least one change until it has all that the first state logged |
| `ReviewRuns.FeedInOrder` | crates/mark-session/src/review.rs:943-990 | what it collects are consecutive revisions, each logged by one of those states |
| `ReviewRuns.StatesChain` | crates/mark-session/src/review.rs:306-433 | the states of a review along a run form the chain the feed theorems speak of |
| `ReviewRuns.HandleAcks` | crates/mark-session/src/review.rs:728-753 | no mutation but an acknowledgement by the consumer itself changes a submission's list |
| `ReviewEffects.EditExact` | crates/mark-session/src/review.rs:592-649 | an edit is accepted exactly for the latest live human message of a thread with a body in bounds, and changes that message's text and revision and nothing else |
| `ReviewEffects.RemoveExact` | crates/mark-session/src/review.rs:592-649 | a removal is accepted exactly for a human message; its text goes, its mark is set, all other messages stay |
| `ReviewEffects.ReplyExact` | crates/mark-session/src/review.rs:505-554 | a reply is accepted exactly with room, a message of the named thread to reply to and a good draft; it becomes that thread's last message and nothing else changes |
| `ReviewEffects.AddExact` | crates/mark-session/src/review.rs:480-503 | a comment is accepted exactly with room for a thread and a message, a valid anchor and a good draft; it opens one current thread |
| `ReviewEffects.RefreshExact` | crates/mark-session/src/review.rs:435-478 | when a refresh is accepted; the same patch changes nothing; another one starts the next generation, keeps conversations, and leaves a thread current exactly when it was and its file is retained |
| `ReviewEffects.ReanchorExact` | crates/mark-session/src/review.rs:819-867 | a reanchor is accepted exactly when every update is valid, of this generation and for an existing thread of its own, and the progress it carries is in bounds; exactly the named threads move, and the progress is updated |
| `ReviewEffects.RefreshThenReanchor` | crates/mark-session/src/review.rs:435-867 | after a refresh with another patch, a reanchor that names the stale threads makes every thread current again, each with its conversation |
| `ReviewEffects.SubmitExact` | crates/mark-session/src/review.rs:651-726 | when a submit is accepted, and that the submission is a snapshot of exactly the selected threads with unsent human text, in order |
| `ReviewEffects.AcknowledgeExact` | crates/mark-session/src/review.rs:728-753 | when an acknowledgement is accepted; only the named submission's list grows, and acknowledging again changes nothing |
| `ReviewEffects.FinishExact` | crates/mark-session/src/review.rs:755-794 | a return is accepted exactly for a known outcome, with submissions exactly when it is `submitted`, all of them of the current generation; only the last return changes |
| `ReviewEffects.SubmitThenFinish` | crates/mark-session/src/review.rs:651-794 | what was just submitted can be returned |
| `ReviewEffects.RefreshVoidsSubmissions` | crates/mark-session/src/review.rs:435-794 | after a refresh with another patch no earlier submission can be returned |
| `ReviewEffects.ProgressExact` | crates/mark-session/src/review.rs:869-913 | a progress update is accepted exactly when the parts it sets are in bounds; marking a file sets exactly that file, the other form replaces exactly the given parts |
| `ReviewEffects.ProgressTwice` | crates/mark-session/src/review.rs:869-913 | the same progress update again changes nothing |
| `ReviewEffects.DispositionExact` | crates/mark-session/src/review.rs:796-817 | exactly the named thread takes the disposition, when both exist |
| `ReviewInvariant.HandlePost` | crates/mark-session/src/review.rs:379-396 | every successful handler leaves what the completion step needs: valid threads and submissions, current threads, kept ids, and no version but new ones at the new revision |
| `ReviewInvariant.CompletePost` | crates/mark-session/src/review.rs:397-430 | counter, change-log entry and receipt together restore the whole invariant |
| `ReviewInvariant.ReanchorPost` | crates/mark-session/src/review.rs:819-867 | a reanchor, with or without progress, keeps the invariant and makes the named threads current |
| `ReviewInvariant.SubmitPost` | crates/mark-session/src/review.rs:651-726 | a submission of live threads keeps the invariant, its thread and message ids all exist |
| `ReviewInvariant.FinishPost` | crates/mark-session/src/review.rs:755-794 | a recorded return names only submissions of this generation |
| `ReviewInvariant.EvolvesTransitive` | crates/mark-session/src/review.rs:306-433 | the evolution of a record composes over a run |
| `ReviewPages.PatchPageExact` | crates/mark-session/src/review.rs:915-941 | exactly which limits and offsets are accepted; a page is the text between two character boundaries, within the limit, and moves on |
| `ReviewPages.PagesConcatenate` | crates/mark-session/src/review.rs:915-941 | from any boundary and any limit of at least four bytes, following the next offset ends without error and the pages are the rest of the patch |
| `ReviewPages.ChangesPageExact` | crates/mark-session/src/review.rs:943-990 | a full refresh is demanded exactly when a change after the cursor was evicted; otherwise the page is the next changes without a gap, as many as fit |
| `ReviewPages.FeedbackPageExact` | crates/mark-session/src/review.rs:992-1016 | a page holds exactly the submissions the consumer has not acknowledged, and each of their threads once, as the newest of them shows it |
| `ReviewPages.FirstSeenExact` | crates/mark-session/src/review.rs:992-1016 | keeping the first thread per id keeps exactly the first ones |
| `ReviewPages.NewestFirstExact` | crates/mark-session/src/review.rs:992-1016 | walking the submissions from the last finds each thread's newest snapshot first |
| `ReviewValidation.ValidateRecord` | crates/mark-session/src/review.rs:1049-1168 | the loops over hash sets accept exactly the records that the declarative predicate describes |
| `ReviewValidation.CheckThreads` | crates/mark-session/src/review.rs:1081-1119 | distinct thread ids, distinct message ids and replies that point back, decided in one pass |
| `ReviewValidation.CheckSubmissions` | crates/mark-session/src/review.rs:1120-1136 | distinct submissions whose threads and messages exist |
| `ReviewStore.ReviewStore.Mutation` | crates/mark-session/src/review.rs:306-433 | loading, updating fields in place and persisting is the state machine's step, and an error leaves the directory as it was |
| `ReviewStore.ReviewStore.ReconcileRefresh` | crates/mark-session/src/review.rs:259-284 | the read-only reconciliation computes what the run theorem speaks of |
| `ReviewStore.ReviewStore.OpenReview` | crates/mark-session/src/review.rs:184-249 | for any directory, damaged or foreign checkpoints included, the loop over the sorted ids does what opening means there |
| `ReviewStore.ReviewStore.Ids` | crates/mark-session/src/checkpoint.rs:114-132 | exactly the well-formed ids in the directory, in order |
| `ReviewStore.OneListing` | crates/mark-session/src/checkpoint.rs:114-132 | a directory has one such list |
| `ReviewStore.ReviewRecord.Refresh` | crates/mark-session/src/review.rs:435-478 | the in-place refresh, thread by thread, does what the refresh function says |
| `ReviewStore.ReviewRecord.EditOrRemove` | crates/mark-session/src/review.rs:592-649 | the shared in-place edit and removal do what the two functions say |
| `ReviewStore.ReviewRecord.Reanchor` | crates/mark-session/src/review.rs:819-867 | the loop with its set of seen ids does what the recursive function says |
| `ReviewStore.ReviewRecord.Submit` | crates/mark-session/src/review.rs:651-726 | the loop over threads builds the submission |
| `AgentView.AgentSeesSubmittedOnly` | crates/mark-mcp/src/lib.rs:625-725 | in every reachable record an agent sees of a live thread exactly the agent messages and the human messages that some submission carries as they stand |
| `AgentView.SentIsDelivered` | crates/mark-mcp/src/lib.rs:625-640 | a human version that a submission names by id and revision is there with the live text |
| `AgentView.Page` | crates/mark-mcp/src/lib.rs:774-815 | the loop returns the page from the cursor's offset, and refuses exactly a cursor of another revision or past the end |
| `AgentView.PageCountExact` | crates/mark-mcp/src/lib.rs:774-815 | a page stays within the byte budget unless it is one item, and stops only at the end, the limit or before an item that does not fit |
| `AgentView.PagesAreLossless` | crates/mark-mcp/src/lib.rs:774-815 | while the review stays at one revision, the pages are the whole list in order |
| `Framing.ReadFrame` | crates/mark-mcp/src/lib.rs:83-126 | however the input is chunked, the reader returns the next frame of the byte stream and leaves the rest of it |
| `Framing.FramesOfLines` | crates/mark-mcp/src/lib.rs:83-126 | lines written one after the other come back one by one; a line that is too long costs one frame and none after it |
| `ParallelParser.ParallelRefinesSerial` | crates/mark-diff/src/parser.rs:43-99 | for every patch, grouping and limits: what the serial parser accepts the parallel one returns; without row, file and hunk limits they agree on errors too; and the serial parser accepts exactly when the parallel one does and its running counts are within the row and hunk limits |
| `ParallelParser.LimitsAgree` | crates/mark-diff/src/parser.rs:43-99 | when the parallel parser accepts, the serial one does too exactly when the row limit also holds with the no-newline markers and the rows of binary files, and the hunk limit with the hunks of binary files |
| `ParallelParser.ParsePatch` | crates/mark-diff/src/parser.rs:19-99 | the entry point, whatever the pool size and the size threshold: the serial result, or for a large patch of several sections with threads to spare one parse under the line limit with the other limits checked on the finished files |
| `ParallelParser.DiffGitSections` | crates/mark-diff/src/parser.rs:119-169 | for every non-empty input and every number of chunks the starts found are those of one sequential scan |
| `ParallelParser.ScanChunk` | crates/mark-diff/src/parser.rs:128-153 | one chunk with its overlap finds exactly the line-start headers that begin in it |
| `ParallelParser.Starts` | crates/mark-diff/src/parser.rs:119-169 | the reference scan: exactly the line-start occurrences of the header, ascending |
| `ParallelParser.HasMultipleSections` | crates/mark-diff/src/parser.rs:101-117 | true exactly when the patch begins with a header and another one begins a later line |
| `ParallelParser.GroupSections` | crates/mark-diff/src/parser.rs:59-75 | the ranges given to the workers are non-empty, cover the patch from its first section without a gap, are cut only at section starts, and are no more than the threads |
| `ParallelParser.TasksAreWhole` | crates/mark-diff/src/parser.rs:84-96 | parsing such ranges one by one and appending gives what parsing the whole gives, errors included |
| `ParallelParser.LinesSplit` | crates/mark-diff/src/parser.rs:304-319 | lines do not cross a line start: the lines of a range are those of its two parts |
| `PatchCounts.ParsedCounts` | crates/mark-diff/src/parser.rs:198-248 | the running counts of a parsed patch are the `@@ ` lines met with a file open and the lines met in an open hunk; they exceed the finished files' hunks and rows by those of binary files and by the no-newline markers |
| `ParallelLimits.MarkerParts` | crates/mark-diff/src/parser.rs:43-83 | patches of every size whose only hunk line is a no-newline marker: under a limit of no rows the serial parser refuses them, the entry point accepts them from the size threshold on |
| `ParallelLimits.MarkerPartsLargePatches` | crates/mark-diff/src/parser.rs:43-83 | such a patch for the released threshold of 8 MiB and any pool of several threads |
| `PatchParser.ParseSplit` | crates/mark-diff/src/parser.rs:186-258 | under the line limit alone, parsing two stretches of lines of which the second begins a section is parsing both at once, errors included |
| `PatchParser.RunUnderTaskLimits` | crates/mark-diff/src/parser.rs:77-83 | a run under all limits ends normally exactly when the run under the line limit does and its counts end within the others, and then in the same state |
| `PatchParser.SectionRun` | crates/mark-diff/src/parser.rs:189-196 | from a section start the parser's run is independent of what came before, but for the files already finished |
| `ParserLoop.ParseRangeLimited` | crates/mark-diff/src/parser.rs:171-258 | the loop over lines with its builders updated in place computes the run of the line machine, limits and errors included |
| `ParserLoop.Turn` | crates/mark-diff/src/parser.rs:186-252 | one turn of the loop on the builder objects is one step of the machine |
| `ParserLoop.CheckParsedLimits` | crates/mark-diff/src/parser.rs:266-279 | the nested count loops find the first limit that the finished files exceed |
| `HeaderLines.ApplyHeaderKeeps` | crates/mark-diff/src/parser.rs:376-416 | a header line leaves a file's counts and hunks alone and sets the binary mark exactly when it is a binary marker |
| `PatchRows.ParsedHunksKeepRows` | crates/mark-diff/src/parser.rs:198-248 | every text file's additions and deletions are its Addition and Deletion rows over all hunks; the hunks of all files are stretches of the patch's lines, one after the other, each headed by its `@@ ` line, row for row with exact bytes, consecutive clamped numbers, no row but a backslash line once both sides have enough, and an end where they have, at the next header or at the end of the patch; with those of binary files there are as many hunks as `@@ ` lines met and as many rows and markers as hunk lines |
| `PatchRows.PushIsRow` | crates/mark-diff/src/parser.rs:609-651 | the pushed row has the line's kind and its exact bytes without the sign; a no-newline marker pushes nothing |
| `PatchRows.PushNumbers` | crates/mark-diff/src/parser.rs:609-666 | the new row carries the next old and new numbers |
| `PatchRows.CompleteIsMet` | crates/mark-diff/src/parser.rs:653-656 | a hunk is complete exactly when both sides have enough rows |
| `PatchRows.SideMetIs` | crates/mark-diff/src/parser.rs:581-607 | what is enough: the announced count for a start within 32 bits, less by the distance from that bound for a later start |
| `PatchModel.SpanIsExact` | crates/mark-diff/src/types.rs:862-903 | a row's span shows its exact bytes, wherever it starts; only a single row longer than 32 bits is decoded |
| `PatchModel.ChangeKeepsSides` | crates/mark-diff/src/types.rs:541-595 | which of the given paths a change shows on which side, for every status and every combination of known sides |
| `HunkHeaders.HunkHeaderBack` | crates/mark-diff/src/parser.rs:681-696 | a header written for any two ranges, with or without counts and section text, reads back as those ranges, old before new |
| `HunkHeaders.DecimalBack` | crates/mark-diff/src/parser.rs:691-696 | every number that fits a machine word reads back from its decimal digits |
| `StatSimulation.StatsSimulateParser` | crates/mark-diff/src/stats.rs:155-238 | on every patch that meets the guard, whenever the full parser accepts it the streaming counter lists the same number of files in order with the same additions, deletions and binary flags |
| `StatSimulation.GuardIsNeeded` | crates/mark-diff/src/stats.rs:173-218 | a line that breaks the guard leaves parser and counter unlinked |
| `StatOutputs.BrokenGuardShows` | crates/mark-diff/src/stats.rs:155-238 | after every guarded patch and every line that breaks the guard there are rows to add, none for a `diff --git ` row or a lone `--- ` line, after which the parser accepts the whole and lists other files than the counter: one file more, one less, or an addition more or less in the last file |
| `StatOutputs.FileRow` | crates/mark-diff/src/stats.rs:173-193 | a `diff --git ` line for the one row of a hunk: two files to the parser, one to the counter |
| `StatOutputs.RowAfterNothing` | crates/mark-diff/src/stats.rs:209-218 | the row after a hunk header that announces nothing, or starts so far past 32 bits that the parser takes it for complete: an addition to the counter, none to the parser |
| `StatSimulation.LoneMinus` | crates/mark-diff/src/stats.rs:194-207 | a patch of one `--- ` header: no file to the parser, one to the counter |
| `StatSimulation.RunLinked` | crates/mark-diff/src/stats.rs:173-224 | the link between the two machines is kept by every line of a guarded patch |
| `StatSimulation.RowLinked` | crates/mark-diff/src/stats.rs:312-336 | a row brings the counter's remaining counts and the file's counts where the parser's hunk builder is |
| `StatSimulation.TotalsAddUp` | crates/mark-diff/src/stats.rs:226-238 | the totals are the sums over the listed files |
| `PatchStats.ParsePatchStatsLossy` | crates/mark-diff/src/stats.rs:155-164 | the loop over pieces with the parser object computes the line machine's result |
| `PatchStats.PatchStatsParser.PushLineBytes` | crates/mark-diff/src/stats.rs:174-218 | one line on the parser object is one step of the line machine |
| `PatchPieces.PiecesAreLines` | crates/mark-diff/src/difftool.rs:198-210 | splitting with endings and the parser's own splitting see the same lines |
| `PatchPieces.PiecesJoin` | crates/mark-diff/src/difftool.rs:105-106 | pieces put together come apart the same way |
| `HeaderLines.LossyPrefix` | crates/mark-diff/src/stats.rs:183-188 | reading bytes lossily keeps every ASCII prefix, both ways |
| `PathRoundTrip.HeadersRoundTrip` | crates/mark-diff/src/difftool.rs:220-247 | for every UTF-8 path, the `diff --git`, `---` and `+++` headers written for it, read as bytes of a line with or without a carriage return, name it on both sides |
| `PathRoundTrip.DiffGitPathsBack` | crates/mark-diff/src/parser.rs:433-478 | the `diff --git` line written for a path names it on both sides, plain or quoted |
| `PathRoundTrip.QuotedTokenBack` | crates/mark-diff/src/parser.rs:505-578 | a quoted path, octal escapes included, reads back as the path and what follows the closing quote |
| `PathRoundTrip.QuoteGitPath` | crates/mark-diff/src/difftool.rs:224-247 | the quoting loop computes the quoting function |
| `PathRoundTrip.ParseQuotedToken` | crates/mark-diff/src/parser.rs:505-529 | the decoding loop computes the decoding function, failures included |
| `PathRoundTrip.PushOctalEscape` | crates/mark-diff/src/parser.rs:561-578 | the three-digit loop, and the replacement character for a value past a byte |
| `PathRoundTrip.UnifiedHeadersBack` | crates/mark-diff/src/parser.rs:399-415 | the two side headers set exactly their side's path |
| `DifftoolMeaning.RewriteKeepsMeaning` | crates/mark-diff/src/difftool.rs:99-196 | parsing the rewritten patch gives the original's files in order, hunk for hunk and row for row with the same bytes, line numbers, counts and binary flags, without some files that had no hunk, no count and no binary mark |
| `DifftoolMeaning.RewriteIsIdempotent` | crates/mark-diff/src/difftool.rs:99-196 | rewriting a rewritten patch with the same display path changes nothing |
| `DifftoolMeaning.SectionMeans` | crates/mark-diff/src/difftool.rs:108-175 | a section means the same after rewriting, or it meant one empty file and is gone |
| `DifftoolMeaning.BodyMeans` | crates/mark-diff/src/difftool.rs:125-172 | before the first hunk header a rewritten or dropped line does to the file what the original did, apart from paths |
| `DifftoolMeaning.RewrittenPieces` | crates/mark-diff/src/difftool.rs:99-177 | the rewritten bytes come apart into exactly the rewritten lines |
| `DifftoolPaths.RewrittenFileHasDisplayPath` | crates/mark-diff/src/difftool.rs:99-177 | a one-file section without rename or copy headers parses after rewriting to one file whose status is what its header lines lead to in order; a side has the display path, whatever characters it has, exactly when its last header is not null or the status shows it for the other one, and no other path |
| `DifftoolPaths.RewrittenFileIsModified` | crates/mark-diff/src/difftool.rs:99-177 | it is a modified file with the display path on both sides exactly when no header line marks it as added, deleted, null or of another type |
| `DifftoolPaths.NullStaysNull` | crates/mark-diff/src/difftool.rs:130-152 | the parser reads a rewritten side header as null exactly when the bytes after its prefix were /dev/null |
| `DifftoolPaths.OtherNullSpellings` | crates/mark-diff/src/parser.rs:399-415 | a quoted null path and one before a tab: null to the parser before rewriting and not after it |
| `Difftool.RewriteDifftoolPatchPaths` | crates/mark-diff/src/difftool.rs:99-177 | the loop with its section buffer computes the rewriting function |
| `Difftool.DifftoolPatchSection.Add` | crates/mark-diff/src/difftool.rs:125-172 | one line on the section buffer |
| `PatchMeaning.ParseMeans` | crates/mark-diff/src/parser.rs:171-258 | what a parsed patch means depends on the contents of its lines alone, not on where they stand |
| `PatchMeaning.FilesSplit` | crates/mark-diff/src/parser.rs:186-258 | a patch of sections means what its sections mean, one after the other |
| `HintCodes.HintCodesExact` | crates/mark-tui/src/annotation.rs:383-438 | exactly as many hints as targets, none a prefix of another, of two adjacent lengths at most |
| `HintOptimality.HintCodesOptimal` | crates/mark-tui/src/annotation.rs:402-410 | against every prefix-free code of as many non-empty words over the alphabet: none has fewer letters in all, none a shorter longest word, and none of that depth more words below it |
| `HintOptimality.HintsAreCode` | crates/mark-tui/src/annotation.rs:383-438 | the hints are such a code themselves |
| `HintOptimality.Kraft` | crates/mark-tui/src/annotation.rs:402-410 | the words of a prefix-free code have together no more leaves below them than the full tree of any depth |
| `HintCodes.CompleteHintSelectsOne` | crates/mark-tui/src/annotation.rs:383-438 | a hint typed to its end is a prefix of exactly one list entry |
| `HintCodes.PlanFits` | crates/mark-tui/src/annotation.rs:388-413 | depth and number of short hints leave room for every target, and one more short hint would not |
| `HintCodes.DigitsInjective` | crates/mark-tui/src/annotation.rs:440-448 | numerals of one width are equal only for equal indices |
| `HintCodes.FixedWidthHint` | crates/mark-tui/src/annotation.rs:440-448 | the digit loop computes the numeral |
| `HintCodes.DefaultKeysDistinct` | crates/mark-tui/src/annotation.rs:388-391 | the alphabet used when too few keys are configured has distinct keys |
| `HintCodes.AnnotationHintCodes` | crates/mark-tui/src/annotation.rs:383-438 | the loops compute the machine's code for every count and every set of keys, with the saturating product |
| `HintCodes.MachineCodesExact` | crates/mark-tui/src/annotation.rs:383-438 | for every count that fits a machine word the hints are never prefixes of one another, and there are as many as targets exactly when the full tree's size fits a word or the divisions of the saturated product lose nothing |
| `HintCodes.MachineCodesFit` | crates/mark-tui/src/annotation.rs:383-438 | while the full tree's size fits a word they are the code of `HintOptimality.HintCodesOptimal` |
| `HintCodes.MostCodesFit` | crates/mark-tui/src/annotation.rs:383-438 | it does for as many keys and targets as 32 bits can count |
| `HintCodes.SevenKeys` | crates/mark-tui/src/annotation.rs:393-410 | seven keys and the largest count: one hint too few |
| `StyleCache.CacheIsInvisible` | crates/mark-syntax/src/scope_table.rs:73-200 | any interleaving of pushes and lookups returns what direct resolution returns; both slots stay as long as the stack table; every lookup is one hit or one miss |
| `StyleCache.FreshResolvesOnce` | crates/mark-syntax/src/scope_table.rs:160-200 | from a fresh table, a run with at most two non-zero themes resolves each pair in range at most once |
| `StyleCache.ResolvesOnce` | crates/mark-syntax/src/scope_table.rs:160-200 | the same from any settled cache, and nothing already cached is resolved |
| `StyleCache.ThemesThatStay` | crates/mark-syntax/src/scope_table.rs:160-200 | every run over a set of themes resolves each pair at most once exactly when the set has one theme, or two that are not 0 |
| `StyleCache.ThirdThemeEvicts` | crates/mark-syntax/src/scope_table.rs:168-180 | any three themes other than 0, the first one again: it is resolved twice |
| `StyleCache.ThemeZeroEvicts` | crates/mark-syntax/src/scope_table.rs:160-180 | theme 0 and any other, theme 0 again: it is resolved twice |
| `StyleCache.HighlightScopeTable.Push` | crates/mark-syntax/src/scope_table.rs:73-95 | the table grows by the token and both slots by one empty entry |
| `StyleCache.HighlightScopeTable.ResolveStyle` | crates/mark-syntax/src/scope_table.rs:160-200 | the in-place lookup leaves the cache and returns the style that the cache function says |
| `Utf8.CutAtBoundary` | crates/mark-session/src/review.rs:915-941 | valid text cut at a character boundary falls into two valid texts |

## Left out

- JSON: requests, records and replies are typed values; malformed JSON, missing parameters and unknown fields are not modelled, nor are the byte caps on encoded records, `schema_version`, timestamps and legacy receipts without a client fingerprint.
- The checkpoint directory: file permissions, symbolic links, locking and the atomic write are one atomic step per store operation; `list` and `get` add nothing to `load`.
- ReviewStore.ReviewStore.OpenReview: does not check that the repository is a directory; `canonicalize` is a parameter.
- ReviewValidation.ValidateRecord: says whether a record is accepted, and a refused one loads as `InvalidCheckpoint`; the source's error code also says which field was wrong.
- StatOutputs.BrokenGuardShows: asks that the patch with the added rows fits memory; a hunk that waits for more rows than that parts nothing.
- PatchRows.ParsedHunksKeepRows: counts the hunks and rows of binary files, which the parser drops, and says nothing else about them.
- DifftoolPaths.RewrittenFileHasDisplayPath: leaves sections with rename or copy headers open, which the rewriter copies unchanged.
- The parser object of the stat counter keeps paths, but the simulation compares counts and flags only: renamed and copied paths are read differently by the two machines.
- Threads: the chunks of the section scan and the groups of sections run one after the other here.
- `max_patch_bytes`, counting from a buffered reader (`parse_patch_stats` feeds the same lines), reading from a child process and the difftool's own Git call; `is_binary` beyond the two header lines.
- MCP: handshake, tool schemas, error wording and `project_feedback`; `page` is modelled over items whose encoded sizes are given.
- `DiffLineText` beyond its bytes: conversion to owned text in place and memory estimates.
- The TUI, the syntax tokenizer, the command line, Git plumbing and benchmarks.
