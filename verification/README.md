# A verified model of the conversation core, migrations and sweep protocol

This project models the parts of the chat server whose correctness rests on more than one function, and proves what
they are for:

- **Conversation core** (`api/app/clients/BaseClient.js`): rebuilding a thread from parent pointers, stopping at a
  summary, scanning for the previous summary, pruning to a token budget, merging an edited response with a streamed
  completion, counting tokens, and re-sending the files of earlier messages.
- **Duplicate file names** (`config/migrate-code-file-duplicates.js`): renaming duplicates until the unique index
  can be built.
- **Retention sweep in the cluster** (`api/server/experimental.js`): electing one worker among processes that start,
  listen, die and are replaced.
- **Shared-link permissions** (`config/migrate-shared-link-permissions.js`): batched upserts that may fail in part,
  before a destructive removal.
- **Violations and bans** (`api/cache/logViolation.js`, `api/cache/banViolation.js`): a non-atomic counter and the
  threshold test behind it.
- **Batched flag reset** (`api/db/utils.js`) and **connection-string parsing** (`e2e/setup/start-server.js`).

The database is a sequence or a map. Whatever the surroundings decide is left open and quantified over: the order in
which a query lists groups, which matching documents a page holds, which operations of a bulk write fail and which its
error lists, when a write throws or a run is killed, how concurrent calls and cluster events interleave, and what the clock says. The tokenizer, `Number` and
percent-decoding are function parameters.

Where the source updates variables or objects step by step, a class or a loop does so here and its contract ties it to
a function on values; the lemmas are about that function. For each of these functions some lemma states its meaning on
the fields, characters or counts of its inputs alone, without the functions it is made of.

## Findings

- **Split keys.** The duplicate migration groups records by their raw fields, where a missing `conversationId` or
  `tenantId` differs from a null one, but the unique index takes both as null. An error-free live run lets the
  index build if and only if no two code files agree on the index key while differing on the raw one
  (`IndexBuildsIffNoSplitKeys`, with a two-record example in `SplitKeysBlockTheIndex`). The script's promise to
  heal every duplicate holds exactly then.
- **A dead successor.** Node removes a worker from `cluster.workers` once it has both exited and disconnected, in
  either order. Handling a sweeper's exit leaves the role with a reaped process if and only if no other connected worker
  listens and the newest connected process is the sweeper itself or already reaped, even when an older live worker is
  connected (`HandOverFailsIff`; a reachable case in `DeadSweeperIsReachable`). The record then stays, with no live
  worker holding the role, until a worker fills the house by listening after the dead process's channel has closed;
  nothing else moves it (`DeadRecordMovesIff`, `DeadRecordLastsUntilTakenOver`). A full house does not
  (`FullHouseWithDeadSweeper`), and neither does the closing of the channel, since no handler reacts to it
  (`FullHouseWithDepartedSweeper`). At most one live sweeper is proved without any assumption on the order of exit and
  disconnection.
- **Lost violations.** Concurrent calls can lose updates and with them a ban (`UpdatesCanBeLost`). The stored count is
  the sum of the scores written exactly when no write with a score went unseen (`CountIsWhatWasSeen`). For positive
  scores that is when no write lands between another call's read and its write (`CountExactIffNoOverlap`), and that is
  also exactly when every multiple up to the sum is taken by some call, whatever the interval
  (`AllMultiplesTakenIffNoOverlap`); without overlap each is taken by one call only (`NoOverlapBansEachMultiple`). For a
  given interval a multiple is taken, and so banned for, if and only if the count stood at it at some point
  (`MultipleTakenIffReached`, `EveryMultipleReachedIsBanned`).
- **Silently dropped links.** The shared-link migration marks as failed the links its error's `writeErrors` lead to. A
  link is left unmarked, and so without its `isPublic` field, while lacking a grant if and only if one of its operations
  was not applied, the error carries a list, and none of the link's operations is in it (`NoPublicLinkIsLost`, with an empty list in
  `EmptyReportLosesALink`). Repeating the run then makes up for it exactly when the public entry was not among the
  missing ones or already stood as it should (`FailedRunCanBeRepeated`). With complete lists neither loss occurs
  (`CompleteReportsLoseNothing`, `CompleteReportsCanBeRepeated`), and a run that stops before the removal can always be
  repeated (`StoppedRunCanBeRepeated`).
- **A query taken for a path.** A connection string whose query follows the hosts directly can have a database read
  out of its query (`QueryIsMistakenForPath`); `mongodb://h?a=/x` reads as the database `x` (`QueryMistakenExample`).

Where the code and its comments differ, the model follows the code: the walk puts a summary into the message's
`content`, not its `text`; a ban fires when the count crosses a multiple of the interval, not only on reaching one; and
in the shared-link migration any `isPublic` other than false, null included, counts as public.

## Model

| member | source | states |
|---|---|---|
| ConversationThread.FindSummaryContentBlock | api/app/clients/BaseClient.js:1071-1085 | the front-to-back loop returns the block the specification picks: the last summary that is not blank |
| ConversationThread.LastSummaryWins | api/app/clients/BaseClient.js:1070-1085 | a summary part with no later non-blank summary is the one found |
| ConversationThread.NoSummaryNoBlock | api/app/clients/BaseClient.js:1072-1084 | nothing is found exactly when no part is a non-blank summary |
| ConversationThread.SummaryTextOnFields | api/app/clients/BaseClient.js:1060-1068 | a summary's text is its string, its blocks' texts in order with missing ones left out, or its own text |
| ConversationThread.HasSummaryOnFields | api/app/clients/BaseClient.js:1071-1101 | a message has a summary exactly when its legacy one is not empty or some summary part's text is not all white space |
| ConversationThread.FindIsFirst | api/app/clients/BaseClient.js:1130-1133 | of several messages with one id the first in the list is taken |
| ConversationThread.WalkIsTheMaximalChain | api/app/clients/BaseClient.js:1122-1175 | on any parent graph, with cycles and missing parents, the walk is the one chain of distinct ids from the requested message that cannot be extended: a path is the walk if and only if it is that chain |
| ConversationThread.WalkFollowsParents | api/app/clients/BaseClient.js:1122-1175 | on the messages' own fields: a path is the walk if and only if each message is the first one called what the message before names as its parent, none is called the same, and it ends only at a missing, empty or no-parent link, a parent that does not exist, or one already in the path |
| ConversationThread.SummaryWalkIsCut | api/app/clients/BaseClient.js:1143-1171 | with summaries on, the walk is the full walk cut at its newest message with a summary |
| ConversationThread.SummaryModeCutsTheThread | api/app/clients/BaseClient.js:1141-1178 | the returned thread with summaries on is the one with them off, cut there, its head in summary form and every later entry the same, under any map method and condition |
| ConversationThread.GetMessagesForConversation | api/app/clients/BaseClient.js:1111-1179 | the loop with its visited set ends and returns the walk, oldest first, each message resolved and mapped on its own |
| ConversationThread.ThreadEntries | api/app/clients/BaseClient.js:1165-1167 | each entry is the map method's value where there is one and the condition, if any, holds, and the message itself otherwise |
| ConversationThread.RecordMatchesForm | api/app/clients/BaseClient.js:1085-1104 | the remembered summary and the summary message carry one text and one token count, except a legacy summary without a count of its own; nothing else of the message changes |
| ConversationThread.HistoryScanFindsTheCut | api/app/clients/BaseClient.js:899-931 | the message the backwards scan stops at is exactly the one the summary walk is cut at, for every map method that leaves content and summary alone |
| ConversationThread.Client.LoadHistory | api/app/clients/BaseClient.js:885-944 | returns the full mapped thread and sets the previous summary to the record of its last summarised message, or leaves it |
| TokenBudget.GetMessagesWithinTokenLimit | api/app/clients/BaseClient.js:514-556 | the pop-and-push loop returns the split at the specified cut, instructions first, for all inputs including missing counts and an empty list |
| TokenBudget.NothingLost | api/app/clients/BaseClient.js:544-555 | context and messages to refine together are the input in order; priming, kept and remaining tokens add up to the budget, which kept messages never exceed; of an empty list only an undefined entry for instructions is kept |
| TokenBudget.PrunedEntries | api/app/clients/BaseClient.js:532-555 | entry by entry, what the context and the list to refine hold, for an empty input too |
| TokenBudget.TokensAreTheSum | api/app/clients/BaseClient.js:530-535 | the tokens counted are the sum of the messages' counts, and not a number as soon as one is missing |
| TokenBudget.KeepsLongestUnlessFull | api/app/clients/BaseClient.js:525-542 | the kept suffix is the longest that fits if and only if it is not the case that the budget is used to the last token and the next message has none |
| TokenBudget.KeepsLongestSuffix | api/app/clients/BaseClient.js:526-539 | any longer suffix that fits only adds zero-token messages to a full budget |
| TokenBudget.LargerBudgetKeepsMore | api/app/clients/BaseClient.js:525-542 | a larger budget never keeps fewer messages |
| EditedContent.PartsLandAtOffset | api/app/clients/BaseClient.js:1297-1350 | completion part i lands, rebased, at i + offset; everything before the last retained part stays; the length is the sum, less one exactly when the first parts fuse |
| EditedContent.FusesExactlyWhen | api/app/clients/BaseClient.js:1284-1291 | the merged list is one part shorter than both if and only if the last and first parts are both of the edited type, text or reasoning, and, for text, of equal phase, both missing included |
| EditedContent.FusedPartJoinsBoth | api/app/clients/BaseClient.js:1319-1346 | the fused part is the retained one with both texts joined; fused reasoning has the new label fields if they name a step and none otherwise |
| EditedContent.UnfusedPartsMove | api/app/clients/BaseClient.js:1297-1313 | every other part lands shifted by the growth in length and unchanged, but for the bounds of activity labels of type phase with a numeric start |
| EditedContent.LabelsKeepTheirMeaning | api/app/clients/BaseClient.js:1292-1313 | a rebased phase label denotes the same parts as before, and an end at the completion's length becomes the merged length |
| EditedContent.LabelsSurviveEdits | api/app/clients/BaseClient.js:1298-1350 | over any sequence of edits all phase labels stay in bounds, the content never shrinks, and a stored label is never changed |
| EditedContent.MergeConservesStreams | api/app/clients/BaseClient.js:1282-1350 | whatever is edited, each phase's text, the unphased text, all text taken together and the reasoning are those retained followed by those of the completion |
| EditedContent.EditsConserveStreams | api/app/clients/BaseClient.js:1274-1350 | over any sequence of edits each of these is the retained one followed by everything streamed, in order |
| EditedContent.FusedTextKeepsItsPhase | api/app/clients/BaseClient.js:1284-1331 | a fused text part has the phase both sides shared and otherwise only its text changed |
| EditedContent.LabelsDescribeLatestText | api/app/clients/BaseClient.js:1332-1346 | after any sequence of edits every reasoning part ends with the text of one original part and has that part's label, or none if that part has no step: no label outlives its text |
| TokenCounter.Counter.ProcessValue | api/app/clients/BaseClient.js:1206-1254 | the recursive procedure adds the recursive sum of the value to the running total |
| TokenCounter.Counter.GetTokenCountForMessage | api/app/clients/BaseClient.js:1195-1265 | the total is the per-message constant, the sum over the fields, and the name constant for a name field |
| TokenCounter.CountIsAdditive | api/app/clients/BaseClient.js:1207-1246 | the count of two lists laid end to end is the sum of their counts |
| TokenCounter.InsertedItemAdds | api/app/clients/BaseClient.js:1208-1244 | what one item anywhere in a list adds: nothing for the passed-over types and falsy values, name, arguments and output of a tool call, and else its own value |
| TokenCounter.PlainValueCounts | api/app/clients/BaseClient.js:1207-1253 | what a field that is a string, number, boolean or list counts |
| TokenCounter.InsertedFieldAdds | api/app/clients/BaseClient.js:1195-1263 | a message starts from 3 tokens, or 4 for one model; any field adds its value's count, and a name 1 more, or 1 less for that model |
| TokenCounter.CountIgnoresOrder | api/app/clients/BaseClient.js:1207-1246 | permuting a list's parts keeps the count |
| TokenCounter.OnlyModelInputIsCounted | api/app/clients/BaseClient.js:1209-1219 | values that differ only in think, error, activity-label, image or untyped parts, at any depth, count the same |
| TokenCounter.InsertedPartsAreStripped | api/app/clients/BaseClient.js:1209-1219 | inserting such parts anywhere in a list is such a difference |
| TokenCounter.FieldsIgnoreOrder | api/app/clients/BaseClient.js:1256-1263 | messages with the same fields in any order have the same total |
| Attachments.RehydrateMessageFileRefs | api/app/clients/BaseClient.js:132-156 | the loop returns the rebuilt list, or none when nothing is left |
| Attachments.RebuiltIsAuthorised | api/app/clients/BaseClient.js:114-147 | a rebuilt reference is the authorised record without private fields and with the message's own ids, or a display-only entry without an id |
| Attachments.RebuiltOnFields | api/app/clients/BaseClient.js:132-147 | field by field, a reference to an authorised file is its record without text and internal ids and with the message's own ids; any other with an id is dropped |
| Attachments.DisplayOnlyOnFields | api/app/clients/BaseClient.js:114-130 | field by field, a reference without an id keeps its display fields, tool payloads and tool type, and is dropped if it has none |
| Attachments.RebuildingKeepsOrder | api/app/clients/BaseClient.js:132-156 | references are rebuilt one by one, in order |
| Attachments.SurvivorsAreAuthorised | api/app/clients/BaseClient.js:132-156 | every surviving reference is an authorised one or a display-only entry, and the ids that survive are exactly the authorised ids referred to |
| Attachments.OnlyOwnedFiles | api/app/clients/BaseClient.js:1546-1559 | the authorised records are exactly those of ids in the history that the user owns in the user's tenant |
| Attachments.FilesAreTheUsersOwn | api/app/clients/BaseClient.js:72-86 | on the records' fields: an id is authorised if and only if some record of it has the signed-in user's id, and tenant if there is one, and the history mentions it; its file is such a record |
| Attachments.LastRecordCounts | api/app/clients/BaseClient.js:1552-1556 | of several such records with one id the last counts |
| Attachments.ContextsHoldOwnFiles | api/app/clients/BaseClient.js:1546-1585 | every file in a context is a record of the user's own, on its fields |
| Attachments.RebuiltAreTheUsersOwn | api/app/clients/BaseClient.js:132-156 | every rebuilt reference with an id stands for such a record and for one the message named |
| Attachments.CollectTakesTheNew | api/app/clients/BaseClient.js:1573-1585 | a message contributes each authorised file it names that was not seen, once, and marks it seen |
| Attachments.CollectingKeepsOrder | api/app/clients/BaseClient.js:1573-1585 | a message's files are taken in order |
| Attachments.ContextsByFirstMention | api/app/clients/BaseClient.js:1535-1585 | the contexts of all messages, in order, hold exactly the files first named there |
| Attachments.EachFileOnceAtFirstMention | api/app/clients/BaseClient.js:1535-1585 | across the history an authorised file is placed in at most one context, that of the first message whose files name it, and in one if and only if it is named and not among the current turn's attachments; this exclusion needs those ready, for while they are pending nothing counts as attached |
| Attachments.ContextFilesAreOwned | api/app/clients/BaseClient.js:1547-1583 | a file in any context is a stored record of the signed-in user |
| Attachments.Client.CollectHistoricalFileIds | api/app/clients/BaseClient.js:39-70 | the ids collected are those in files, attachments and steer parts of all messages |
| Attachments.Client.AddPreviousAttachments | api/app/clients/BaseClient.js:1530-1635 | the pass over the message objects leaves each as specified, records each context under its message, and does nothing when files are not re-sent |
| Attachments.ProcessedOnFields | api/app/clients/BaseClient.js:1565-1628 | a message with neither list is left alone; any other loses its file context and gets its two lists rebuilt, display-only entries in attachments only, or none |
| Attachments.FileMapHoldsLast | api/app/clients/BaseClient.js:1608-1617 | under a message id the map holds the context of the last message of that id that has one |
| FreshNames.SuffixInjective | config/migrate-code-file-duplicates.js:26-30 | for every file name, with or without extension or slashes, different numbers give different names |
| FreshNames.SuffixKeepsExtension | config/migrate-code-file-duplicates.js:25-30 | a name with an extension keeps it after the number |
| FreshNames.SuffixWithoutExtension | config/migrate-code-file-duplicates.js:25-30 | a name without an extension gets the number at its end |
| FreshNames.SuffixInserts | config/migrate-code-file-duplicates.js:26-30 | in every name that does not end with a slash the number is inserted in parentheses and nothing else changes |
| FreshNames.ExtensionOfPath | config/migrate-code-file-duplicates.js:27 | the extension is what follows the last dot of the last path segment, slashes at the end not counting |
| FreshNames.NoExtension | config/migrate-code-file-duplicates.js:27 | a segment without a dot, or whose only dot starts it, has no extension |
| FreshNames.Pigeonhole | config/migrate-code-file-duplicates.js:39-41 | a finite set cannot hold more than its size of the candidates |
| FreshNames.NextAvailableName | config/migrate-code-file-duplicates.js:38-46 | the unbounded search ends within one more try than there are taken names, returns the first free candidate and reserves it |
| CodeFileDuplicates.NewestFirstSorts | config/migrate-code-file-duplicates.js:118-120 | the sort is descending by the `createdAt` field itself, a missing one counting as 0, and keeps the entries |
| CodeFileDuplicates.NewestFirstIsStable | config/migrate-code-file-duplicates.js:118-120 | entries of one time keep their order |
| CodeFileDuplicates.AssignNamesFresh | config/migrate-code-file-duplicates.js:134-141 | the names given to a group are free in the scope and different from each other |
| CodeFileDuplicates.NamesAreFirstFree | config/migrate-code-file-duplicates.js:38-46 | each stale file gets the first numbered form of the group's own name that is neither in use nor given before |
| CodeFileDuplicates.ScopeOnFields | config/migrate-code-file-duplicates.js:123-133 | the names in use are those of the code files of the group's conversation and tenant, missing counting as null |
| CodeFileDuplicates.TurnStopsAtTheFault | config/migrate-code-file-duplicates.js:143-147 | an error leaves exactly the renames before it done |
| CodeFileDuplicates.TurnIsOk | config/migrate-code-file-duplicates.js:115-147 | one group's turn changes nothing but names of its stale files, to names unused in the scope, and all of them unless an error cuts it short |
| CodeFileDuplicates.RunChangesOnlyStaleNames | config/migrate-code-file-duplicates.js:115-164 | whatever errors occur, records, ids, order and other fields stay, only stale members of groups are renamed, and files that collide afterwards are unchanged and collided before |
| CodeFileDuplicates.RunSuffixes | config/migrate-code-file-duplicates.js:115-164 | over a whole run a file's name is the one it had or a numbered form of it |
| CodeFileDuplicates.NewestKeepsItsName | config/migrate-code-file-duplicates.js:117-121 | in every run the file that keeps a group's name is untouched, and no member has a later `createdAt` |
| CodeFileDuplicates.KeysSurvive | config/migrate-code-file-duplicates.js:117-121 | every key in use stays in use, on a record that had it before |
| CodeFileDuplicates.IndexBuildsIffNoSplitKeys | config/migrate-code-file-duplicates.js:97-164 | after an error-free live run the unique index builds if and only if no key was split between a missing and a null field |
| CodeFileDuplicates.IndexBuildsOnFields | config/migrate-code-file-duplicates.js:18-23 | the same on the records' fields: no two code files agree then on name, conversation and tenant, null and missing being one, if and only if any two that did before agreed exactly |
| CodeFileDuplicates.GroupsOnFields | config/migrate-code-file-duplicates.js:97-111 | two code files are in one group exactly when the three fields are the same, null and missing being two |
| CodeFileDuplicates.SplitKeysBlockTheIndex | config/migrate-code-file-duplicates.js:97-133 | two records of one name, one with a missing and one with a null conversation, form no group and block the index |
| CodeFileDuplicates.SecondRunFindsNothing | config/migrate-code-file-duplicates.js:97-111 | after an error-free live run a second run finds no group and writes nothing |
| CodeFileDuplicates.RerunRecovers | config/migrate-code-file-duplicates.js:143-163 | after a run cut short anywhere and repeated without errors the index builds under the same condition on the first store |
| CodeFileDuplicates.RerunKeepsNewest | config/migrate-code-file-duplicates.js:115-163 | the two runs together leave each key on exactly one record, one of its newest, untouched by both |
| CodeFileDuplicates.RerunChangesOnlyOutdone | config/migrate-code-file-duplicates.js:115-163 | the two runs together change only names, and only of files with another of their key at least as new |
| CodeFileDuplicates.RenamedIsWhatChanged | config/migrate-code-file-duplicates.js:136-149 | the reported number of renamed files is the number of records an error-free live run changes |
| CodeFileDuplicates.CountersAdd | config/migrate-code-file-duplicates.js:149-164 | a group adds one error if it is cut short, and else its files less one to the renamed |
| CodeFileDuplicates.Migration.Run | config/migrate-code-file-duplicates.js:72-195 | the script's database and counters after a run, dry or live; the index is reported built exactly for a live run without errors, those of the index build included, on a store without split keys |
| SweepWorker.SweepStartsOnceAtTheJoin | api/server/experimental.js:256-337 | however assignments and config loads interleave, the sweep starts exactly when both have arrived, once, with the options in force then |
| SweepWorker.Process.StartExpiredFileSweepOnce | api/server/experimental.js:265-272 | the guarded start as a step on the flags |
| SweepWorker.Process.OnMessage | api/server/experimental.js:275-281 | the message handler as a step on the flags |
| SweepMaster.ElectionOutcome | api/server/experimental.js:168-176 | an election fails only when nobody is connected and otherwise picks the newest connected listener, or the newest connected worker when none listens |
| SweepMaster.Master.AssignRetentionSweepWorker | api/server/experimental.js:163-183 | the assignment as a step on the master's variables, with the worker the message goes to |
| SweepMaster.Master.OnListening | api/server/experimental.js:212-220 | the listening handler as a step on the master's variables |
| SweepMaster.Master.OnExit | api/server/experimental.js:222-234 | the exit handler as a step on the master's variables |
| SweepCluster.StepKeepsInv | api/server/experimental.js:158-281 | every step of the protocol keeps the invariant on counts, roles and flags |
| SweepCluster.AtMostOneSweeper | api/server/experimental.js:163-234 | in every reachable state at most one live worker was given the role and at most one is sweeping; nobody starts twice or without the role; a live holder was sent it once and is on record |
| SweepCluster.HolderSweepsOnceReady | api/server/experimental.js:256-337 | a live holder with an empty channel sweeps if and only if its config is loaded |
| SweepCluster.WorkerCounts | api/server/experimental.js:186-234 | processes still to be reaped always number the configured workers, listeners are among those online, and the active counter lags by those that died before coming online |
| SweepCluster.SentIsReceivedOrInFlight | api/server/experimental.js:178-281 | over any run the assignments sent to a worker are those it received and those still in flight |
| SweepCluster.RoleIsGivenWhenAllAreUp | api/server/experimental.js:212-220 | a worker starting to listen gives the role away exactly when as many as configured listen or are online |
| SweepCluster.FullHouseHasSweeper | api/server/experimental.js:212-220 | whenever all workers listen the role is given, to one of them if exits are prompt |
| SweepCluster.HandOver | api/server/experimental.js:222-228 | handling the sweeper's exit passes the role in that step to a connected worker if there is one, to another listener if one is connected |
| SweepCluster.PromptHandOver | api/server/experimental.js:222-228 | with prompt exits the successor is another process whose own exit is still to come, sent the role once |
| SweepCluster.RoleStaysUntilExit | api/server/experimental.js:163-234 | over any continuation in which the sweeper's own exit is not handled it stays on record and is not sent the role again, whoever else exits, listens or is forked |
| SweepCluster.HandOverFailsIff | api/server/experimental.js:163-228 | handling the sweeper's exit leaves the role with a reaped process if and only if no other connected worker listens and the newest connected process is the sweeper or already reaped; no unreaped process then has it |
| SweepCluster.DeadRecordMovesIff | api/server/experimental.js:163-228 | a step moves the record of a reaped sweeper if and only if it is a worker's listening that fills the house with the dead process disconnected |
| SweepCluster.DeadRecordLastsUntilTakenOver | api/server/experimental.js:163-234 | after any continuation a reaped sweeper is still on record if and only if it holds no such step, and while it is no live worker has the role |
| SweepCluster.FullHouseWithDepartedSweeper | api/server/experimental.js:163-234 | a run in which all workers listen, the recorded sweeper is dead and disconnected, and nobody live has the role |
| SweepCluster.FullHouseRecordsAListenerIff | api/server/experimental.js:163-220 | a worker whose listening fills the house leaves the role with a listener if and only if it was not recorded for a reaped process with an open channel |
| SweepCluster.FullHouseWithDeadSweeper | api/server/experimental.js:199-234 | a run in which all workers listen while the role is recorded for a reaped process and nobody live has it |
| SweepCluster.DeadSweeperIsReachable | api/server/experimental.js:199-228 | a state in which the hand-over fails is reachable: the only worker comes online, listens and dies before its channel closes |
| SweepCluster.HolderCanSweep | api/server/experimental.js:256-337 | from any reachable state a live holder sweeps after its message is delivered and its config loaded, whichever is still to come |
| SharedLinkMigration.BulkWriteEffect | config/migrate-shared-link-permissions.js:233-235 | an unordered bulk write upserts exactly the operations applied and touches no other entry |
| SharedLinkMigration.BatchIsProcessed | config/migrate-shared-link-permissions.js:153-236 | however a batch fails, the entries of the applied operations are upserted and no other entry changes |
| SharedLinkMigration.UnmarkedIffDropped | config/migrate-shared-link-permissions.js:236-257 | a link lacks a grant without being marked failed if and only if an operation of its was not applied and a list of write errors names none of its operations |
| SharedLinkMigration.ChunksCoverOnce | config/migrate-shared-link-permissions.js:261-289 | every link is in exactly one batch, in cursor order, for every batch size |
| SharedLinkMigration.ChunkSizes | config/migrate-shared-link-permissions.js:261-289 | every batch but the last has exactly the size asked for, at least one link |
| SharedLinkMigration.MigrateEffect | config/migrate-shared-link-permissions.js:153-302 | however far the run gets, it upserts exactly the entries its batches applied, and removes the field exactly from links neither marked failed nor missed by the removal |
| SharedLinkMigration.OnlyDerivedGrants | config/migrate-shared-link-permissions.js:164-228 | for every run, an entry that is new or changed belongs to a link of the database, and to that link's own user, or to everybody if it is marked public, with the role and fields the source gives it; all others are as they were |
| SharedLinkMigration.ErrorsOfABatch | config/migrate-shared-link-permissions.js:233-258 | a failed batch counts an error per entry of the list, or per link without one, and none if it had nothing to write |
| SharedLinkMigration.NoPublicLinkIsLost | config/migrate-shared-link-permissions.js:164-302 | a link lacks a grant although the removal was not kept from it if and only if its batch dropped it silently; every other link keeps its field or has every grant, with role, owner, expiry and tenant, and a public one ends with a viewer entry or its field |
| SharedLinkMigration.CompleteReportsLoseNothing | config/migrate-shared-link-permissions.js:236-302 | when every list of write errors is complete no link loses its field without every grant |
| SharedLinkMigration.EmptyReportLosesALink | config/migrate-shared-link-permissions.js:236-257 | an error with an empty list strips a public link of its field without leaving an entry |
| SharedLinkMigration.PrivateLinksStayPrivate | config/migrate-shared-link-permissions.js:197-228 | a link not marked public never gains or changes a public entry |
| SharedLinkMigration.BatchSizeDoesNotMatter | config/migrate-shared-link-permissions.js:261-302 | runs without failures agree for all batch sizes |
| SharedLinkMigration.FailedRunCanBeRepeated | config/migrate-shared-link-permissions.js:52-302 | a run that failed in its writes, was stopped at any batch or in the removal, followed by one without failures, gives what a single run without failures gives if and only if it aborted or took the field from no public link that is without the entry the upsert would make |
| SharedLinkMigration.StoppedRunCanBeRepeated | config/migrate-shared-link-permissions.js:52-302 | a run that an exception or a kill stops before the removal, its last batch applied in part or not, can always be repeated to that result |
| SharedLinkMigration.FailuresDoNotAddUp | config/migrate-shared-link-permissions.js:52-302 | so can any number of runs each of which stops before the removal or has complete lists |
| SharedLinkMigration.CompleteReportsCanBeRepeated | config/migrate-shared-link-permissions.js:52-302 | when every list of write errors is complete a failed run can always be repeated to that result |
| SharedLinkMigration.Migration.ProcessBatch | config/migrate-shared-link-permissions.js:153-259 | the batch loop, its write and the tracing of failures through operation indices give the entries, marked links and error count of the specification |
| SharedLinkMigration.Migration.Run | config/migrate-shared-link-permissions.js:52-309 | the whole live run equals its specification wherever it is stopped, aborts exactly on private links without force, and without errors or exception leaves no field behind |
| Violations.ThresholdReached | api/cache/banViolation.js:41-42 | the floor test reaches k exactly when the count reaches k times the interval |
| Violations.CountNeverExceedsScores | api/cache/logViolation.js:24-26 | under any interleaving the stored count is at most the sum of the scores written |
| Violations.EveryMultipleReachedIsBanned | api/cache/logViolation.js:24-33 | if the count ever stood at a multiple, some call took it across and bans once it is through its check |
| Violations.BansOnlyOnCrossing | api/cache/banViolation.js:41-46 | a call that bans took the count across a multiple |
| Violations.UpdatesCanBeLost | api/cache/logViolation.js:24-26 | two interleaved calls can count once and miss a ban |
| Violations.CountIsWhatWasSeen | api/cache/logViolation.js:24-26 | under any interleaving the count is the sum of the scores the last write built on, and the sum of all written exactly when the unseen ones are zero |
| Violations.CountExactIffNoOverlap | api/cache/logViolation.js:24-26 | the count is the sum of the scores written if no write lands between a call's read and its write, and for positive scores only if |
| Violations.NoOverlapBansEachMultiple | api/cache/logViolation.js:24-33 | without such overlap every multiple up to the sum is taken by exactly one call, which bans at its check |
| Violations.AllMultiplesTakenIffNoOverlap | api/cache/logViolation.js:24-33 | for every interval every multiple up to the sum is taken if no write lands between a call's read and its write, and for positive scores only if |
| Violations.MultipleTakenIffReached | api/cache/logViolation.js:24-33 | for a given interval a multiple is taken by some call if and only if the count stood at it at some point of the run |
| Violations.SequentialCallsBanPerMultiple | api/cache/logViolation.js:24-33 | calls made one after the other store the sum and ban once per multiple exactly when no call jumps over one, as when no score exceeds the interval |
| Violations.LogStores.BanViolation | api/cache/banViolation.js:31-84 | sessions go on every crossing; a ban is recorded for user and address only for a positive duration |
| Violations.CrossesIffMultiple | api/cache/banViolation.js:41-46 | the ban test holds exactly when some multiple lies above the old count and not above the new one |
| Violations.BanRecords | api/cache/banViolation.js:74-79 | a ban is recorded with the count under the user and under a known address, and other records stay |
| Violations.BanLasts | api/cache/banViolation.js:62-65 | a ban lasts as the violation says, or the default for none or 0 |
| Violations.LogStores.LogViolation | api/cache/logViolation.js:15-38 | an undisturbed call adds the score and bans by the old and new counts |
| FlagReset.PageEffect | api/db/utils.js:40-46 | updating a page resets exactly its documents, none of which was changed before |
| FlagReset.NeedsResetOnFields | api/db/utils.js:28-34 | a document needs the reset exactly when its retention fields show it at that time and its flag is missing or true |
| FlagReset.BatchSizeReads | api/db/utils.js:13-21 | a setting of digits, after white space and a sign and before anything else, is the batch size if positive; 0 and negative numbers give 1000 |
| FlagReset.BatchSizeDefaults | api/db/utils.js:74-91 | a missing or empty setting, and one that starts with no number, gives 1000 |
| FlagReset.Collection.FindPage | api/db/utils.js:28-34 | a page holds documents that need the reset, all of them or as many as the limit |
| FlagReset.Collection.BatchResetMeiliFlags | api/db/utils.js:11-66 | for every batch-size setting and any clock that goes forward the loop ends, leaves no document shown unreset, changes only flags, to false, of documents shown at the start, and returns their number |
| MongoUri.HostReadsBack | e2e/setup/start-server.js:52-75 | a printed host, bracketed or not, reads back with its port, or the default for none or one out of range |
| MongoUri.HostsReadBack | e2e/setup/start-server.js:20-83 | the authority of a printed string splits into its hosts whatever the user information |
| MongoUri.TailReadsBack | e2e/setup/start-server.js:35-50 | what follows the hosts reads back as its database or the default |
| MongoUri.ParseInvertsPrint | e2e/setup/start-server.js:20-93 | reading back any printed connection string gives host, port and database; it can be probed exactly with one host and no SRV scheme |
| MongoUri.ProbedUnlessSrv | e2e/setup/start-server.js:83-93 | a printed string can be probed exactly with one host and a scheme other than `mongodb+srv` in whatever case |
| MongoUri.HostWithPortText | e2e/setup/start-server.js:52-75 | a host with any text for its port gets what the text reads as if that is from 1 to 65535, and else 27017, more colons being ignored |
| MongoUri.NoHost | e2e/setup/start-server.js:57-75 | an empty entry, one without a name and one with an open bracket name no host |
| MongoUri.EmptyEntriesDrop | e2e/setup/start-server.js:80-83 | empty entries between commas do not count |
| MongoUri.NoSchemeNoHost | e2e/setup/start-server.js:20-93 | text without a scheme separator has the default database and is not probed |
| MongoUri.QueryIsMistakenForPath | e2e/setup/start-server.js:41-49 | without a path, a database other than the default is read exactly when the query has a slash with a name after it that does not decode to the default |
| MongoUri.QueryDbOnText | e2e/setup/start-server.js:41-49 | what a query is taken to name is the text between its first slash and the next slash, question mark or hash |
| MongoUri.QueryMistakenExample | e2e/setup/start-server.js:35-50 | `mongodb://h?a=/x` reads as the database `x` |

## Left out

- Logging, timestamps, sleeps, progress output, sampling of details for reports, and all I/O.
- The dry-run summary of the shared-link migration, role lookup, and the empty-collection shortcut.
- Graceful shutdown of the cluster, Redis flushing, and everything a worker does besides its flags.
- `processAttachments` and `addFileContextToMessage`: provider encoding; only the choice of their files is modelled.
- Attachments in `loadHistory`: the attachment pass changes no content or summary, so the scan is modelled without it.
- `errorMessage`, the violation log array, cookies and Redis key prefixes in the violation code.
- Violation scores and intervals that are negative, fractional or not numbers, except where the threshold test allows them.
- Concurrent writers during the migrations and the flag reset, and documents inserted while they run.
- Update in place of content parts: `mergeEditedContent` works on copies, so it is a function on values here.
- `Number` and `decodeURIComponent` beyond decimal numerals (exact up to 65535, out of range above), the empty string and text without a percent sign.
- `sendMessage`, `saveMessageToDatabase`, index synchronisation and authentication: dominated by calls to code not shown.
