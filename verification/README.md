# Verified model of Lurker's stores and shared rules

Lurker is a multi-user IRC client: a server keeps the connections and a SQLite database, and browsers show
it. This project models the parts of it whose correctness is not visible in any one function, and proves
what their code and documentation promise. `dafny verify dfyconfig.toml` checks all of it.

A SQL table is a map or a set of rows, a statement or transaction one step on it, a throw a step that
changes nothing. Where the code changes rows in place, a class does, and each of its methods is proved
against a function of the tables; what the code promises is then proved of those functions, over every
input, every interleaving or every run.

- **Mode lines** (`ChannelModes`, `ModeLines`). Channel-mode changes are packed greedily into MODE lines
  under two budgets. The packing loses nothing, keeps both budgets, can be read back, and no split uses
  fewer lines.
- **Engine catch-up mark** (`EngineMarks`, `EngineBatches`). Two processes hand over one socket through a
  shared mark. In every interleaving a line at or below the mark has a row unless an insert threw for it,
  nothing is stored twice, and one process owns each line; which lines are stored with all their rows is
  settled exactly.
- **Event consolidation** (`Consolidate`, `StreamFolding`, `SummaryRows`, `PresenceStories`,
  `ModeStories`, `Membership`, `MembershipNames`, `MemberModes`, `Modes`). Runs of joins, parts, renames
  and modes are folded into summaries. The summaries partition the stream, folding is idempotent, page
  counts and drawn lines agree, and the counts agree with the real membership and the real holders of a
  mode.
- **DCC transfers and the XDCC queue** (`Dcc`, `DccRuns`, `DccQueue`, `DccTerminal`, `DccRestart`,
  `DccBytes`, `DccOutcome`, `DccStore`). Over every run of the operations each bot's queue is a sequence,
  at most one pumped pack per bot is out, restart loses and doubles no pack, a finished row stays
  finished, each of a user's paths belongs to one transfer, and committed bytes only grow by what was
  accepted or uploaded.
- **Buffer identity** (`Casemapping`, `Buffers`, `BufferRuns`, `BufferOutcome`, `BufferRegistry`,
  `Refold`, `RefoldOutcome`, `CaseFold`, `FoldRepair`, `FoldRepairProofs`, `FoldRepairResult`). The
  registry keyed by a per-network case fold, the refold when a network declares another mapping, and the
  repair that merges buffers forked by case.
- **Formatting and relays** (`TextMatch`, `TextPoints`, `Relay`, `RelayProofs`, `RelayOutcome`). The
  tokenizer for formatting codes, the map from stripped offsets to raw ones, and relay envelopes, matched
  in the order a backtracking matcher tries them and unwrapped through chains of marked bots.
- **Small stores and rules** (`AutoNickRules`, `AutoNickOutcome`, `Ignores`, `IgnoreVerdicts`,
  `IgnoreParse`, `TokenForms`, `Favorites`, `Recovery`). The auto-nick highlight rule, longest-mask-wins
  ignores and their levels, the favorites order, and single-use recovery links.

`Options` and `IntSets` are helpers. The modules named Outcome, Result, Stories or Verdicts say what each
operation leaves behind, field by field, in terms of the rows, events or levels it was given.

## What the code does that its comments do not say

The model follows the code; each of these is a lemma with a concrete input, and the exact condition is
proved beside it.

- `server/db/refoldBuffers.ts:118-124` says that rewriting the folds cannot trip the unique key. It can
  when the change crosses between lower-casing and an rfc1459 mapping: with `#ä[` before `#Ä{` on a network
  that has declared nothing, declaring rfc1459 rewrites the first to `#ä{`, which the second still has stored. The pass is
  rolled back, so the mapping is not stored either. It commits exactly when no survivor's new fold is what a
  later survivor still has stored (`RefoldCommitsIff`), which holds for every other change of mapping
  (`UncrossedChangesCommit`).
- `server/db/bufferResolve.ts:128-131` says that a stray `:`-target is minted with kind `server`. The
  sentinel routing in front of the insert sends it to the network's own server row instead
  (`StrayColonGetsServerRow`).
- `importRow` has no guard for server and system rows: a closed archive row landing on one closes it
  (`ImportClosesServerRow`). That is the only way to close one (`PermanentStayOpen`).
- A line of several rows can be stored in part in three ways. A process overtaken between two of its rows
  has the rest refused (`server/db/engineMarks.ts:74-78`, `OvertakenBatch`). A process alone loses the rest
  too while its backlog arrives: the catch-up check (`server/services/ircConnection.ts:7691-7702`) does not
  look at whether the row at the mark was its own (`OwnProbeDropsRow`). And a row whose insert throws is
  left out. A stored line has all its rows exactly when none of these happens to it (`LineWholeIff`).
- An insert that throws leaves the mark where it was, and the next line's row moves it past the line that
  threw, which then has no row (`ThrowLeavesGap`). These are the only gaps (`MissingIffJumpedOver`).
- A rename onto a nick the run still tracks as gone writes over the leaver
  (`shared/consolidate.ts:379-381`); the counts are right exactly when none does (`CountsMatchMembership`).
- A nick given up by a rename and taken by a join counts as new although it was in the channel
  (`GivenUpNickJoins`). The groups are right about the past of all whom they list exactly when every such
  newcomer is written over by a later rename (`PastsTrueIff`).
- `server/db/accountRecovery.ts:218-222` says that nothing depends on sweeping expired links, since every
  read filters on the expiry. The revocation does not: it answers that there was a link, or not, and
  `server/routes/admin.ts:456` turns that into success or a 404 (`RevocationSeesSweep`; exactly when a sweep
  shows: `SweepUnseenIff`).
- A run whose mode tokens all lack a letter yields no group, so its rows are drawn without counting toward
  the page (`BareSignsStayLines`); these are the only such runs (`GroupsEmptyIffSilent`,
  `PageUnitMatchesLines`).
- `shared/parseRelay.ts:138-142` takes the message to be a tail of the stripped body whenever `{message}` is
  the last slot. A literal behind it breaks that; templates that can match at all, and whose one `{message}`
  is the last slot, give every message back exactly when `{message}` ends them (`GivesBackIffEndsInMessage`).
- The nicklist does not look at `-except` rules (`ExceptionShowsLinesNotMember`), and `ALL` less everything
  but CTCPS is a rule that hides nothing (`CtcpsAloneHidesNothing`).

## Assumptions

Stated as `requires` or parameters: lower-casing of Unicode text is a function that is idempotent, leaves
ASCII lower-case letters, digits and `:` alone and does not mind ASCII-folding first; a peer nick's case is
folded once, on the way in; globs, regular expressions of ignore rules and the cleaning of text are
functions; token hashes do not collide, tokens are not issued twice and a link issued after a sweep expires
after it; callers move a DCC row only as `DccRuns.Enabled` says (no terminal row made active, an offer accepted only for a request out or one
waiting for approval, byte counts within the advertised size); a refold is given a scan of exactly the
network's rows, and no row whose name folds onto the server row's; the changes given to `PackRoundTrip`
have one-character letters and non-empty, space-free params exactly where the letter takes one.

## Model

| member | source | states |
|---|---|---|
| ChannelModes.BatchModeLines | shared/channelModes.ts:196-235 | The loop over open letters, params and counts produces exactly the lines of the greedy packing `Pack`. |
| ChannelModes.PackKeepsChanges | shared/channelModes.ts:196-235 | The packed groups, put end to end, are the change list: nothing lost, doubled or reordered. |
| ChannelModes.PackWithinBudgets | shared/channelModes.ts:176-183 | Every line is non-empty, carries at most maxModes params, and is at most 400 bytes unless it holds a single change. |
| ChannelModes.PackIsMinimal | shared/channelModes.ts:196-235 | No order-preserving split whose lines each meet both budgets (or hold one change) uses fewer lines. |
| ChannelModes.GreedyStaysAhead | shared/channelModes.ts:196-235 | From any point, greedy packing of the rest never needs more lines than any allowed split of a list that starts no later. |
| ChannelModes.ReadLineInverts | shared/channelModes.ts:119-124 | Reading one rendered line back, deciding by `modeTakesParam` which letter takes the next word, returns its changes. |
| ChannelModes.PackRoundTrip | shared/channelModes.ts:196-235 | Splitting all the produced lines back returns the original change list. |
| ModeLines.TakesParamWhen | shared/channelModes.ts:118-124 | Membership, list and always-parameter modes take a parameter either way, on-set modes only when set, others never. |
| ModeLines.BytesAreUtf8 | shared/channelModes.ts:178-182 | The budgeted length of a text is the number of its UTF-8 bytes. |
| ModeLines.LineReads | shared/channelModes.ts:201-203 | A line is MODE, the target, the letters with a sign wherever it changes, and the non-empty parameters in order. |
| ModeLines.FewestLines | shared/channelModes.ts:184-235 | The packing in words and bytes: all changes in order, at most maxModes parameters and 400 bytes a line of several changes, no line able to take the change after it, and no fewer lines possible. |
| EngineMarks.MarkStore.StoreUnderMark | server/db/engineMarks.ts:79-96 | Refused at or below the mark (below it for a row of its own batch); otherwise the row and the mark change together, and a throwing insert leaves both as they were. |
| EngineMarks.MarkStore.Prune | server/db/engineMarks.ts:63-67 | Only the kept socket's mark survives. |
| EngineMarks.StepKeepsInv | server/db/engineMarks.ts:79-96 | Every interleaved step of the two processes (a stored or refused row, an insert that throws, a row the catch-up check drops, moving on, the successor attaching) keeps the invariant tying mark, log and each process's place in its line. |
| EngineMarks.TakeoverIsSafe | server/db/engineMarks.ts:79-96 | In every reachable state: a row-producing line at or below the mark has a row or an insert threw for it, all rows of a seq come from one process, none is stored twice, and the mark is the highest stored seq. |
| EngineBatches.TakeoverKeeps | server/db/engineMarks.ts:79-96 | The same in the log's own terms: no row-producing line at or below the mark without a row or a throw, rows by rising seq up to the mark, and of one seq different rows of one process. |
| EngineBatches.StoreOutcome | server/db/engineMarks.ts:69-96 | A row is refused below the mark, and at the mark unless its process stored a row of the line; else it goes in, the mark becomes the line's, and the process knows the line as its own. |
| EngineBatches.PassOutcome | server/services/ircConnection.ts:7685-7702 | A row dropped by the catch-up check or a throwing insert is passed over and nothing else changes. |
| EngineBatches.AloneStoresAll | server/db/engineMarks.ts:69-96 | A process left alone, with no throw and no drop, has stored every row of every line it has finished. |
| EngineBatches.NoThrowNoGap | server/db/engineMarks.ts:79-96 | When no insert throws, every row-producing line at or below the mark has a row. |
| EngineBatches.MissingIffJumpedOver | server/db/engineMarks.ts:79-96 | In every run, a row-producing line at or below the mark has no row if and only if a process past that line, for which an insert had thrown, stored a row while the mark was still below it. |
| EngineBatches.ThrowLeavesGap | server/db/engineMarks.ts:79-96 | A concrete run: the one row of the first line throws, the second line is stored, and the mark is past a line without a row. |
| EngineBatches.LineWholeIff | server/services/ircConnection.ts:7685-7702 | When both processes have handled everything, a stored line has all its rows if and only if none of its rows was refused, thrown out or dropped by the catch-up check after its process had stored one of it, and it was not first stored behind a row that had thrown. |
| EngineBatches.WholeIffUndisturbed | server/services/ircConnection.ts:7685-7702 | So all stored lines are whole if and only if no step did that to any of them. |
| EngineBatches.UndisturbedIsWhole | server/db/engineMarks.ts:69-78 | At every moment, an owned line to which no such step has happened is stored up to where its owner is. |
| EngineBatches.OvertakenLosesRow | server/db/engineMarks.ts:74-78 | A process that finds the mark moved past the batch it is storing leaves that batch incomplete for good. |
| EngineBatches.OvertakenBatch | server/db/engineMarks.ts:74-78 | A concrete run of a two-row line: the successor passes it after its first row, and the second is refused. |
| EngineBatches.OwnProbeDropsRow | server/services/ircConnection.ts:7691-7702 | A concrete run of one process alone, never overtaken: its first batch row raises the mark, the catch-up check drops the second. |
| Consolidate.ConsolidateRun | shared/consolidate.ts:350-448 | The walk over identities, renames and mode tallies with its maps and buckets yields exactly the groups of `RunGroups`. |
| PresenceStories.PresenceFromEvents | shared/consolidate.ts:350-448 | The presence groups from the events alone: each identity not written over is listed once, in order of first appearance, in the group its own events put it in, with its first nick and its present one when renamed. |
| PresenceStories.KindOfActions | shared/consolidate.ts:193-207 | Joined, left, reconnected and joined-and-left go by the first and last join or leave of one's own events; without any, renamed if one of them is a nick change, else rehosted. |
| ModeStories.ModesFromEvents | shared/consolidate.ts:265-348 | The mode groups from the changes alone: one entry for each member and letter, under the name of the last change, in the group of its first and last sign, groups and entries in order of first appearance. |
| SummaryRows.CapShows | shared/consolidate.ts:210-236 | A group over the limit shows exactly that many names, recent speakers first and otherwise in order, and counts the rest. |
| SummaryRows.SummaryReads | shared/consolidate.ts:485-494 | A summary row carries the run's length, the last event's time, the ids at its ends and the key made of the keys there. |
| SummaryRows.FoldsWhen | shared/consolidate.ts:163-191 | Joins, parts, quits, nick and host changes fold, and mode messages of nothing but member statuses. |
| Consolidate.FoldStream | shared/consolidate.ts:453-507 | The run buffer, flushed at the first row that does not fold, yields exactly `ConsolidateRows`. |
| StreamFolding.RowsPartition | shared/consolidate.ts:453-507 | The output lines stand, in order, for consecutive stretches of the input whose concatenation is the input. |
| StreamFolding.CountsTotal | shared/consolidate.ts:453-507 | The event counts of the summaries plus the rows passed through add up to the number of input rows. |
| StreamFolding.NoAdjacentSummaries | shared/consolidate.ts:453-507 | Two summaries are never neighbours. |
| StreamFolding.Idempotent | shared/consolidate.ts:453-507 | Consolidating a consolidated stream changes nothing. |
| StreamFolding.GroupsEmptyIffSilent | shared/consolidate.ts:293-348 | For every run of events: the summary would be empty if and only if each event is a MODE none of whose tokens has both a member and a letter. |
| StreamFolding.PageUnitMatchesLines | shared/eventFilter.ts:160-187 | A page draws at least one line for each counted row and each maximal run, and exactly that many if and only if no run of two or more rows is one with an empty summary; n counted rows have at most n+1 runs. |
| SummaryRows.CountsWhen | shared/eventFilter.ts:180-187 | A renderable page counts exactly the messages that do not fold; a chat page leaves out mode messages too; an event page counts all. |
| StreamFolding.BareSignsStayLines | shared/consolidate.ts:293-308 | A run with an empty summary: two rows of bare-sign mode tokens do not count toward a page and are drawn as two lines. |
| Membership.MembershipBalance | shared/consolidate.ts:350-448 | Channel size after a consistent run minus size before is joined minus left identities, minus the leavers a rename wrote over. |
| Membership.CountsMatchMembership | shared/consolidate.ts:350-448 | The joined and left counts agree with the real membership exactly when no rename landed on a leaver still being tracked. |
| Membership.FreshRenamesMatchMembership | shared/consolidate.ts:350-448 | They agree whenever renames land on nicks not tracked in the run. |
| Membership.TakenNickLosesLeaver | shared/consolidate.ts:374-385 | bob quits, alice becomes bob: one member fewer, and the summary says nobody left. |
| MembershipNames.NamesMatchChannel | shared/consolidate.ts:387-416 | Every name a summary shows is in the channel after the run exactly when its group says so, whatever renames the run holds. |
| MembershipNames.PastsTrueIff | shared/consolidate.ts:363-416 | What the groups say of the past is true of all whom they list if and only if everybody who joins under a nick that was here before, and whose holder renamed away, is written over by a later rename. |
| MembershipNames.RenamedWereHere | shared/consolidate.ts:363-416 | Of every rename a summary shows, the old nick was in the channel before the run, whatever else the run holds. |
| MembershipNames.GivenUpNickJoins | shared/consolidate.ts:363-385 | alice becomes bob and somebody joins as alice: an alice "joined" a channel that an alice was in. |
| Membership.CapKeepsCount | shared/consolidate.ts:210-236 | Capping the visible names keeps visible plus hidden at the number of entries, and hides only past the limit. |
| MemberModes.ModeCounts | shared/consolidate.ts:293-348 | Each mode category counts exactly the (nick, letter) pairs whose first and last sign give its verdict. |
| MemberModes.GrantsMatchHolders | shared/consolidate.ts:265-268 | For changes that really happened, granted minus revoked is the change in the number of holders. |
| MemberModes.EachPairOnce | shared/consolidate.ts:293-308 | Every (nick, letter) pair appears once, with the sign of its first change and of its last. |
| DccStore.Store.EnqueuePacks | server/db/dccTransfers.ts:365-401 | The insert loop is the enqueue of the fresh packs, front or back, and returns the new ids in order. |
| DccStore.Store.PumpQueue | server/db/dccTransfers.ts:403-434 | Each next request, and no other row, becomes a request that is out. |
| DccStore.Store.RemoveQueued | server/db/dccTransfers.ts:484-512 | Waiting rows of the chosen packs are deleted; those out are handed back untouched. |
| DccStore.Store.MarkReceiving | server/db/dccTransfers.ts:640-674 | The path is taken from every other row of the user before the transfer gets it. |
| DccStore.Store.MarkCompleted | server/db/dccTransfers.ts:709-746 | The row is finished and a received file not kept yet becomes the account's, in one step. |
| DccStore.Store.KeepReceivedFile | server/db/dccFiles.ts:56-81 | A file row is inserted and the user's own transfer points at it; nothing for another user's transfer. |
| DccStore.Store.SettleReceives | server/db/dccTransfers.ts:571-599 | The restart loop fails the broken receives and queues their packs again, as `Settle`, and returns how many failed and how many wait again. |
| DccStore.Store.ListStoredBytes | server/db/dccTransfers.ts:808-822 | The roster's sum for each user is that user's own stored bytes, and users it leaves out store nothing. |
| DccRuns.StepKeepsInv | server/db/dccTransfers.ts:330-434 | Every operation keeps a bot's active queue places distinct, a user's paths owned by one row, and each row's shape. |
| DccRuns.RunKeepsInv | server/db/dccTransfers.ts:330-434 | So they hold in every reachable state. |
| DccTerminal.FinishedForGood | server/db/dccTransfers.ts:45-59 | Once completed, failed, rejected or cancelled a row never becomes active again in any run, and the id of a deleted row names no other. |
| DccQueue.QueueIsASequence | server/db/dccTransfers.ts:330-360 | A bot's active rows always form one list in place order. |
| DccQueue.EnqueueIsAppend | server/db/dccTransfers.ts:362-401 | Enqueueing puts exactly the fresh packs, in the order given, behind that list or in front of it, and changes no other row. |
| DccQueue.EnqueueLeavesOthers | server/db/dccTransfers.ts:362-401 | Other bots' lists stay as they are. |
| DccQueue.FreshPacks | server/db/dccTransfers.ts:372-375 | The fresh packs are those asked for and not waiting or out, each once. |
| DccQueue.PumpSendsFirstWaiting | server/db/dccTransfers.ts:403-424 | With the bot busy nothing of its queue is sent; otherwise the first waiting row is, and only it. |
| DccOutcome.PumpOutcome | server/db/dccTransfers.ts:403-434 | The pump turns into requests exactly the waiting packs that are first of a bot with none asked for, connecting, receiving or verifying, and changes nothing else of any row. |
| DccOutcome.EnqueueOutcome | server/db/dccTransfers.ts:362-401 | The new rows are waiting, empty and without path, at consecutive places right behind or right in front of the bot's active rows. |
| DccOutcome.PresentPacks | server/db/dccTransfers.ts:351-360 | The packs not queued again are those waiting, asked for, connecting, receiving or verifying. |
| DccOutcome.TypedOutcome | server/db/dccTransfers.ts:142-178 | A typed request is out at once, in the place in front of the queue. |
| DccOutcome.DisconnectOutcome | server/db/dccTransfers.ts:454-466 | A disconnect puts the user's requests for packs on that network back to waiting, and nothing else. |
| DccOutcome.RemovalOutcome | server/db/dccTransfers.ts:484-535 | Which rows each removal takes: waiting ones of the chosen packs, one waiting row, a network's waiting and asked-for packs, one row, finished rows without a partial; all others stay as they are. |
| DccOutcome.HandedBack | server/db/dccTransfers.ts:484-512 | A removal hands back the chosen packs that are out. |
| DccQueue.OnePumpedPackOut | server/db/dccTransfers.ts:403-434 | Over every run, of the packs the pump sent at most one per bot is out. |
| DccQueue.StepKeepsNoDouble | server/db/dccTransfers.ts:350-401 | A step keeps a queue free of doubled packs exactly when it is not a typed request for a pack already there. |
| DccRestart.RestartKeepsPacks | server/db/dccTransfers.ts:571-599 | After a restart the packs waiting or out are those waiting, out or stalled before: none lost, none doubled. |
| DccRestart.RestartRows | server/db/dccTransfers.ts:571-599 | Kept rows keep pack, place and attempt, requeued ones repeat a broken row's attempt, and only surviving requests are still out. |
| DccOutcome.RestartOutcome | server/db/dccTransfers.ts:571-599 | Every interrupted receive has failed with its bytes and path, every request out with a pack waits again unless requests survive, every other row and all files are as they were, and each new row waits for an interrupted one's pack. |
| DccRestart.RequeuedGoFirst | server/db/dccTransfers.ts:468-482 | A requeued pack goes in front of its bot's list. |
| DccBytes.CommittedNeverGrows | server/db/dccTransfers.ts:645-890 | No operation but an accepted receive or an upload makes a user's committed bytes larger. |
| DccOutcome.OfferOutcome | server/db/dccTransfers.ts:142-201 | An offer that comes in waits for approval, one that goes out is on offer with its file; neither has a queue place. |
| DccOutcome.AcceptOutcome | server/db/dccTransfers.ts:640-674 | An accepted offer receives from its starting byte into its path, which every other row of the user has let go of; no other field of any row changes. |
| DccOutcome.DoneOutcome | server/db/dccTransfers.ts:709-746 | A finished transfer is completed with its bytes, and a received one not kept yet becomes a file of that path and size that it points at. |
| DccOutcome.KeepOutcome | server/db/dccFiles.ts:56-94 | A file is kept for the user's own transfer only; an upload is a file without one. |
| DccOutcome.OneRowOutcome | server/db/dccTransfers.ts:676-708 | The other steps of a transfer set exactly the fields they name. |
| DccOutcome.SweepOutcome | server/db/dccTransfers.ts:224-234 | At boot every send on offer or under way has failed; a network or file that goes is let go of by the rows that had it. |
| DccOutcome.Weights | server/db/dccTransfers.ts:781-808 | A receive under way counts what it may grow to, another partial what it has, a kept file its size, nothing twice. |
| DccOutcome.RowAdds | server/db/dccTransfers.ts:781-808 | Each further row adds to a user's bytes what it weighs alone. |
| DccBytes.AcceptStaysWithinLimit | server/services/ircConnection.ts:9040-9068 | An offer accepted after the limit check leaves committed bytes within the limit. |
| DccBytes.AcceptLeavesOthers | server/db/dccTransfers.ts:645-674 | Accepting changes nobody else's committed bytes. |
| DccBytes.UploadAddsItsSize | server/db/dccFiles.ts:83-94 | An upload adds its size to its owner and to nobody else. |
| DccBytes.ClearingKeepsStored | server/db/dccTransfers.ts:865-890 | Clearing finished rows leaves everybody's stored bytes exactly equal. |
| FoldRepair.Database.FoldBufferCase | server/db/foldBufferCase.ts:213-314 | The sequence of updates, upserts and deletes over all the tables is `FoldAll`. |
| FoldRepairProofs.CanonIsMostUsed | server/db/foldBufferCase.ts:139-150 | Each group with messages gets the spelling with the most, ties going to the lowest; groups without get none. |
| FoldRepairResult.CanonicalIs | server/db/foldBufferCase.ts:139-150 | Of the spellings of a name that messages in scope carry, the canonical one is carried by most, and comes first in binary order among equals. |
| FoldRepairResult.LowerIs | server/db/foldBufferCase.ts:140-150 | Names are folded by ASCII case alone. |
| FoldRepairResult.OrderIs | server/db/foldBufferCase.ts:140-150 | Binary order: the first difference decides, a text before its extensions. |
| FoldRepairResult.ScopeIs | server/db/foldBufferCase.ts:106-109 | The channel scope is the targets that begin with #, the full one those that do not begin with a colon. |
| FoldRepairResult.OutOfScopeStays | server/db/foldBufferCase.ts:105-120 | Rows of targets out of scope stay under their own spelling. |
| FoldRepairProofs.CanonIsStable | server/db/foldBufferCase.ts:139-150 | Folding the messages leaves every canonical spelling what it was. |
| FoldRepairProofs.MessagesAreKept | server/db/foldBufferCase.ts:214-220 | Every message stays, in its group, under the canonical spelling. |
| FoldRepairProofs.RepairKeys | server/db/foldBufferCase.ts:222-293 | A repaired table has a row exactly where some variant had one, and none off-case. |
| FoldRepairProofs.RepairMax | server/db/foldBufferCase.ts:222-293 | Any column merged by maximum ends as the maximum over all variants, whatever the scan order. |
| FoldRepairProofs.ReadsAreMaxima | server/db/foldBufferCase.ts:247-275 | Read pointers, clear markers and stamps are the maxima over all variants, each reached by one of them. |
| FoldRepairProofs.ClearTimeMatches | server/db/foldBufferCase.ts:262-271 | The clear time kept belongs to a variant with the kept marker. |
| FoldRepairProofs.ChannelsSurvive | server/db/foldBufferCase.ts:222-245 | joined survives from any variant, a key from any, and the earliest creation time is kept. |
| FoldRepairProofs.UnmergedStateSurvives | server/db/foldBufferCase.ts:283-293 | Where rows are not merged the canonical row wins, and otherwise some variant's row survives. |
| FoldRepairProofs.RenumberIsDense | server/db/foldBufferCase.ts:295-313 | Pin positions end distinct and below the length of their list. |
| FoldRepairProofs.RenumberOrders | server/db/foldBufferCase.ts:295-313 | Renumbering keeps the order by position, then target. |
| FoldRepairProofs.RenumberTwice | server/db/foldBufferCase.ts:295-313 | Renumbering dense pins changes nothing. |
| FoldRepairProofs.NoOffCaseLeft | server/db/foldBufferCase.ts:213-314 | After a repair no off-case row with a canonical spelling is left anywhere, and no message is lost. |
| FoldRepairResult.MessagesAfter | server/db/foldBufferCase.ts:214-220 | After the whole repair each message and history row is in its place, on its network, under the canonical spelling of its name. |
| FoldRepairResult.ReadMarksAfter | server/db/foldBufferCase.ts:247-275 | A read row is there exactly when a spelling had one, with the furthest pointer, latest stamp and furthest clear marker of them all, and that marker's time, its own first. |
| FoldRepairResult.MarkersAfter | server/db/foldBufferCase.ts:259-271 | No row ends with a clear marker unless a spelling had it. |
| FoldRepairResult.ChannelsAfter | server/db/foldBufferCase.ts:222-245 | A channel row is there exactly when a spelling had one: joined if any was, the earliest creation, the canonical row's key before any other. |
| FoldRepairResult.ClosedAfter | server/db/foldBufferCase.ts:277-281 | A closed mark stays exactly when it was on a canonical spelling. |
| FoldRepairResult.DraftsAfter | server/db/foldBufferCase.ts:283-293 | A draft is there exactly when a spelling had one: the canonical one, else one of the others. |
| FoldRepairResult.PinsAfter | server/db/foldBufferCase.ts:283-313 | The same of pins, whose positions become 0 to n-1 of each list in the surviving rows' old order. |
| FoldRepairResult.ForkIsJoined | server/db/foldBufferCase.ts:247-275 | A concrete fork: read rows 5 and 9 under two spellings end as one row with 9 and its clear marker. |
| FoldRepairProofs.RepairIsIdempotent | server/db/foldBufferCase.ts:213-314 | A second repair changes nothing. |
| Casemapping.FoldTargetWith | server/db/casemapping.ts:70-79 | The index loop builds the fold. |
| Casemapping.FoldTwice | server/db/casemapping.ts:64-79 | A folded name is its own fold. |
| TextPoints.FoldOfChar | server/db/casemapping.ts:55-62 | Each bounded mapping lower-cases ASCII capitals, and the brackets and caret that are its own. |
| TextPoints.FoldOfName | server/db/casemapping.ts:64-79 | Names are folded character by character under those, and as text otherwise. |
| Casemapping.CoarserMappings | server/db/casemapping.ts:55-62 | Names equal under ascii are equal under rfc1459-strict, and those under rfc1459. |
| Casemapping.CaretFoldsToTilde | server/db/casemapping.ts:13-19 | `^` folds to `~` under rfc1459, and the strict mapping keeps them apart. |
| Casemapping.PunctuationPairs | server/db/casemapping.ts:8-11 | rfc1459 pairs `[ \ ] ^` with `{ } ~` and the bar, the strict mapping all but the caret, ascii none; nothing but these and the capitals ever changes. |
| BufferRegistry.Registry.NetworkCasemapping | server/db/buffers.ts:71-95 | What the lazily filled cache answers is the stored mapping. |
| BufferRegistry.Registry.EnsureOpenBuffer | server/db/buffers.ts:400-442 | Creates, reopens and edits as `EnsureOpen`; the id (for a `:`-target that of the permanent row), `created` and `reopened` say what happened; an unknown network is the throw that changes nothing. |
| BufferRegistry.Registry.EnsureExistsBuffer | server/db/buffers.ts:450-478 | Creates as `EnsureExists`, closed when asked; the id is the row of that name. |
| BufferRegistry.Registry.ReopenBuffer | server/db/buffers.ts:483-485 | True exactly when a closed row of that fold flipped. |
| BufferRegistry.Registry.CloseBuffer | server/db/buffers.ts:490-492 | True exactly when an open row that is no server or system row flipped. |
| BufferRegistry.Registry.SetAutojoinFlag | server/db/buffers.ts:494-503 | Only the autojoin flag of the named row changes; an absent row is a no-op. |
| BufferRegistry.Registry.SetChannelKey | server/db/buffers.ts:505-513 | Only the key of the named row changes. |
| BufferRegistry.Registry.SeedAutojoinChannel | server/db/buffers.ts:520-540 | A new channel is closed and never surfaced; an existing row gains autojoin and a key that was given. |
| BufferRegistry.Registry.ImportArchiveRow | server/db/buffers.ts:546-589 | Merges as `ImportRow`: autojoin by maximum, first key, closed wins with its time. |
| BufferRegistry.Registry.DeleteRow | server/db/buffers.ts:594-596 | Removes the named row unless it is a server or system row, and says whether it did. |
| BufferRegistry.Registry.ResolveBuffer | server/db/bufferResolve.ts:80-88 | The id of the row with the name's fold, or none. |
| BufferRegistry.Registry.ResolveBufferIdByNetwork | server/db/bufferResolve.ts:91-97 | The same, for the network's owner. |
| BufferRegistry.Registry.ResolveOrMintForInsert | server/db/bufferResolve.ts:137-153 | Resolves or mints as `Minted`, and returns the id of the row the line belongs to. |
| BufferRuns.StepKeepsInv | server/db/buffers.ts:400-596 | Every operation keeps: no two rows with one (user, network, fold), each stored fold the fold of its target, ids below the counter. |
| BufferRuns.StepExtends | server/db/buffers.ts:400-596 | No operation rewrites a row's user, network, casing, fold or kind, and new rows get ids never used. |
| BufferRuns.RunKeepsInv | server/db/buffers.ts:400-596 | Both hold over every run. |
| BufferRuns.EqualFoldsOneId | server/db/bufferResolve.ts:80-97 | While a row lives, the names that resolve to its id are exactly those with its user, network and fold. |
| BufferRuns.DeletedIdsStayFree | server/db/buffers.ts:591-596 | The id of a deleted buffer never names another. |
| BufferRuns.PermanentStayOpen | server/db/buffers.ts:167-200 | Server and system rows stay open over a step exactly when it is not a closed archive row landing on one, or bringing one. |
| BufferRuns.ImportClosesServerRow | server/services/importService.ts:677-690 | A concrete import: a closed_buffers row that names the network's server row closes it. |
| BufferRuns.PermanentStayPresent | server/db/buffers.ts:186-193 | A row only goes by a delete of its own name, and never if it is a server or system row. |
| BufferOutcome.DeleteOutcome | server/db/buffers.ts:594-596 | Exactly the named row goes, unless it is a server or system row; every other row stays as it is. |
| BufferRuns.PermanentThroughRuns | server/db/buffers.ts:167-200 | So they are there and open after every run without such an import. |
| BufferRuns.OnlyAskedForOpens | server/db/buffers.ts:400-485 | A step opens a closed row only as `ensureOpen` or `reopen` for its own fold. |
| BufferRuns.ClosedUntilAsked | server/db/buffers.ts:400-485 | A closed row found open after a run was asked for by such an operation in it. |
| BufferRuns.EnsureOpenOpens | server/db/buffers.ts:393-442 | After `ensureOpen` the name resolves to an open row, the old one if there was one. |
| BufferOutcome.EnsureOpenOutcome | server/db/buffers.ts:400-442 | The named row is opened, gains the autojoin and key given, and nothing else; without one a new open row is made, of the given kind or the name's, on a known network only. |
| BufferOutcome.EnsureExistsOutcome | server/db/buffers.ts:450-478 | A row that is there is untouched; else one is made, open, or closed as of now when asked and no console. |
| BufferOutcome.ConsoleOutcome | server/db/buffers.ts:375-391 | A colon name leads to the user's or the network's console, whatever else is asked. |
| BufferOutcome.ServerOutcome | server/db/buffers.ts:359-366 | The network's server row is made once, for its owner, open. |
| BufferOutcome.SystemOutcome | server/db/buffers.ts:368-373 | The user's system row is made once, open. |
| BufferOutcome.DigitsRead | server/db/buffers.ts:335-366 | The server row's name ends in the network's number in decimal. |
| BufferOutcome.ReopenOutcome | server/db/buffers.ts:483-485 | Only a closed named row changes: it is open, with no closing time. |
| BufferOutcome.CloseOutcome | server/db/buffers.ts:490-492 | Only an open named row that is no console changes: it is closed as of now. |
| BufferOutcome.AutojoinOutcome | server/db/buffers.ts:494-503 | Only the named row's autojoin changes. |
| BufferOutcome.KeyOutcome | server/db/buffers.ts:505-513 | Only the named row's key changes. |
| BufferOutcome.SeedOutcome | server/db/buffers.ts:515-540 | The named row autojoins, with a key that was given; a new one waits closed with no closing time. |
| BufferOutcome.ImportOutcome | server/db/buffers.ts:542-589 | The named row is open only if both are, autojoins if either does, keeps the first key, and takes the archive's closing time when that closes it or brings one; a new row is as archived. |
| BufferOutcome.MintOutcome | server/db/bufferResolve.ts:115-153 | An insert finds its row or makes one for the network's owner: open, unless a direct message whose sender is ignored. |
| BufferRuns.MintOnce | server/db/bufferResolve.ts:115-153 | A second insert for the target finds the first one's buffer and mints nothing. |
| BufferRuns.StrayColonGetsServerRow | server/db/bufferResolve.ts:128-131 | A `:`-target naming nothing is not minted: the id is the network's own server row, and no row of that name appears. |
| BufferRuns.ImportTwice | server/db/buffers.ts:542-589 | Importing a row again changes nothing. |
| BufferRegistry.OpenStatements | server/db/buffers.ts:428-435 | The conditional statements `ensureOpen` runs on a row it found are, in order, the one change of the model. |
| BufferRegistry.ImportStatements | server/db/buffers.ts:575-587 | Likewise those of `importRow`. |
| Refold.RefoldCommitsIff | server/db/refoldBuffers.ts:66-131 | The refold commits if and only if no survivor's new fold is what a survivor after it still has stored; otherwise the unique key throws and nothing changes. |
| Refold.RefoldKeepsInv | server/db/refoldBuffers.ts:66-131 | After a committed refold the registry is sound under the new mapping: every fold rewritten, none shared. |
| Refold.RefoldKeepsBuffers | server/db/refoldBuffers.ts:66-131 | Every old name resolves to its group's survivor, whose row is the union of the group, and the new mapping is stored. |
| Refold.SurvivorIsUnion | server/db/renameBuffer.ts:121-128 | The survivor is open if any of its group was, autojoins if any did, and has the best-ranked key. |
| RefoldOutcome.MergedRowIs | server/db/renameBuffer.ts:121-128 | A group's survivor is its highest-ranked row and keeps everything of its own but autojoin, which any member gives, and the key, which the best-ranked that has one gives. |
| RefoldOutcome.RankedInOrder | server/db/refoldBuffers.ts:91-97 | A group is ranked open before closed, then by later last message, then by lower id, strictly. |
| Refold.BestOutranks | server/db/refoldBuffers.ts:91-97 | The survivor is open if any is, then has the latest message, then the lowest id. |
| Refold.RefoldLeavesOthers | server/db/refoldBuffers.ts:54-61 | Other networks' rows and the permanent ones are untouched. |
| Refold.ComparableMappingsCommit | server/db/refoldBuffers.ts:116-124 | When one mapping is the coarser of the two, the refold always commits. |
| Refold.UncrossedChangesCommit | server/db/refoldBuffers.ts:116-124 | So it does for every change of mapping that does not cross between lower-casing and the rfc1459 mappings. |
| Refold.CrossingCanFail | server/db/refoldBuffers.ts:116-124 | A two-channel registry that crosses, whose rows end up apart, and whose refold throws. |
| TextMatch.StripFormatting | shared/textMatch.ts:101-107 | Stripping by the code pattern. |
| TextMatch.LongestCode | shared/textMatch.ts:88-103 | The tokenizer takes the longest format code at the start of a text, and nothing only when there is none. |
| TextPoints.Controls | shared/textMatch.ts:88-103 | The characters that begin a format code, the digits and hex digits, and white space, by code point. |
| TextPoints.SampleCodes | shared/textMatch.ts:88-103 | Codes at their limits: two digits, a comma without a digit, six hex digits and a seventh. |
| TextMatch.StripIsVisible | shared/textMatch.ts:88-107 | No character of any format code is left. |
| TextMatch.StripTwice | shared/textMatch.ts:101-107 | Stripping stripped text changes nothing. |
| TextMatch.RawIndexForVisibleOffset | shared/textMatch.ts:121-137 | The walk returns the index the recursive cut defines, 0 for an offset that is not positive. |
| TextMatch.CutAtVisibleOffset | shared/textMatch.ts:115-137 | For every offset up to the stripped length, the raw text cut there strips to the stripped text cut at the offset; past the end nothing is left. |
| TextMatch.CutKeepsTailCodes | shared/textMatch.ts:115-137 | The cut is right behind the visible character before the offset, so codes in front of the next one stay. |
| Relay.Parser.CompileRelayTemplate | shared/parseRelay.ts:67-97 | The scan for placeholders, cached or not, yields the template's pieces, or none without `{nick}` and `{message}`. |
| Relay.Parser.ParseRelayMessage | shared/parseRelay.ts:105-150 | The loop over templates gives the first that parses. |
| Relay.Parser.ParseRelayChain | shared/parseRelay.ts:191-209 | The depth loop unwraps as the recursive chain does. |
| RelayProofs.MatchIffFits | shared/parseRelay.ts:77-91 | A template matches exactly the texts that can be cut into its pieces, and its captures are such a cut. |
| RelayOutcome.MatchIsPreferred | shared/parseRelay.ts:77-91 | Of all ways to cut a line into a template's pieces the match takes, from left to right, the shortest source and nick and the longest message. |
| RelayOutcome.SlotsTake | shared/parseRelay.ts:80-84 | A nick takes no white space, a source or message no line end. |
| RelayOutcome.TemplateReads | shared/parseRelay.ts:118-147 | A template reads a line exactly when it has both slots, matches, and captures more of a nick than status signs; source and nick are the last captures, the nick without its leading signs. |
| RelayOutcome.TemplatesTried | shared/parseRelay.ts:105-117 | A custom template replaces the built-in ones unless blank; of those the one with a source goes first. |
| RelayOutcome.TrimReads | shared/parseRelay.ts:115 | A custom template is trimmed of white space at both ends. |
| RelayProofs.TextIsRawTail | shared/parseRelay.ts:138-147 | With {message} last, the text is a tail of the raw body that strips to exactly the captured message. |
| RelayProofs.GivesBackIffEndsInMessage | shared/parseRelay.ts:138-147 | For templates whose one {message} is the last slot: every message is given back if and only if nothing stands behind {message}, or the template can match no body at all. |
| RelayProofs.TrailingLiteralShifts | shared/parseRelay.ts:138-147 | With a literal behind {message} some body gives back the literal's last character in place of its message. |
| RelayProofs.BareRoundTrip | shared/parseRelay.ts:39-44 | `<nick> message`, wrapped and parsed, gives the nick without its status signs and the message with its formatting. |
| RelayProofs.TaggedRoundTrip | shared/parseRelay.ts:39-44 | Likewise `[source] <nick> message`. |
| RelayProofs.ChainIsHops | shared/parseRelay.ts:152-209 | A chain is at most four envelopes, each parsed from the last one's text under its speaker's mark; it ends at an unmarked speaker or words of its own, and the innermost source wins. |
| RelayOutcome.ChainEnds | shared/parseRelay.ts:152-209 | A chain has one to four envelopes, ends where a mark or a reading does, and its source is that of the innermost envelope with one. |
| RelayProofs.ChainTextIsRawTail | shared/parseRelay.ts:191-209 | Through every hop the text is a tail of the raw line, its stripped form a tail of the stripped line, and the speaker has a name without status signs. |
| RelayProofs.DefaultsEndInMessage | shared/parseRelay.ts:39-44 | The built-in templates end in {message}, so all this holds for them. |
| AutoNickRules.RuleStore.UpsertAutoNickRule | server/db/highlightRules.ts:286-334 | The statements of the transaction compute `Upsert`. |
| AutoNickRules.UpsertSetsNick | server/db/highlightRules.ts:286-324 | The network then carries exactly one auto rule, enabled and for the nick, or none when a manual rule covers the nick. |
| AutoNickOutcome.UpsertRuleIs | server/db/highlightRules.ts:286-324 | The rule the network ends on is the user's auto rule for the nick, enabled and otherwise unchanged, or a new whole-word, any-case one without mask. |
| AutoNickOutcome.CoveredWhen | server/db/highlightRules.ts:246-251 | A manual rule covers the nick when its pattern is the nick, as text or glob, in any case and from any sender. |
| AutoNickOutcome.CoveredOutcome | server/db/highlightRules.ts:299-304 | A covered nick takes exactly the network's auto attachments away, and auto rules left unused. |
| AutoNickOutcome.RulesAfter | server/db/highlightRules.ts:286-324 | No other rule appears or changes, and only auto rules nothing uses go. |
| AutoNickOutcome.NoneUnused | server/db/highlightRules.ts:275-279 | No auto rule of the user is left without a network if none was before. |
| AutoNickOutcome.AttachmentsAfter | server/db/highlightRules.ts:265-274 | Only that network's attachments to the user's auto rules change, and a rule another network uses stays, at most enabled. |
| AutoNickOutcome.EditOutcome | server/db/highlightRules.ts:149-232 | The user's own edits make, replace or remove a manual rule with its attachment; auto rules are refused, and a network that goes takes its attachments. |
| AutoNickRules.UpsertKeepsOthers | server/db/highlightRules.ts:286-324 | Manual rules and other users' rules are untouched, other networks keep their attachments, and a shared rule changes at most from disabled to enabled. |
| AutoNickRules.UpsertLeavesNoOrphans | server/db/highlightRules.ts:275-279 | No auto rule is left without a network if none was before. |
| AutoNickRules.ChangedIffDifferent | server/db/highlightRules.ts:234-237 | `changed` is true exactly when a table changed. |
| AutoNickRules.UpsertTwice | server/db/highlightRules.ts:234-237 | An immediate repeat changes nothing, says so, and names the same rule. |
| AutoNickRules.RunKeepsValid | server/db/highlightRules.ts:234-334 | Over every run a user has one auto rule per nick, and a network at most one of them. |
| Ignores.EvaluateIgnores | shared/ignoreMatch.ts:209-272 | Each verdict of the six-maxima loop is: some relevant unexpired rule has a longer mask than every relevant exception. |
| IgnoreVerdicts.VerdictMeans | shared/ignoreMatch.ts:209-272 | The verdict from what rules name and match: hiding by kind of line, highlights on messages and actions by NOHIGHLIGHT, notifications on any line by NONOTIFY, both only on the kinds named beside them; the longest mask decides, exceptions first. |
| IgnoreVerdicts.OneRule | shared/ignoreMatch.ts:209-272 | What a single rule for everyone does, whatever levels it names. |
| IgnoreVerdicts.ModifiersAlone | shared/ignoreMatch.ts:228-238 | NOHIGHLIGHT alone suppresses exactly the highlights of messages and actions, NONOTIFY alone every notification, NOUNREAD alone nothing of a line; none hides. |
| IgnoreVerdicts.BoundedModifier | shared/ignoreMatch.ts:228-238 | With a kind of line beside it NOHIGHLIGHT acts on that kind alone, which is hidden too. |
| IgnoreVerdicts.EffectsAreNamed | shared/ignoreMatch.ts:225-247 | No line is hidden, no highlight suppressed and no notification silenced without a rule that names it. |
| IgnoreVerdicts.MemberAndBuffer | shared/ignoreMatch.ts:279-313 | What hides a member and what mutes a buffer, by the levels and matches of one rule. |
| Ignores.OnlyLiveRulesMatter | shared/ignoreMatch.ts:209-272 | The verdict depends only on which unexpired rules there are, not on their order or number, nor on expired ones. |
| Ignores.IsMemberHidden | shared/ignoreMatch.ts:279-293 | Hidden exactly when a live, non-exception ALL rule without a pattern matches the member and the channel. |
| Ignores.ChannelMutesUnread | shared/ignoreMatch.ts:302-313 | Muted exactly when such a NOUNREAD rule for everyone covers the buffer. |
| Ignores.HiddenMemberIsSilent | shared/ignoreMatch.ts:274-293 | Every line of a hidden member is hidden, unless an exception with as long a mask speaks for it. |
| Ignores.ExceptionShowsLinesNotMember | shared/ignoreMatch.ts:279-293 | The nicklist asks no exceptions: lines can be shown while the member is not. |
| Ignores.MuteSilencesEveryType | shared/ignoreMatch.ts:233-238 | A rule of NONOTIFY alone silences every type of line it covers and hides none. |
| IgnoreParse.CanonicalizeLevels | shared/ignoreLevels.ts:127-134 | The canonical list of the levels the tokens name. |
| IgnoreParse.CanonicalIsTheSet | shared/ignoreLevels.ts:98-134 | The list holds exactly the set. |
| IgnoreParse.CanonicalAscends | shared/ignoreLevels.ts:98-134 | In canonical order, no level twice: equal sets are stored equal. |
| IgnoreParse.ResolveLevels | shared/parseIgnore.ts:236-304 | `-ALL` is refused, an empty rest is refused, and otherwise the list is the named levels, or ALL, less those taken off. |
| IgnoreParse.CellHasOneLevel | shared/ignoreLevels.ts:13-46 | The concrete levels cut ALL's (type, dm) cells into disjoint pieces that cover it. |
| IgnoreParse.HidesExactlyTheRest | shared/parseIgnore.ts:293-304 | A parsed rule hides exactly the cells of the levels it names less those of the levels it takes off. |
| IgnoreVerdicts.ParsedLevels | shared/parseIgnore.ts:293-304 | Which levels a parsed rule ends with, for every level. |
| IgnoreVerdicts.ArgsName | shared/parseIgnore.ts:236-266 | The levels added and taken off are those the arguments name. |
| IgnoreVerdicts.ParsedNames | shared/parseIgnore.ts:293-304 | A parsed rule names the kinds of lines given, all when none is, less those taken off. |
| IgnoreVerdicts.StoredOrder | shared/ignoreLevels.ts:98-134 | The order levels are stored in. |
| IgnoreParse.ModifiersKept | shared/parseIgnore.ts:293-304 | A modifier stays exactly when it was named and not taken off. |
| IgnoreParse.CtcpsAloneHidesNothing | shared/parseIgnore.ts:293-304 | Taking all levels but CTCPS off ALL is accepted and hides nothing. |
| IgnoreParse.Tokenize | shared/parseIgnore.ts:117-151 | The nested loops cut the line into `Tokens`. |
| IgnoreParse.QuotedTokens | shared/parseIgnore.ts:114-151 | Any words without double quotes, quoted and tokenized, come back. |
| TokenForms.WordToken | shared/parseIgnore.ts:143-148 | A word runs to the next white space, quotes and parentheses inside it included. |
| TokenForms.QuotedToken | shared/parseIgnore.ts:125-131 | What stands between two equal quotes, double or single, is a token. |
| TokenForms.OpenQuote | shared/parseIgnore.ts:125-131 | A quote never closed takes the rest of the line. |
| TokenForms.BlanksDrop | shared/parseIgnore.ts:121-123 | White space between tokens says nothing. |
| IgnoreParse.GroupIsOneToken | shared/parseIgnore.ts:132-143 | A balanced parenthesis group is one token. |
| TokenForms.GroupToken | shared/parseIgnore.ts:132-143 | From an opening parenthesis to the one that closes it, counted, is a token. |
| TokenForms.OpenGroup | shared/parseIgnore.ts:132-143 | A parenthesis never closed takes the rest of the line. |
| Favorites.FavoriteStore.RenumberFavorites | server/db/favoriteBuffers.ts:87-97 | The loop renumbers one user's rows and touches no other. |
| Favorites.FavoriteStore.FavoriteBuffer | server/db/favoriteBuffers.ts:107-117 | An open resolved buffer is appended, true exactly when it was not there. |
| Favorites.FavoriteStore.UnfavoriteBuffer | server/db/favoriteBuffers.ts:123-133 | Removed and renumbered, true exactly when it was there. |
| Favorites.FavoriteStore.ReorderFavorites | server/db/favoriteBuffers.ts:144-164 | Refused exactly for an unknown or repeated id, with nothing changed; otherwise numbered in the new order. |
| Favorites.After | server/db/favoriteBuffers.ts:87-164 | Over every run no two favorites of a user share a position. |
| Favorites.OrderIsUnique | server/db/favoriteBuffers.ts:49-53 | Positions determine one order. |
| Favorites.FavoriteAppends | server/db/favoriteBuffers.ts:107-117 | A new favorite goes last; a present one keeps its place. |
| Favorites.FavoritePosition | server/db/favoriteBuffers.ts:107-117 | A new favorite stands one behind the last position, the first at 0, and moves nobody. |
| Favorites.AbsorbedPlace | server/db/renameBuffer.ts:93-97 | A buffer that goes takes its favorite; an absorbed one leaves its place to a survivor without one. |
| Favorites.RenumberKeepsOrder | server/db/favoriteBuffers.ts:82-97 | Positions become 0..n-1 in the same order, and again changes nothing. |
| Favorites.UnfavoriteRemoves | server/db/favoriteBuffers.ts:123-133 | Exactly that one leaves the order. |
| Favorites.ReorderPermutes | server/db/favoriteBuffers.ts:135-164 | An accepted reorder is a permutation: the named ones in front as given, the rest behind as they were. |
| Favorites.ReorderStep | server/db/favoriteBuffers.ts:135-164 | A reorder is taken exactly when it names favorites, none twice; those named stand at 0, 1 and so on, the others behind them in their old order; else nothing changes. |
| Recovery.RecoveryStore.CreateRecoveryToken | server/db/accountRecovery.ts:44-65 | Refused exactly when the hash is another account's, with nothing changed; otherwise the account's old link is gone, the new one is there, and every other link is as it was. |
| Recovery.RecoveryStore.SpendRecoveryAndSetPassword | server/db/accountRecovery.ts:116-129 | Consume, wipe and set as one step. |
| Recovery.RecoveryStore.SpendRecoveryAndEnroll | server/db/accountRecovery.ts:155-179 | Both refusals before the first write; a duplicate credential restores everything. |
| Recovery.RevokedNeverRedeems | server/db/accountRecovery.ts:212-216 | After a revocation no token at all redeems for the account, in any run, until a link is issued for it again. |
| Recovery.SweepUnseenIff | server/db/accountRecovery.ts:213-227 | Sweeping expired links away changes no answer of a later run if and only if, without the sweep, no operation of it revokes an account whose only link the sweep takes, issues a token that is still such a link of another account, or redeems with a clock behind the sweep's. |
| Recovery.RevocationSeesSweep | server/db/accountRecovery.ts:213-216 | A concrete run: revoking an expired link says there was one, and after a sweep that there was none. |
| Recovery.RunKeepsOnePerAccount | server/db/accountRecovery.ts:41-65 | Over every run an account has at most one outstanding link. |
| Recovery.RedemptionIsAllOrNothing | server/db/accountRecovery.ts:106-179 | A null or thrown redemption changes nothing; a successful one spends exactly its live link and leaves its account exactly the new credential, other accounts as they were. |
| Recovery.LiveLinkRedeems | server/db/accountRecovery.ts:116-179 | A live link works, for a passkey exactly when the authenticator is no other account's. |
| Recovery.RefusalsSayWhy | server/db/accountRecovery.ts:106-179 | A redemption answers null exactly when the link is not live or not the expected account's, and throws exactly when the authenticator is another account's. |
| Recovery.EndedLinkNeverRedeems | server/db/accountRecovery.ts:89-104 | After a redemption, a later issue for the account or a revocation, the token never redeems again. |
| Recovery.RedeemedOnce | server/db/accountRecovery.ts:89-104 | No link is redeemed twice. |

## Left out

- SQLite itself: query plans, locking and the full-text index; an unordered scan is a parameter, and the loops over a result set follow that order.
- Wall-clock reads, timers and date formats: when a sweep runs is a step of a run, and `now` and expiry times are integers given by the caller.
- Text is a sequence of Unicode scalar values, not of UTF-16 units: lone surrogates, and the bytes a line budget counts for them, are not modelled.
- parseModeSpec, sortByRank, rankIndex and hasRankAtLeast: reading ISUPPORT and ordering ranks; a maxModes of 0, which the parser never yields, is excluded.
- Which files on disk go with a deleted account.
- DCC columns that decide nothing here: timestamps, tokens, checksums, error texts, triggers, listing order; bytes an upload session will still write are a non-negative parameter.
- normalizeCasemapping and modeTargets: reading the declared mapping's name, and listing the nicks a mode change names.
- Network deletion, user deletion and the listing queries of the buffer registry; a deleted network's rows cascade away together.
- Encryption of channel keys and password hashes at rest: keys and hashes are plain text values.
- AcceptStaysWithinLimit: is about one accept right after the check that precedes it, because two accepts of one user are not interleaved with each other's check.
- WholeIffUndisturbed: is about rows dropped at the mark; the checks by msgid and by text, which can drop a row above it, are not part of this model.
- RefoldKeepsBuffers: speaks of the buffers table alone, because messages, read pointers, pins and drafts follow a merged buffer in renameBuffer, which is not part of this model; its merges are one update per group, since groups share no row.
- The favorites of an absorbed buffer keep their place or are dropped, as one step; the rest of a rename is not part of this model.
- The dry run and the report of the case-fold repair, which change nothing.
- parseIgnoreArgs beyond its levels: flags, durations, masks and error texts; the aliases of level names are a lookup function.
- splitMask and the glob matchers: a mask is matched by a function of the mask and the sender.
- User edits of highlight rules through the settings routes are one step each, and refuse auto rules as the service does.
- Narration texts, category labels and the client's drawing of summaries.
