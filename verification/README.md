# MediaFlux protocols: a model and its proofs

MediaFlux coordinates write actions, configuration files, notifications and
caches with a handful of small protocols. This project models them in Dafny and
proves what they promise, over every input, every interleaving and every run.

| files | protocol |
|---|---|
| `ConfirmationTickets`, `TicketOrder`, `ConfirmationSafety`, `ConfirmationMeaning`, `ConfirmationResidue`, `ConfirmationStores`, `ConfirmationRefinement` | one-shot confirmation tickets, in memory and in SQLite |
| `SingleFlight`, `SingleFlightRuns`, `SingleFlightBound`, `SingleFlightRelease` | keyed single-flight with generation fencing |
| `EnvFile`, `EnvReading`, `EnvProtocol`, `EnvPublication` | the text of `user.env`, and its crash-safe publication |
| `OrganizeConfirmations`, `OrganizeHistory`, `OrganizeQueue`, `OrganizeStore` | the life of an organize confirmation, what its row records, its queue, its table |
| `DeliveryOutbox`, `DeliveryHistory` | the leased delivery outbox, and what a row owes to its history |
| `StrmFailures`, `FailureHistory`, `StrmRetirement`, `RetirementHistory` | the STRM failure ledger, and the retirement of STRM sources, each with the history of a row |
| `ActionHistory` | fair retention of the agent action history |
| `TelegramText`, `TelegramTokens`, `TelegramReading`, `TelegramSplit`, `TelegramPacking`, `TelegramBalance`, `TelegramMessage`, `TelegramDelivery`, `TelegramAttempts` | splitting a message, and delivering it at most once |
| `SnapshotCache`, `SnapshotRuns`, `SnapshotMeaning` | bounded-age snapshots and the two caches that depend on each other |
| `DiscoveryPaging`, `DiscoveryMeaning` | collecting recommendations behind a resumable cursor |
| `RateLimiter` | the sliding-window limiter |
| `Basics`, `Text`, `TextMeaning`, `Eviction` | shared vocabulary, string operations, eviction of the oldest |

`dafny verify dfyconfig.toml` checks everything.

## How the model is built

Code that updates state in place is a class whose methods do the same. Each
method is proved to make exactly the step of a specification on values, and the
properties are proved of that specification: invariants of every step, then
theorems over runs (`Run(states, steps)` is any finite sequence of steps from
the start). Beside each specification stands what it means, said without its own
functions: the `...Meaning` and `...History` files say of every call when it
takes effect and what it leaves, and of every stored value which earlier call
gave it. Where threads or processes interleave, one step is one critical
section, file operation or transaction. Time is an input that never goes back;
tokens and generations are what the random source answers, and "fresh" means
never drawn before. File operations that may fail, other processes and crashes
are an oracle of the directory object, so that the methods publishing `user.env`
promise what happens in calm, and in any other world which event is to blame.
Digests, JSON encodings and formatted clocks are abstracted to the values they
stand for. Strings that the code normalizes with `strip` are normalized here as
well.

Some records have fields that the source has not, kept only to say what
happened: `claims` of a confirmation row, `events` of a failure row, `grants`
and `settled` of the outbox, `readAt`, `lists` and `born` of a snapshot, the
tallies of the single-flight world, the whole failure history of the limiter.
No decision of the code depends on them.

## Where a natural expectation fails

Each of these has a run or an input on which the expectation fails, and the exact
condition under which it holds.

* **Single-flight.** "Each key is computed at most once per generation" fails
  when a `clear` falls between an owner's reservation and its second look at the
  cache: the owner misses and computes again under its old generation
  (`SingleFlightRuns.ComputedTwice`). These are exactly the computations whose
  owner re-read after its generation had ended
  (`SingleFlightBound.UncountedIffLateMiss`); the others are at most one
  (`ComputedAtMostOnce`), all together at most two, for any run of a registry
  that was never full and apart from values the cache lost
  (`SingleFlightBound.ComputedAtMostTwice`). The extra value is never published
  (`OvertakenNotPublished`), and while a generation is current it has no extra
  computation (`ComputedAtMostOnceWhileCurrent`).
* **Tickets.** Not every stored ticket carries its owner's current generation: a
  preserving rotation in SQLite leaves the owner's expired rows on the old one
  (`ConfirmationResidue.ExpiredRowStays`), and no other call does that
  (`ResidueIff`). Unexpired tickets always carry it (`ConfirmationSafety.InvAlways`).
* **user.env.** Recovery returns the newest content if and only if nobody deleted
  the target since it was last put there (`EnvProtocol.RecoveryRestoresNewest`).
  After a publication whose directory could not be synced, the older backup is
  kept; if the target is then deleted, recovery brings the older content back
  (`DeletionRevivesOld`).
* **Queue position.** A position rises in a step exactly when a row queued
  behind is started, and then by one (`OrganizeQueue.PositionStep`); a run in which
  it does is `OvertakenRises`. The one worker starts rows in order, and then it
  never rises.
* **STRM failures.** An open row with the counters it had was untouched if and
  only if no release reopened it while it was resolved
  (`StrmFailures.SameVersionMeansUntouched`); with such a release, a batch hides
  what happened (`ReleaseOfResolvedHides`). The operations that never do this are
  exactly the releases that do not expect `resolved`, and all others (`HonestIff`).
  The callers release rows that are `retrying`, so the condition is met
  (`HonestNeverReopen`).
* **STRM retirement.** Start-up reaches what a lost commit would have reached
  exactly if no source was dropped or the snapshot has the root the settings had
  (`CrashConvergentIff`); saving `STRM_ROOT` alone does not update the snapshot
  (`RootAloneDiverges`). No source is forgotten in a run if and only if every save
  found each recorded source in the settings it replaced or in those it wrote
  (`NoSourceForgotten`). After a start-up that is so (`InSyncAllows`); a save on top
  of a crash that no start-up repaired can break it (`UnrepairedCrashForgets`).
* **Message splitting.** Tags that fit the limit one by one need not fit nested
  (`TelegramMessage.NestedTagsExceed`). A chunk is over the limit if and only if it
  has a piece of a single token for which the re-opened and the closing tags leave
  no room (`ChunksWithinIff`). That re-opened tags, one token and closing tags fit
  at every token is a condition on the text alone, and sufficient only
  (`ChunksWithinLimit`); escaped text meets it for any limit of at least six.
* **Balanced pieces.** Every piece of a split line is made of tokens that leave no
  tag open, but the text sent need not be read as these tokens: a bare `<` swallows
  the closing tag added after it (`TelegramMessage.BareLeavesOpen`). A piece is read
  as it was made, and then leaves no tag open, if and only if nothing is closed
  after it or each bare `<` in it is directly followed by its `>`
  (`TelegramBalance.PiecesBalanced`); otherwise exactly the first closing tag is
  swallowed, and `LooseReading` says what stays open. Lines without a bare `<` are
  always read as made (`PiecesOfTidyLine`), and escaped text has no other
  (`TelegramMessage.EscapedIsTidy`).
* **Paging.** A call leaves no gap if and only if there was nothing to accept on
  the pages it read, or the limit is at least one and the library, when it is to be
  excluded, answered (`DiscoveryPaging.CollectedPromised`). A call interrupted
  before it asked the library, or with a limit of zero, moves its cursor past cards
  it does not return (`InterruptedCallLoses`, `ZeroLimitLoses`). The one caller of the
  collector passes a limit between 1 and 20, so the second loss does not come from it.
* **Snapshots.** "After a clear no stored board uses an earlier recent list" fails
  when the clear keeps stale content: a refresh that fails stores the kept board
  again (`SnapshotRuns.KeptListStoredAgain`). A board uses such a list if and only
  if it goes back, through failed readings only, to a board that used one and that
  the clear kept (`ClearedListIff`). Boards shown as current never do
  (`ClearedListsGone`).

## Model

| member | source | states |
|---|---|---|
| `ConfirmationStores.ConfirmationStore.Issue` | app/agent/confirmation.py:245-341 | the in-memory `issue` prunes, touches the epoch, evicts the oldest tickets that are not being replaced, stores one ticket, and refuses in every case in which the source raises (what it stores: `ConfirmationMeaning.IssueMeans`) |
| `ConfirmationStores.ConfirmationStore.ClaimAndRotateOwner` | app/agent/confirmation.py:373-437 | a claim checks owner, generation and expiry, then removes all tickets of the owner and moves it to a new generation, or leaves what the refused call leaves |
| `ConfirmationStores.ConfirmationStore.RotateOwner` | app/agent/confirmation.py:479-507 | rotation drops the owner's tickets or carries them over to the new generation |
| `ConfirmationStores.ConfirmationStore.Discard` | app/agent/confirmation.py:462-477 | removes a ticket only for its owner |
| `ConfirmationStores.ConfirmationStore.ListActiveTickets` | app/agent/confirmation.py:439-460 | lists exactly the owner's unexpired tickets of the current generation, by expiry and id |
| `ConfirmationStores.ConfirmationStore.OwnerGeneration` | app/agent/confirmation.py:517-526 | answers the owner's generation, drawing one if there is none |
| `ConfirmationStores.ConfirmationStore.Clear` | app/agent/confirmation.py:528-531 | empties the store |
| `ConfirmationStores.ConfirmationStore.Prune` | app/agent/confirmation.py:533-561 | drops tickets past the grace window and idle epochs, the oldest first beyond the cap |
| `ConfirmationStores.ConfirmationStore.Evict` | app/agent/confirmation.py:309-329 | the eviction loop makes room by the tickets with the earliest expiry, sparing those being replaced |
| `ConfirmationStores.NewId` | app/agent/confirmation.py:588-593 | the first usable token of eight attempts that is not taken |
| `ConfirmationStores.DrawGeneration` | app/agent/confirmation.py:576-586 | a non-zero generation that no owner has |
| `ConfirmationStores.SQLiteConfirmationStore.Issue` | app/agent/confirmation.py:696-837 | the same operation as a transaction: a refusal rolls the clean-up back too |
| `ConfirmationStores.SQLiteConfirmationStore.ClaimAndRotateOwner` | app/agent/confirmation.py:904-1001 | the claim as a transaction; an expired ticket is removed and reported |
| `ConfirmationStores.SQLiteConfirmationStore.RotateOwner` | app/agent/confirmation.py:1081-1101 | rotation as a transaction |
| `ConfirmationStores.SQLiteConfirmationStore.Discard` | app/agent/confirmation.py:1063-1079 | discarding as a transaction, without clean-up when there is nothing to look for |
| `ConfirmationStores.SQLiteConfirmationStore.ListActiveTickets` | app/agent/confirmation.py:1003-1061 | the same list as a transaction, ordered by the query |
| `TicketOrder.ListUnique` | app/agent/confirmation.py:459-460 | the order determines the list, so both stores list alike |
| `ConfirmationStores.SQLiteConfirmationStore.OwnerGeneration` | app/agent/confirmation.py:1110-1123 | the generation as a transaction |
| `ConfirmationStores.SQLiteConfirmationStore.Prune` | app/agent/confirmation.py:1133-1156 | the deletions of the clean-up, by age and by count |
| `ConfirmationStores.SQLiteConfirmationStore.DeleteForRoom` | app/agent/confirmation.py:760-800 | the deletion that makes room takes the oldest rows that are not being replaced |
| `ConfirmationSafety.InvStep` | app/agent/confirmation.py:217-1232 | every operation of either store keeps at most `max_entries` tickets, an epoch for the owner of each, and every live ticket on its owner's generation |
| `ConfirmationSafety.InvAlways` | app/agent/confirmation.py:217-1232 | the invariant in every reachable store |
| `ConfirmationSafety.EpochsAlways` | app/agent/confirmation.py:576-586 | in every reachable store the generations of the epochs are distinct and non-zero |
| `ConfirmationResidue.ResidueIff` | app/agent/confirmation.py:1081-1101 | when all stored tickets are on their owners' generations, a call ends that if and only if it is a preserving rotation in SQLite of an owner with an expired row |
| `ConfirmationResidue.ExpiredRowStays` | app/agent/confirmation.py:1081-1101 | a run in which such a row stays on the old generation |
| `ConfirmationSafety.GrantIsIssued` | app/agent/confirmation.py:373-437 | a granted ticket was issued earlier in the run, to the owner that claims it, and has not expired |
| `ConfirmationSafety.GrantedAtMostOnce` | app/agent/confirmation.py:373-437 | with fresh tokens and generations no ticket is granted twice in a run |
| `ConfirmationSafety.RivalsNotBothGranted` | app/agent/confirmation.py:373-437 | of two tickets that live together for one owner, at most one is ever granted |
| `ConfirmationSafety.StaleIssueRefused` | app/agent/confirmation.py:245-341 | an issue carrying a generation read before the owner was moved on is refused |
| `ConfirmationSafety.ClaimIff` | app/agent/confirmation.py:373-437 | a claim is granted if and only if the ticket is there, is the owner's, is of the current generation and unexpired, and the audit and the new generation succeed |
| `ConfirmationSafety.RevealedIsCurrent` | app/agent/confirmation.py:517-526 | the generation that a call of either store tells its caller is the one the owner is on after the call |
| `ConfirmationSafety.RunsAreLawful` | app/agent/confirmation.py:217-1232 | every step changes tickets and epochs only as issue, grant and rotation allow |
| `ConfirmationMeaning.PruneKeeps` | app/agent/confirmation.py:533-561 | a clean-up keeps exactly the tickets within one lifetime after their deadline, unchanged, and every epoch with such a ticket; epochs idle for two lifetimes go |
| `ConfirmationMeaning.PruneCaps` | app/agent/confirmation.py:547-561 | a recent epoch goes only without tickets, when there are more than 32 and more than four per place, and the least recently touched go first |
| `ConfirmationMeaning.PruneBounds` | app/agent/confirmation.py:547-561 | and then no more are left than that |
| `ConfirmationMeaning.PickIff` | app/agent/confirmation.py:588-593 | a token is found exactly if one is URL-safe, of 16 to 256 characters and not taken, and it is the first such |
| `ConfirmationMeaning.CanDrawIff` | app/agent/confirmation.py:576-586 | a generation is drawn exactly if one of the first eight draws, zero counting as one, is no owner's |
| `ConfirmationMeaning.IssueIff` | app/agent/confirmation.py:245-341 | a ticket is issued exactly if the arguments and the deadline are in order, a token is found, and the owner is, or can be put, on the generation expected |
| `ConfirmationMeaning.IssueMeans` | app/agent/confirmation.py:237-341 | its deadline is the lifetime of the store or what the caller has left, whichever is earlier; it is for the caller, with its payload, on the generation it expected; a replacing issue leaves no other ticket of that generation |
| `ConfirmationMeaning.IssueKeeps` | app/agent/confirmation.py:309-329 | another ticket makes way only if it is replaced, or if the store is full even so and none that stays expires earlier |
| `ConfirmationMeaning.GrantedInTime` | app/agent/confirmation.py:237-437 | over every run, a claim is granted only within the lifetime of the store after the issue, and within what the issuing caller had left |
| `ConfirmationMeaning.LapsedIff` | app/agent/confirmation.py:373-437 | an expired ticket is reported as such exactly within its grace window, and removed |
| `ConfirmationMeaning.RefusedClaim` | app/agent/confirmation.py:373-437 | a refused claim changes no ticket and no generation; in memory a claim of an own ticket still counts as a sign of life |
| `ConfirmationMeaning.GrantMeans` | app/agent/confirmation.py:373-437 | a grant removes exactly the tickets of its owner, puts it on a generation nobody was on, and leaves all others alone |
| `ConfirmationMeaning.RotateMeans` | app/agent/confirmation.py:479-507 | which tickets survive a rotation, on which generation, and how many are revoked |
| `ConfirmationMeaning.DiscardMeans` | app/agent/confirmation.py:462-477 | a ticket is discarded exactly for its owner, and no other goes |
| `ConfirmationMeaning.ListMeans` | app/agent/confirmation.py:439-460 | exactly the unexpired tickets of the owner on its generation are listed |
| `ConfirmationMeaning.ReadMeans` | app/agent/confirmation.py:517-526 | the owner is told the generation it has, or a free one, and no ticket changes |
| `ConfirmationRefinement.StoreRefinesDesk` | app/agent/confirmation.py:217-1232 | each store, seen only through its unexpired tickets, is a desk that knows neither residue nor epochs |
| `ConfirmationRefinement.DeskDeterministic` | app/agent/confirmation.py:309-329 | with distinct deadlines the desk's next state is determined |
| `ConfirmationRefinement.SideBySide` | app/agent/confirmation.py:596-1232 | the same call on both stores gives the same answer and keeps the same unexpired tickets |
| `ConfirmationRefinement.StoresAgree` | app/agent/confirmation.py:596-1232 | in every joint run the in-memory and the SQLite store grant the same claims and hold the same live tickets |
| `Eviction.ResidueIrrelevant` | app/agent/confirmation.py:309-329 | eviction of live tickets does not depend on expired or stale rows |
| `Eviction.DeleteOldest` | app/agent/confirmation.py:1133-1156 | `DELETE ... ORDER BY age LIMIT n` removes the oldest removable rows, as many as asked |
| `Eviction.OldestUnique` | app/agent/confirmation.py:309-329 | with distinct ages the evicted set is unique |
| `SingleFlight.KeyedSingleFlight.Reserve` | app/concurrency.py:79-110 | a registered key is joined; an absent key is registered under a new event while there is room, and gets an untracked owner only if the registry is full; nothing else changes |
| `SingleFlight.KeyedSingleFlight.Finish` | app/concurrency.py:121-136 | the lease still registered under its key removes exactly that entry and sets exactly its event; any other lease changes nothing but its own event |
| `SingleFlight.KeyedSingleFlight.Clear` | app/concurrency.py:172-183 | raises the generation by one, empties the registry and sets exactly the events that were registered |
| `SingleFlightRuns.InvStep` | app/concurrency.py:79-183 | every step of every thread keeps the registry, cache and accounting invariants |
| `SingleFlightRuns.WaitersLookedAfter` | app/concurrency.py:79-136 | in every reachable state a waiter's event is set, about to be set by its owner, or registered with a live owner; the registry is within its limit |
| `SingleFlightRelease.OwnerReleases` | app/concurrency.py:112-170 | in every run, whatever all threads do, a waiter's event is set at the latest with the fifth step of its owner |
| `SingleFlightRelease.OwnerCloser` | app/concurrency.py:138-170 | every step of the owner, failing or not, brings it closer to setting the event |
| `SingleFlightRelease.OwnerCanMove` | app/concurrency.py:138-170 | no deadlock: the owner of an event that is not set has a step to take |
| `SingleFlightRuns.ComputedAtMostOnce` | app/concurrency.py:138-170 | with a never saturated registry a key is computed at most once per generation by owners that missed while it was current, not counting values the cache lost |
| `SingleFlightBound.ComputedAtMostTwice` | app/concurrency.py:138-170 | of the other owners at most one computes, so that all computations of a key under one generation are at most two, apart from values the cache lost |
| `SingleFlightBound.UncountedIffLateMiss` | app/concurrency.py:138-170 | a computation is one of the others if and only if its owner re-read, and missed, after the generation of its lease had ended |
| `SingleFlightBound.SaturatedIff` | app/concurrency.py:79-110 | the registry was saturated in a run if and only if some caller found its key absent and as many other keys registered as there is room for |
| `SingleFlightRuns.ComputedAtMostOnceWhileCurrent` | app/concurrency.py:138-170 | while a generation is current, all its computations are counted |
| `SingleFlightRuns.ComputedTwice` | app/concurrency.py:138-170 | a run in which a clear between reservation and re-reading makes a key computed twice under one generation |
| `SingleFlightRuns.OvertakenNotPublished` | app/concurrency.py:165-168 | the result of an overtaken owner never reaches the cache |
| `SingleFlightRuns.NothingStaleCached` | app/concurrency.py:165-183 | after a clear that emptied the cache, no value of an earlier generation is ever cached |
| `SingleFlightRuns.LateFinishHarmless` | app/concurrency.py:121-136 | a finish from before a clear neither removes nor signals anything |
| `EnvFile.LiteralIffCut` | app/env_file.py:6-8 | the literal expression cuts a line in one way only, with the closing quote the last quote, and the reader decides exactly that |
| `EnvFile.PlainIffCut` | app/env_file.py:9 | the plain expression cuts a line in one way only |
| `EnvFile.EscapeInverse` | app/config.py:110 | unescaping undoes escaping, with quotes and trailing backslashes |
| `EnvFile.ReadEnvText` | app/env_file.py:12-31 | the line loop computes the reading, with the number of the first malformed line (`EnvReading` says what a reading is) |
| `TextMeaning.SplitLinesIff` | app/env_file.py:15 | lines without a break inside, each ending in one, only the last without, CR LF not taken apart: only the split of a text is that |
| `TextMeaning.StripIff` | app/env_file.py:16 | what is stripped off is exactly the spaces at the ends |
| `TextMeaning.BreaksAndSpaces` | app/env_file.py:15-16 | the characters that count as line breaks and as spaces |
| `EnvReading.LineMeans` | app/env_file.py:15-29 | each line is passed over, binds a key, or is malformed, by its shape alone: blank or comment, literal body unescaped, plain value stripped |
| `EnvReading.MalformedIff` | app/env_file.py:15-29 | a text is malformed at line n if and only if n is the first line that is none of these |
| `EnvReading.ReadAnswers` | app/env_file.py:12-30 | a key has a value if and only if the last line that binds it binds it to that value |
| `EnvReading.SkippedIrrelevant` | app/env_file.py:16-18 | a blank or comment line can be put in or taken out anywhere |
| `EnvReading.KeysInOrder` | app/env_file.py:14-30 | the keys stand in the order of their first lines |
| `EnvReading.LiteralShapeIff` | app/env_file.py:6-8 | the literal form to the letter: name, quoted units, spaces, marker |
| `EnvReading.PlainShapeIff` | app/env_file.py:9 | the plain form to the letter |
| `EnvReading.BodyIff` | app/env_file.py:7 | a body is made of escaped quotes and characters that are no quotes |
| `EnvReading.KeyIff` | app/env_file.py:7 | the characters of a key, one by one |
| `EnvReading.ItemIff` | app/config.py:96-100 | what may be written: a name, and a value without NUL and line breaks |
| `EnvReading.LineIs` | app/config.py:109-111 | and how it is written |
| `EnvReading.BodyOfValue` | app/env_file.py:22 | unescaping is the only way back: no two bodies stand for the same value |
| `EnvFile.SerializeEnv` | app/config.py:103-112 | prints one marked line per item, and refuses exactly the mappings with an invalid item |
| `EnvFile.RoundTrip` | app/config.py:96-112 | reading what was printed gives the mapping back, order included, for every mapping the validator accepts |
| `EnvFile.ReadThenPrint` | app/env_file.py:12-31 | what could be read (without NUL) can be printed, and reads back the same |
| `EnvFile.MergedLookup` | app/config.py:956-957 | a merge answers updated keys with the update and all others as before |
| `EnvFile.UpdateReads` | app/config.py:956-967 | an update of readable text by valid items can be printed, and reads back as the merge |
| `EnvPublication.ConfigDirectory.WritePrivateTemp` | app/config.py:686-733 | in calm a new private file with the payload and nothing else; otherwise a failed operation, 32 taken names in a row or a crash is to blame, and nothing is published |
| `EnvPublication.ConfigDirectory.CaptureExistingTarget` | app/config.py:856-877 | in calm the target moves whole to a free backup name; without one, the target was vacant, an operation failed or 32 names were taken |
| `EnvPublication.ConfigDirectory.RestoreCaptured` | app/config.py:880-890 | in calm the captured file is back at the vacant target and the temporary file is gone; never onto an occupied target |
| `EnvPublication.ConfigDirectory.TransactionalRecoveryUpdate` | app/config.py:893-935 | success means that a verified compare-and-set of the target happened; in calm it happens exactly if the target has the expected bytes, nothing else changes, and any other content stays; a race was seen, or a failure happened, whenever one is reported |
| `EnvPublication.ConfigDirectory.CreateEnvFile` | app/config.py:833-849 | creates the target only where there is none, and in calm always there; a race is reported only if the target was occupied, a failure only if something failed |
| `EnvPublication.ConfigDirectory.UpdateEnvFile` | app/config.py:938-967 | success means that exactly the expected bytes were replaced by text that reads as the merged mapping; in calm it succeeds if and only if the expected text can be read, the merge printed, and the target is as expected; unreadable and unprintable input is refused, and every other outcome blames a failed operation, a conflict, a vacant target, taken names or a crash since the call began |
| `EnvPublication.ConfigDirectory.RecoverMissingTarget` | app/config.py:575-604 | recovers the single backup of a vacant target, does nothing exactly if there is a target or no backup, and refuses only for several backups, unreadable text or a failed operation; restores the newest content unless the target was deleted since |
| `EnvProtocol.InvStep` | app/config.py:833-935 | every file operation, crash and foreign write keeps the newest content at the target or in a backup, until somebody deletes the target |
| `EnvProtocol.NewestIsLastPut` | app/config.py:833-935 | the newest content is the one last put at the target, unless it was deleted since |
| `EnvProtocol.NewestNeverLost` | app/config.py:856-935 | in every run, after any crash, the content last put, if not deleted since, is at the target or in a backup |
| `EnvProtocol.RecoveryRestoresNewest` | app/config.py:575-604 | recovery, at any point of any run, puts back the newest content if and only if nobody deleted the target since it was put there |
| `EnvProtocol.RecoveryPossible` | app/config.py:570-604 | while the newest content is not deleted and the target is vacant, recovery is possible if and only if there is a single backup |
| `EnvProtocol.PublicationIsCompareAndSet` | app/config.py:893-935 | a publication puts the payload at a vacant target, and an update replaces the newest content if and only if nobody deleted the target meanwhile |
| `EnvProtocol.OnlyReplacedContentGoes` | app/config.py:893-935 | content disappears only by a foreign replacement or deletion, or as what a publication replaced, when its backup is emptied or unlinked |
| `EnvProtocol.TargetNeverOverwritten` | app/config.py:823-877 | what another process puts at the target is never overwritten, at most captured whole |
| `EnvProtocol.DeletionRevivesOld` | app/config.py:575-604 | a run in which a deletion makes recovery bring older content back |
| `OrganizeStore.ConfirmationTable.CreateConfirmation` | app/database.py:2951-3006 | inserts a waiting row and expires the waiting rows of the same fingerprint |
| `OrganizeStore.ConfirmationTable.ActivateReview` | app/database.py:3017-3027 | opens a review only of a waiting, unexpired row |
| `OrganizeStore.ConfirmationTable.RecoverInterruptedReviews` | app/database.py:3030-3059 | interrupted reviews wait again, or fail after three attempts |
| `OrganizeStore.ConfirmationTable.ClaimNextReview` | app/database.py:3062-3091 | takes the due review with the smallest id and counts the attempt |
| `OrganizeStore.ConfirmationTable.CompleteReview` | app/database.py:3107-3136 | ends only a review at work, and only with a verdict |
| `OrganizeStore.ConfirmationTable.Claim` | app/database.py:3233-3316 | a claim is won if and only if the history of claims grows; a late one expires the row (what it records: `OrganizeHistory.ChoiceIsLastClaim`) |
| `OrganizeStore.ConfirmationTable.Cancel` | app/database.py:3319-3401 | cancels a waiting row, or expires a late one |
| `OrganizeStore.ConfirmationTable.ExpireDue` | app/database.py:3426-3470 | expires exactly a waiting row that is due |
| `OrganizeStore.ConfirmationTable.GetNextQueued` | app/database.py:3473-3479 | the queued row that precedes all others |
| `OrganizeStore.ConfirmationTable.QueuePosition` | app/database.py:3482-3504 | the number of rows in front, the running one included |
| `OrganizeStore.ConfirmationTable.ClaimQueued` | app/database.py:3507-3522 | starts exactly a queued row |
| `OrganizeStore.ConfirmationTable.RequeueConfirmation` | app/database.py:3525-3532 | puts a running row back, with its own queue time |
| `OrganizeStore.ConfirmationTable.ReleaseConfirmation` | app/database.py:3558-3570 | gives a queued, or also a running, row up |
| `OrganizeStore.ConfirmationTable.CompleteConfirmation` | app/database.py:3573-3609 | completes exactly a running row |
| `OrganizeStore.ConfirmationTable.FailConfirmation` | app/database.py:3612-3658 | fails a row in hand, or lets it wait again with a new deadline |
| `OrganizeConfirmations.InvStep` | app/database.py:2951-3658 | all thirteen operations keep the lifecycle invariant |
| `OrganizeConfirmations.LifecycleInvariant` | app/database.py:2951-3658 | a choice is recorded exactly while the row is queued, running, completed or failed; open reviews belong to waiting, unclaimed rows; at most three attempts |
| `OrganizeConfirmations.TerminalForever` | app/database.py:2951-3658 | completed, failed, expired and cancelled rows never change again |
| `OrganizeConfirmations.AgentClaimsOnlyFirst` | app/database.py:3279-3304 | after any claim of a row, every later claim is a human's |
| `OrganizeConfirmations.AgentClaim` | app/database.py:3279-3304 | an agent's claim succeeds if and only if its review is at work and the row is unexpired and of its chat; it is then the first claim |
| `OrganizeConfirmations.HumanClaimWins` | app/database.py:3279-3304 | once claimed, a row never has an open review again |
| `OrganizeHistory.ChoiceIsLastClaim` | app/database.py:3279-3304 | while a row is in hand, its candidate, queue time and actor are those of the last claim that won it |
| `OrganizeHistory.WinsIff` | app/database.py:3233-3316 | a claim wins exactly a waiting, unexpired row of its chat, an agent's only while the review is at work, and records its choice |
| `OrganizeHistory.StatusGivenBy` | app/database.py:2951-3658 | the status of a row was given by its creation, or by the last call that changed it, from a state in which that call may |
| `OrganizeHistory.TakesEffect` | app/database.py:3319-3658 | and each call takes effect on every row that is ready for it |
| `OrganizeHistory.ReviewGivenBy` | app/database.py:2951-3136 | the review of a row is as its creation asked, or as the last call that moved it left it |
| `OrganizeHistory.ReviewMoves` | app/database.py:3017-3136 | and each call moves the review of a row that is ready for it |
| `OrganizeHistory.NextReviewFirst` | app/database.py:3062-3091 | the next review is the one with the smallest number of those that can begin, and there is none only if none can |
| `OrganizeHistory.AttemptsCounted` | app/database.py:3062-3091 | attempts are exactly the reviews begun for the row |
| `OrganizeHistory.BornOnce` | app/database.py:2951-3006 | a row keeps the number, fingerprint, chat and time of its one creation |
| `OrganizeHistory.DeadlineSetBy` | app/database.py:3612-3658 | its deadline is that of its creation, or of the last retryable failure that set one |
| `OrganizeQueue.PositionStep` | app/database.py:3482-3504 | a position rises in a step exactly when a row queued behind is started, and then by one |
| `OrganizeQueue.PositionNeverRises` | app/database.py:3473-3532 | while a row waits, in-order starts and increasing queue times never raise its position, and requeueing keeps its place |
| `OrganizeQueue.ZeroIffNext` | app/database.py:3473-3504 | position zero means being next with nothing running, and conversely |
| `OrganizeQueue.NextIsFirst` | app/database.py:3473-3479 | the next row is the queued one with the earliest queue time, the older one of two, and there is none only if none is queued |
| `OrganizeQueue.PositionCounts` | app/database.py:3482-3504 | the position is the number of queued rows ahead, by queue time and number, plus one for a running row |
| `OrganizeQueue.OvertakenRises` | app/database.py:3482-3522 | a run in which an out-of-order start raises a position from 0 to 1 |
| `DeliveryOutbox.Outbox.EnqueueDelivery` | app/repositories/telegram_notifications.py:662-692 | inserts a delivery or renews it under a larger lease number |
| `DeliveryOutbox.Outbox.ClaimDue` | app/database.py:3661-3701 | grants the first due row, by time and id, under the next lease number |
| `DeliveryOutbox.Outbox.CompleteDelivery` | app/database.py:3704-3718 | settles only under the lease that still covers the row |
| `DeliveryOutbox.Outbox.RetryDelivery` | app/database.py:3721-3741 | counts an attempt only under the lease that still covers the row |
| `DeliveryOutbox.Outbox.RecoverAfterRestart` | app/repositories/telegram_notifications.py:645-652 | takes every row being sent back under a new lease number |
| `DeliveryOutbox.AttemptsWithinLeases` | app/database.py:3661-3741 | attempts, plus one if sent, never exceed the lease number |
| `DeliveryOutbox.GrantsStrictlyRise` | app/database.py:3661-3701 | each grant of a row has a larger lease number than all before |
| `DeliveryOutbox.OnlyLatestGrantSettles` | app/database.py:3704-3741 | what settles was granted, and is the latest grant of the row |
| `DeliveryOutbox.SettledAtMostOnce` | app/database.py:3704-3741 | no grant is settled twice |
| `DeliveryOutbox.SentStaysSent` | app/database.py:3661-3741 | a sent row is neither changed nor granted until it is enqueued again |
| `DeliveryHistory.WrittenBy` | app/database.py:3661-3741 | a row is as the last call that wrote it left it, column by column |
| `DeliveryHistory.GrantedFirst` | app/database.py:3661-3684 | a worker gets the row that has been due longest, the older one of two, and goes away only if none is ready |
| `DeliveryHistory.NotGrantedTwice` | app/database.py:3661-3701 | a granted delivery goes to a second worker only after a settlement, recovery or new enqueueing, or when the first is silent for as long as the second allows |
| `DeliveryHistory.RetriedInTime` | app/database.py:3721-3741 | it is attempted again no earlier than its failed attempt asked for |
| `DeliveryHistory.RecoveredReady` | app/repositories/telegram_notifications.py:645-652 | after a restart an interrupted delivery is due at once |
| `DeliveryHistory.SettlesIff` | app/database.py:3704-3741 | a settlement is taken if and only if the worker's own grant was the last call that wrote the row |
| `DeliveryHistory.AttemptsCounted` | app/database.py:3721-3741 | attempts are exactly the settled retries since the row was last enqueued |
| `DeliveryHistory.NumbersUnique` | app/repositories/telegram_notifications.py:662-692 | rows have different numbers, given out in order |
| `DeliveryHistory.NumbersCount` | app/repositories/telegram_notifications.py:662-692 | one number is used for each row |
| `StrmFailures.FailureLedger.RecordFailure` | app/database.py:2357-2401 | inserts the failure or counts it on the row with the same key |
| `StrmFailures.FailureLedger.ClaimFailures` | app/database.py:2470-2498 | claims exactly the open rows among the requested ids, without repeats and up to the limit |
| `StrmFailures.FailureLedger.ResolveFailure` | app/database.py:2604-2612 | resolves a row of the expected status |
| `StrmFailures.FailureLedger.ResolveForItem` | app/database.py:2615-2632 | resolves the open row of an item |
| `StrmFailures.FailureLedger.ResolutionSnapshot` | app/database.py:2635-2646 | the snapshot has every open row of the source, and no other |
| `StrmFailures.FailureLedger.ResolveBatchOf` | app/database.py:2649-2682 | the chunked update is one update of all files |
| `StrmFailures.FailureLedger.MarkStaleFailure` | app/database.py:2685-2700 | reopens a row as a new failure |
| `StrmFailures.FailureLedger.ReleaseRetryOf` | app/database.py:2703-2718 | reopens a row without counting a failure |
| `StrmFailures.FailureLedger.UpdateRetryOf` | app/database.py:2721-2751 | reopens a row, perhaps under another source, unless that collides |
| `StrmFailures.FailureLedger.DeleteFailures` | app/database.py:2754-2784 | deletes exactly the chosen rows |
| `StrmFailures.SameVersionMeansUntouched` | app/database.py:2357-2751 | if an open row has the counters it had, nothing happened to it in between if and only if no release reopened it while it was resolved |
| `StrmFailures.BatchHidesNothing` | app/database.py:2635-2682 | for a row that a batch resolves, no failure was recorded and it did not leave the open state since the snapshot, whatever the timestamps, if and only if no release reopened it while it was resolved |
| `StrmFailures.BatchResolvesUntouched` | app/database.py:2649-2682 | a batch resolves an open row of its files if and only if its key, counters and time stamp are those the snapshot saw |
| `StrmFailures.HonestIff` | app/database.py:2703-2718 | the operations that never reopen a row under its old version are exactly those that do not release a resolved row |
| `StrmFailures.ReleaseOfResolvedHides` | app/database.py:2703-2718 | a run, within one second, in which a released resolved row is resolved by a batch whose snapshot is from before |
| `FailureHistory.WrittenBy` | app/database.py:2357-2751 | a row is as the last call that wrote it left it: key, error, status, counters and time |
| `FailureHistory.CountersCount` | app/database.py:2357-2751 | its counters are exactly the failures reported for it and the claims that took it |
| `FailureHistory.EventsCount` | app/database.py:2357-2751 | what a resolution must not hide is exactly this: reports, and departures from the open state |
| `FailureHistory.RequestedIff` | app/database.py:2470-2472 | a claim asks for the first distinct ids, as many as the limit says and at least one |
| `FailureHistory.NotClaimedTwice` | app/database.py:2470-2498 | a claimed row is claimed again only after something else was written to it |
| `FailureHistory.ResolvedUntil` | app/database.py:2604-2751 | a resolved row stays so exactly until a failure is reported for it or a caller that expects it resolved takes it up |
| `StrmRetirement.Normalize` | app/database.py:2144-2158 | blank and root ids are dropped, the first entry of an id wins, nameless ones are named after their place |
| `StrmRetirement.NormalizeTwice` | app/database.py:2144-2206 | a stored snapshot reads back as it was written |
| `StrmRetirement.RetirementStore.ApplyReconciliation` | app/database.py:2209-2228 | active ids leave the queue, retired ones enter or are refreshed |
| `StrmRetirement.RetirementStore.SaveSources` | app/database.py:2231-2268 | queue and snapshot change together, or not at all |
| `StrmRetirement.RetirementStore.ReconcileConfigured` | app/database.py:2271-2290 | start-up queues what left the snapshot and records the configuration |
| `StrmRetirement.StartupQueue` | app/database.py:2271-2290 | the queue after start-up: what was queued or recorded, less what is configured |
| `StrmRetirement.NoActiveQueued` | app/database.py:2271-2290 | no configured source is queued after start-up |
| `StrmRetirement.NoActiveSaved` | app/database.py:2231-2268 | no active source is queued after a save |
| `StrmRetirement.CrashConvergentIff` | app/database.py:2231-2290 | start-up reaches the state of the lost commit if and only if no source was dropped or the roots agree |
| `StrmRetirement.RootAloneDiverges` | app/database.py:2231-2290 | a run in which start-up queues a dropped source under another root than the lost commit would have |
| `StrmRetirement.StartupTwice` | app/database.py:2271-2290 | a second reconciliation changes nothing |
| `StrmRetirement.SaveKeepsIff` | app/database.py:2231-2268 | a save forgets no source if and only if each recorded one is in the settings it replaces or in those it writes |
| `StrmRetirement.NoSourceForgotten` | app/database.py:2231-2290 | through saves, crashes, restarts and clean-ups every source ever recorded stays recorded, queued or cleaned if and only if every save was such |
| `StrmRetirement.QueuedAfterRestart` | app/database.py:2271-2290 | a recorded source that is neither configured nor cleaned is queued after the next start-up |
| `StrmRetirement.UnrepairedCrashForgets` | app/database.py:2231-2268 | a run in which a save on top of an unrepaired crash loses a source |
| `RetirementHistory.NormalizedIs` | app/database.py:2144-2158 | normalizing keeps, in order, exactly the first entry of each usable id, with its stripped name or the default name and its place in decimal |
| `RetirementHistory.QueuedSince` | app/database.py:2209-2290 | who is queued was dropped, and has the name and root it was last configured with; since then it was neither cleaned up nor configured |
| `RetirementHistory.StaysQueued` | app/database.py:2209-2290 | and a dropped source stays queued exactly until then |
| `RetirementHistory.AttemptsCounted` | app/database.py:2209-2228 | its attempts are those made since it entered the queue; being dropped again resets none |
| `RetirementHistory.SnapshotAfter` | app/database.py:2231-2290 | the snapshot is what the last commit wrote |
| `RetirementHistory.KnownSources` | app/database.py:2231-2290 | the sources of the theorems above are exactly those that some snapshot held |
| `RetirementHistory.CleanedSources` | app/database.py:2231-2290 | and the cleaned ones those whose clean-up was done and that were not configured again |
| `ActionHistory.History.Add` | app/database.py:4014-4124 | rejects a final status without confirmation id, ignores a late one, else inserts or updates a row; of the writing owner its newest 2000 rows stay, of all at most 20000, and a row is lost only to younger ones of its owner or to a table full of rows that go before it |
| `ActionHistory.History.Select` | app/database.py:4105-4119 | the rows kept are the first in the order of rank and id |
| `ActionHistory.NewestKept` | app/database.py:4105-4119 | the newest row of all is always kept |
| `ActionHistory.NewestRunKept` | app/database.py:4105-4119 | what an owner keeps is a contiguous run of its newest rows |
| `ActionHistory.NewestRunTrimmed` | app/database.py:4089-4099 | the same of the owner's own limit |
| `ActionHistory.CutIsFair` | app/database.py:4105-4119 | an owner that lost a row keeps at most one fewer than any other |
| `ActionHistory.SelectionUnique` | app/database.py:4105-4119 | the selection is determined |
| `ActionHistory.CutMeans` | app/database.py:4089-4119 | both limits in terms of younger rows alone: who stays, and who goes for whom |
| `TelegramText.Truncate` | app/notifier.py:52-65 | the longest prefix of whole characters within the limit |
| `TelegramText.ScanWhole` | app/notifier.py:713-722 | tokens spell the text, and none is empty |
| `TelegramText.OpenRebuilds` | app/notifier.py:709-710 | re-opening a stack of tags rebuilds it |
| `TelegramText.CloseEmpties` | app/notifier.py:705-706 | closing a stack of tags empties it |
| `TelegramText.CloseTokenMark` | app/notifier.py:687-706 | a generated closing tag is read as closing its own name |
| `TelegramTokens.LengthCounts` | app/notifier.py:43-49 | the length counts characters beyond the Basic Multilingual Plane twice |
| `TelegramTokens.ScanIff` | app/notifier.py:713-722 | tokens are the scan of a text if and only if each is the tag, else the entity, else the character at the front of what is left |
| `TelegramTokens.DigitsAre` | app/notifier.py:36 | the characters of decimal and hexadecimal entities |
| `TelegramTokens.TagOfIff` | app/notifier.py:37 | the tag expression by its shape: spaces, slash, spaces, name, and the rest up to the end |
| `TelegramTokens.TransitionMoves` | app/notifier.py:687-702 | a tag not ending in `/>` is added, or removes the innermost open tag of its name with all inside it; anything else changes nothing |
| `TelegramSplit.SplitLongLine` | app/notifier.py:713-745 | the loop over strings computes the pieces of the line |
| `TelegramSplit.PiecesRecoverLine` | app/notifier.py:713-745 | without the inserted tags the pieces are the tokens of the line, in order |
| `TelegramBalance.PiecesBalanced` | app/notifier.py:687-745 | the tokens of every piece leave no tag open and re-open exactly the tags open at its cut; its text is read as these tokens if and only if nothing is closed after it or each bare `<` in it is tied to a `>`, and then leaves no tag open |
| `TelegramBalance.LooseReading` | app/notifier.py:687-745 | a piece not read as made: the scanner takes the first loose `<` and all up to the first closing tag as one tag, and which tags stay open |
| `TelegramBalance.PiecesOfTidyLine` | app/notifier.py:713-745 | every piece of a line without bare `<` is read as made and leaves no tag open |
| `TelegramReading.TagOfIsTag` | app/notifier.py:687-702 | whatever the tag expression matches as a whole is a single token of the scanner |
| `TelegramReading.Transplant` | app/notifier.py:713-745 | tokens cut out of a line are read again at the end of a text, and before a tag if each bare `<` is tied |
| `TelegramReading.ScanReads` | app/notifier.py:716-722 | a text put together from tokens is scanned into these tokens if and only if the scanner takes each of them at its place |
| `TelegramSplit.PiecesWithinLimit` | app/notifier.py:713-745 | if tags, one token and closing tags fit, every piece is within the limit |
| `TelegramSplit.SplitMessage` | app/notifier.py:763-790 | the nested loops compute the chunks of a message |
| `TelegramPacking.PiecesGreedy` | app/notifier.py:713-745 | a long line is cut only where the next token no longer fits, and there it is |
| `TelegramPacking.LineWhole` | app/notifier.py:776-780 | a line is taken whole if and only if it is within the limit |
| `TelegramPacking.ShortWhole` | app/notifier.py:763-771 | a text without an oversized tag stays as it is, in one chunk if it is short |
| `TelegramPacking.OversizedEscaped` | app/notifier.py:763-771 | a text with one is escaped as a whole |
| `TelegramPacking.MessagePacked` | app/notifier.py:763-790 | the chunks are all pieces of all lines, in order, cut only where the next piece does not fit; at most an empty end is left out, and no chunk is empty but an only one |
| `TelegramPacking.GluedIs` | app/notifier.py:782-788 | a chunk is its pieces one under the other, from the first that is not empty on |
| `TelegramPacking.OversizedIff` | app/notifier.py:748-760 | a tag is oversized if and only if it does not fit with what closes it |
| `TelegramPacking.EscapeUndone` | app/notifier.py:768-769 | an HTML reader gets the escaped text back |
| `TelegramPacking.EscapedPlain` | app/notifier.py:768-769 | no character that could begin or end a tag or an attribute is left in it |
| `TelegramMessage.MessageRecovered` | app/notifier.py:763-790 | the chunks hold the tokens of all lines, in order, and so spell the text without its line breaks |
| `TelegramMessage.PieceWithinIff` | app/notifier.py:713-745 | a piece of a long line is over the limit if and only if it has a single token, for which the tags leave no room |
| `TelegramMessage.ChunksWithinIff` | app/notifier.py:763-790 | all chunks are within the limit if and only if the text is short or no long line has such a piece |
| `TelegramMessage.ChunksWithinLimit` | app/notifier.py:763-790 | every chunk is within the limit if at each token of a long line the tags and the token fit |
| `TelegramMessage.OversizedTextWithinLimit` | app/notifier.py:748-790 | text with an oversized tag is escaped and then always within the limit |
| `TelegramMessage.NestedTagsExceed` | app/notifier.py:713-790 | messages such as `<b><i>xxx` whose tags fit one by one and that are split into a chunk over the limit |
| `TelegramMessage.BareLeavesOpen` | app/notifier.py:713-790 | messages such as `<b><xxxxx` whose first chunk, `<b><</b>`, is read with the tag left open |
| `TelegramDelivery.Bot.SendRest` | app/notifier.py:833-865 | the loop over chunks, and what it reports after a failure |
| `TelegramDelivery.Bot.SendNotice` | app/notifier.py:1096-1183 | photo with caption, fall-back to text, and the chunks that follow |
| `TelegramDelivery.Bot.DeliverNotice` | app/notifier.py:265-293 | re-sending while the result is retryable |
| `TelegramDelivery.DeliveredAtMostOnce` | app/notifier.py:833-1183 | with honest refusals, all attempts together deliver the beginning of one plan, the whole of it on success |
| `TelegramDelivery.RetryableMeansNothingArrived` | app/notifier.py:276-293 | a retryable result says that nothing of the attempt arrived |
| `TelegramDelivery.DishonestRefusalRepeats` | app/notifier.py:286-293 | a 429 for a message that arrived makes it arrive twice |
| `TelegramAttempts.TextsMean` | app/notifier.py:833-865 | messages go out in order, each once, up to the first that fails, and the report says so |
| `TelegramAttempts.SendMeans` | app/notifier.py:1096-1183 | what an attempt does, from the answers alone: nothing when not configured, the messages, or the photo and its captions, with the messages instead exactly if the photo is refused as a client error other than 408 and 429 |
| `TelegramAttempts.DeliverMeans` | app/notifier.py:265-293 | another attempt is made exactly after a 429 or a server error before anything was delivered, while retries are left |
| `TelegramAttempts.GetsThrough` | app/notifier.py:265-293 | once the trouble is over the notification gets through, whole and once, if the server was busy for no more calls than there are retries |
| `SnapshotCache.MediaSnapshotCache.PeekAt` | app/services.py:101-107 | a snapshot of the key within its retention, and within its lifetime unless stale ones will do |
| `SnapshotCache.MediaSnapshotCache.Invalidate` | app/services.py:109-115 | raises the generation and drops or ages the snapshot |
| `SnapshotCache.MediaSnapshotCache.Publish` | app/services.py:117-154 | merges, limits and stores a refresh only if no invalidation came between |
| `SnapshotCache.MergeReadings` | app/services.py:276-306 | the merge loop of readings with old content, and whether anything was retained or failed |
| `SnapshotCache.PublishAged` | app/services.py:117-154 | publishing keeps every item within the retention limit of its reading |
| `SnapshotRuns.ShownIsRecent` | app/services.py:92-154 | whatever a reader is shown, of either cache, was read successfully less than 300 seconds before, however many refreshes failed |
| `SnapshotRuns.NotStoredAfterInvalidation` | app/services.py:117-154 | a load begun before an invalidation is never stored after it |
| `SnapshotRuns.ClearedListsGone` | app/services.py:175-218 | after a clear no current board uses a recent list loaded before it |
| `SnapshotRuns.ClearedListIff` | app/services.py:117-306 | after a clear, a board uses an earlier recent list if and only if it goes back, through failed readings only, to a kept board that used one |
| `SnapshotRuns.KeptListStoredAgain` | app/services.py:117-306 | a run in which a failing refresh after a clear stores an earlier list again |
| `SnapshotMeaning.PeekIff` | app/services.py:101-107 | when a reader is shown the snapshot |
| `SnapshotMeaning.MergedShows` | app/services.py:276-306 | what is shown of a server that failed, half failed or was read |
| `SnapshotMeaning.PublishedMeans` | app/services.py:117-154 | what a refresh leaves: whose content, fresh for 1 to 300 seconds and at most 5 after trouble, retained for 300 seconds or as long as what it keeps |
| `SnapshotMeaning.RefreshMeans` | app/services.py:117-154 | of either cache, in every run |
| `SnapshotMeaning.RecentStep` | app/services.py:109-115 | and nothing else writes to a cache but an invalidation, which ends freshness at once |
| `SnapshotMeaning.DashStep` | app/services.py:109-115 | the same of the dashboards |
| `SnapshotMeaning.ClockStep` | app/services.py:92-154 | time passes in its own steps, and in no other |
| `SnapshotMeaning.SparedIff` | app/services.py:122-129 | a load waiting for its turn is spared exactly if there is a fresh snapshot and, if forced, one of another forced load that came since |
| `SnapshotMeaning.ForcedGetsNewer` | app/services.py:122-129 | a forced load is spared only by a snapshot stored after it had come |
| `SnapshotMeaning.StoredOnce` | app/services.py:117-154 | no load is stored twice |
| `SnapshotMeaning.ReuseMeans` | app/services.py:203-218 | a dashboard reuses the recent list of a server exactly if it is fresh and that part of it was read and is not stale |
| `DiscoveryPaging.ScanPage` | app/services.py:1289-1308 | one page yields what counts on it from the offset on, without repeats |
| `DiscoveryPaging.Collect` | app/services.py:1236-1354 | the loop computes the batch, with its cursor, from the pages, the library and the interruptions |
| `DiscoveryPaging.CollectedPromised` | app/services.py:1236-1354 | at most `limit` items from at most eight pages, an advancing cursor, and no gap if and only if nothing was to be accepted, or something is asked for and a library to be excluded answered; otherwise exactly that is lost |
| `DiscoveryPaging.InterruptedCallLoses` | app/services.py:1310-1339 | an interrupted call that loses a card |
| `DiscoveryPaging.ZeroLimitLoses` | app/services.py:1331-1339 | a limit of zero that loses a card |
| `DiscoveryPaging.ReadSplits` | app/services.py:1336-1339 | cutting what was read after a card leaves exactly what lies ahead of its position |
| `DiscoveryPaging.FollowAll` | app/services.py:1236-1354 | following the cursors of uninterrupted calls delivers exactly the filtered sequence and ends |
| `DiscoveryMeaning.RemainingIff` | app/services.py:1289-1330 | the sequence to be delivered has a card if and only if its page can be reached, it stands after the cursor, is the first of its key on the page, and fits kind, years and library |
| `DiscoveryMeaning.RemainingInOrder` | app/services.py:1289-1308 | page by page, and on a page by position |
| `DiscoveryMeaning.StopMeans` | app/services.py:1236-1354 | a call stops only for an interruption, a failing page, the limit reached, the end of the source, or after eight pages or the hundredth |
| `DiscoveryMeaning.InterruptedInTime` | app/services.py:1262-1343 | an interruption is heeded before a page is read, after it was read, and before the page is said to have failed |
| `DiscoveryMeaning.FairBatch` | app/services.py:1236-1354 | undisturbed, it returns all there is on the pages it read, up to the limit, and reads no page more than it needs |
| `RateLimiter.Limiter.Prune` | app/security.py:31-46 | drops expired failures, and an identity without any |
| `RateLimiter.Limiter.RecordFailure` | app/security.py:49-73 | records the failure; exactly if the identity is new and all of 4096 identities have failed within fifteen minutes, the one whose last failure is oldest is forgotten |
| `RateLimiter.Limiter.EvictOldest` | app/security.py:65-70 | evicts the identities whose last failure is oldest, until one more fits and no further |
| `RateLimiter.Limiter.Limited` | app/security.py:102-108 | a limited identity has five failures in the last 900 seconds, and conversely unless eviction took some of these |
| `RateLimiter.Limiter.Clear` | app/security.py:119-121 | forgets one identity and no other |
| `RateLimiter.DroppedIsRecent` | app/security.py:40-41 | popping from a sorted queue keeps exactly the recent failures |
| `RateLimiter.Answer` | app/security.py:31-46 | the pruned queue counts the recent failures, less what eviction took |

## Left out

- Inspection of a ticket and the owner check (`inspect_ticket`, `ticket_owner_match`): they read what `ClaimIff` already decides.
- Corrupt rows of the SQLite ticket table, JSON depth and size limits, digests of owners: abstracted to valid values and injective names.
- Ties between equal ages in an eviction are broken arbitrarily by the model.
- `ConfirmationRefinement.StoresAgree` assumes distinct deadlines, fresh tokens, and that no epoch is pruned while a caller holds its generation; without these the two stores may differ.
- Single-flight: `clear` with its cache callback is one step, because reads of the cache commute with it; time-outs of waiters are steps that may happen at any time.
- user.env: permissions, ownership, links and inode checks; an exception after publication other than a crash; partial writes other than an empty or a complete temporary file.
- user.env: a reader that finds the target missing just before another process creates it gets an empty configuration; recovery is one atomic call here.
- Non-UTF-8 text, and digits outside ASCII in numeric HTML entities.
- `update_organize_confirmation`, roll-ups, message bindings and payloads of confirmations; the repository functions that enqueue deliveries in the same transaction are one abstract insert.
- `StrmFailures.FailureLedger.ClaimFailures`: answers the claimed rows as a set, because their order says nothing more.
- The identity of a claim of an STRM retry: `resolve_strm_failure` compares only the status, so a late worker may settle another worker's claim.
- Validation and redaction of action history entries; only ids and owners are kept.
- A chunk joins whole short lines with pieces of long ones. Tags that a text opens on one line and closes on another are not balanced in a chunk by the code, and nothing is stated of them.
- Editing of messages, buttons, message threads and logging in the notifier.
- Snapshot cache: the refresh lock; the model allows more interleavings than it does, so the theorems do not need it. Mixed fields of partly failed boards are one value.
- `DiscoveryPaging.Collect`: assumes a source that does not change and shows no card on two pages for the joining of batches; provider status, cache flags and counters are not modelled.
- Library matching by title, dashboards' network reads, the web layer, the command line, schema migrations.
