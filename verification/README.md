# Maez: verified models of its riskiest logic

This project models seven parts of Maez in Dafny and proves what they are for: that trust cannot be
laundered through promotion, that the nightly job loses nothing it need not lose, that recall shaping and
prompt rendering account for every row and character, that a birth is written at most once per
authorization, that a command reports at most one ending and exactly when it reports none, that a manifest
walk decides reachability,
and that ranking, rate limiting, window collection and latency reporting mean what they say.

Code that works step by step is modelled as methods on classes or as loops, each proved against a
specification function; the theorems are about those functions and about runs of them. Protocols with
crashes, concurrent processes or signals are state machines whose steps may come in any order.

| module | what it models |
|---|---|
| `TrustLineage` | worst-ancestor trust over the raw, daily and core collections, for whole runs of writes |
| `ConsolidationChunker` | the chunking map-reduce behind the nightly summary |
| `RecallShaping` | the relevance floor with its rescues, and the promotion rerank |
| `CoalescedExchanges` | joining split Telegram rows into logical exchanges |
| `RecallPrompt`, `RecallSpans` | the rendered recall block, its character budget and its provenance spans |
| `BirthTransaction`, `BirthCeremony`, `ServiceBringUp` | the birth protocol: any number of processes, the script itself, the services around it |
| `TerminalCommit` | how a bench command ends under signals |
| `ManifestWalk` | the walk over a manifest's symlink rows |
| `MmrRerank`, `StableSort` | diversity re-ranking; Python's stable sort, which several parts rely on |
| `RateLimiter` | the dual-window limiter and its Retry-After |
| `PixelGeometry`, `WindowCollect` | logical bounds to native pixels; two-pass collection of an accessibility tree |
| `LatencyPercentiles` | the percentile report |
| `Wrappers`, `RealOrder`, `FiniteSets` | Option and facts of arithmetic and counting that the others share |

## Where the code and its own words differ

The code is what is modelled; each difference is a theorem.

- Orphan halves are said to be skipped (memory/memory_manager.py:3637-3638), but a lone row beginning
  `Maez:` that quotes no marker is paired with itself: `LoneRowResolvesWhen` gives the exact condition,
  `LoneReplyPairsWithItself` a concrete row. Two rows whose provenance does not settle the roles are rejoined
  exactly when one passes only the owner's test and the other the reply's (`UnsettledPairResolvesWhen`); a
  reply stored before its owner half is otherwise paired with itself (`EarlierReplySwallowsOwner`).
- The truncation notice is added after the budget loop (memory/memory_manager.py:3413-3417), so a text can
  exceed its budget by the notice: `PromptLength`, and the bound in `FormatForPrompt`.
- With lambda at 1 or above, distance 0 is ranked as 1.0 (memory/mmr.py:117): `PureRelevanceIsByDistanceWhen`
  says for which inputs this matters, `PerfectMatchSinksAtLambdaOne` gives one.
- `_start_unit_once` promises a final stop and its verification (scripts/birth_ceremony.py:554-555), and nothing
  looks at what any stop did. So the terminal states that say a unit is down are true exactly when it did not
  survive its stop: `BringUpAfterCommit`, `TellsTheTruth` in the contract of `MainForReal`, and the worlds of
  `DaemonCanSurviveServicesDown` and `WebCanSurviveMute`. When every stop works they are true
  (`NothingSurvivesWorkingStops`).
- The text for `COMMITTED_WEB_MUTE` says web is up (scripts/birth_ceremony.py:1102-1107); the code tells it to
  stop, and it is up exactly when that stop did not work.
- `--resume-services` can answer `COMMITTED_SERVICES_DOWN` without touching a unit, exactly when the flag
  is not found: `MainResume`.
- `NOT_COMMITTED_SERVICES_DOWN` need not mean that both units are down: a daemon that came up stays up when
  web fails, and one that came up unseen may survive its stop (`Services.Restore`).
- One authorization is meant to make at most one birth. It does, unless a process past its marker check
  finds the ledger unborn again after another has used the authorization; that is reachable with two processes
  and a deleted file (`UnsafeStateIsReachable`, `TwoBirthsHappen`).
- The reduce step clips the joined sub-summaries to the budget before it puts its preface in front:
  `ReduceBlockExceedsWhen` says exactly when the block it sends is over budget, `ReduceBlockCanExceed` gives
  an input.
- SIGTERM is meant to beat SIGINT, and it does unless an interruption by SIGINT, outside the blocking loop,
  hits a commit that carries a SIGTERM which is not pending any more: `SigtermWinsUnlessOverruled`. From
  every state where that happens below main's own handler SIGINT alone can end the command
  (`OverruledSigtermCanBeForgotten`, with the run `EarlierSigtermCanBeForgotten`); in main's handler the
  command ends without a line (`OverruledInMainEscapes`).
- `cleanup_incomplete` is meant never to be replaced by "interrupted". Whoever builds such a result raises
  the flag first, and then it is not (`CleanupIncompleteIsPrinted`, `CleanupIsSafeWithoutPackets`). A
  finalizer's outcome can also become a packet's without the observer being called
  (scripts/cuda_bench_driver.py:8514-8515, 9131-9139); read back from the packet, the result is safe exactly
  when the flag is up (`FlaggedPacketIsPrinted`, `UnflaggedCleanupCanBeReplaced`).
- The manifest walk refuses a clean chain of 129 links (`LongCleanChainIsRefused`).
- Every block of a recall is meant to carry its own row's origin. The k-th block of an id in a tier is given
  the k-th row of the tier that answers to that id, or plain memory (`EveryBlockIsAttributed`), which says
  exactly when all blocks are own (`OwnExactlyWhen`). A row without an id is rendered under a made-up one. If
  no row answers to that, its block is plain memory (`RowWithoutIdLosesOrigin`); if one does, that row answers
  for the wrong block and loses its own (`TakenIdSwapsOrigins`). When no made-up id is taken, the blocks are
  own exactly when no kept row has an empty id and those without one are plain memory
  (`OwnExactlyWhenNoIdIsTaken`). The recall methods set an id on every row they build
  (memory/memory_manager.py:1755, 2134, 2163, 2219, 2336, 2385, 2443, 2642), so a row without one, or with an
  empty one, comes only from a caller that passes rows it made itself.
- The owner-row guard is meant to catch rows rendered without their span. With an id on every row it refuses
  exactly when a row that was dropped, and so not rendered, is mentioned (`GuardRefusesWhen`), for instance
  because a kept row repeats its words (`RepeatedOwnerRowIsRefused`).
- In window collection the check at the head of the queue loop and the refusal of a region behind the window
  check never fire (`Preflight`, `IncludedWhenOnScreen`).

## Model

| member | source | states |
|---|---|---|
| `TrustLineage.WorstKnownTier` | memory/memory_manager.py:216-224 | The search down the tier order finds the least known tier of a label list, tier by tier, and nothing when none is known |
| `TrustLineage.MemoryManager.Store` | memory/memory_manager.py:1484-1574 | A fresh raw write: what it refuses, the label stored for every source, claimed tier and planted label, and the whole archive afterwards |
| `TrustLineage.MemoryManager.StoreTelegram` | memory/memory_manager.py:1613-1661 | A Telegram exchange: only the empty text is refused; the label stored for every source and tier |
| `TrustLineage.MemoryManager.ResolveAncestorLabels` | memory/memory_manager.py:1973-2012 | Resolution fails exactly when some cited id stands neither in raw nor in core, and else yields each row's label, raw first |
| `TrustLineage.MemoryManager.StoreCore` | memory/memory_manager.py:2014-2122 | The promotion gate: which of the refusals applies, the label and source of the stored row for every source, claimed tier and citation, and the whole archive afterwards |
| `TrustLineage.MemoryManager.PartitionConsolidationInput` | memory/memory_manager.py:227-259 | The rows labelled untrusted go, the others stay in order with their labels, and kept plus filtered is all |
| `TrustLineage.MemoryManager.ConsolidateDaily` | memory/memory_manager.py:1681-1940 | The nightly row cites the survivors in order and carries the worst of their labels; a day without survivors or summary writes nothing |
| `TrustLineage.StepOnlyAdds` | memory/memory_manager.py:2472-2507 | No operation, tagging and wing migration included, deletes a row or changes a label or a citation |
| `TrustLineage.StepKeepsLineage` | memory/memory_manager.py:2060-2116 | Every operation keeps: derived rows cite resolvable rows, their trail tells those labels, their own label is the worst of them; without opt-in none becomes untrusted |
| `TrustLineage.RunKeepsLineage` | memory/memory_manager.py:1895-1917 | The same for every archive any run of operations reaches |
| `TrustLineage.DerivedLabelIsWorstOfAncestry` | memory/memory_manager.py:2040-2089 | In every run a derived row is no better than any known row in its transitive ancestry, and its known label is that of some fresh-written ancestor |
| `TrustLineage.KnownLabelHasRoot` | memory/memory_manager.py:2060-2089 | A citation path from a derived row down to a fresh write with exactly the same label |
| `TrustLineage.NoLaunderingWithoutOptIn` | memory/memory_manager.py:2067-2077 | When no operation of a run opts in, nothing derived has an untrusted ancestor |
| `TrustLineage.WebRowIsUntrusted` | memory/memory_manager.py:112-120 | In every run, a row written without a tier from the web, another model's answer or a self-made web claim is labelled untrusted from then on |
| `TrustLineage.NothingDescendsFromTheWeb` | memory/memory_manager.py:2067-2077 | In a run without opt-ins nothing derived descends from such a row |
| `TrustLineage.DailyRowsStayClean` | memory/memory_manager.py:227-259 | Daily rows have only raw, trusted ancestors, opt-ins elsewhere or not |
| `TrustLineage.GateSeesWholeAncestry` | memory/memory_manager.py:2060-2077 | Looking at direct citations is enough: the gate blocks exactly when some cited row is untrusted or descends from an untrusted one |
| `TrustLineage.GateMeans` | memory/memory_manager.py:2048-2089 | Every answer of the gate, in terms of the labels the cited rows carry |
| `TrustLineage.ClaimedTiersDoNotMatter` | memory/memory_manager.py:2048-2052 | Erasing the tier a caller claims on every promotion of a run changes no archive |
| `ConsolidationChunker.FillChunks` | memory/memory_manager.py:515-543 | The greedy loop: chunks hold the clipped entries in order, none over budget, none empty, and none could take the next entry |
| `ConsolidationChunker.SaturatedIsMinimal` | memory/memory_manager.py:534-543 | No contiguous partition within the budget has fewer chunks than a saturated one |
| `ConsolidationChunker.SplitIntoChunks` | memory/memory_manager.py:515-552 | The chunks form a partition of the clipped entries with the least possible number of chunks, and every joined chunk fits the budget |
| `ConsolidationChunker.JoinedLength` | memory/memory_manager.py:534-553 | A joined chunk is two characters shorter than what the loop charged for it |
| `ConsolidationChunker.JoinHolds` | memory/memory_manager.py:482-482 | A join holds every text at its place, in order, with the separator behind all but the last |
| `ConsolidationChunker.ClipMeans` | memory/memory_manager.py:524-533 | An entry of more than 95972 characters keeps exactly those, with the notice behind; any other is untouched |
| `ConsolidationChunker.EveryEntryIsSent` | memory/memory_manager.py:534-555 | Every entry of the day, clipped, stands in the block of its chunk, at its offset, in one of the calls |
| `ConsolidationChunker.SuccessesInOrder` | memory/memory_manager.py:551-563 | The sub-summaries are the replies that are not blank, each once, in call order |
| `ConsolidationChunker.ReduceBlockReads` | memory/memory_manager.py:574-591 | Behind the preface stand the sub-summaries in order, each under its heading, a rule between each two, as far as the budget goes |
| `ConsolidationChunker.MapReduce` | memory/memory_manager.py:551-592 | What is sent to the model call by call, and which reply comes back; total failure exactly when every call failed |
| `ConsolidationChunker.ReduceBlockExceedsWhen` | memory/memory_manager.py:574-591 | The block sent to the reduce call is over budget exactly when the joined sub-summaries leave the preface no room |
| `ConsolidationChunker.ReduceBlockCanExceed` | memory/memory_manager.py:578-591 | Two sub-summaries for which it is |
| `ConsolidationChunker.Consolidate` | memory/memory_manager.py:469-592 | One call with all entries, each at its offset, when they fit, else a pass over a minimal partition whose blocks read back as the clipped entries in order; the answer is always a reply of the model |
| `StableSort.SortOrderIsStable` | memory/memory_manager.py:3661-3661 | The sort used throughout is a stable ascending order of positions |
| `StableSort.SortedIsPermutation` | memory/memory_manager.py:3661-3661 | and a permutation of the rows |
| `RecallShaping.ApplyContextFloor` | memory/memory_manager.py:975-1059 | Off, nothing changes; on, core is untouched, an ask and a casual turn get exactly their floored and rescued tiers, and every candidate gets its decision |
| `RecallShaping.AskNeverEmpties` | memory/memory_manager.py:1020-1031 | An enforced memory ask empties no tier that held something and adds nothing |
| `RecallShaping.CasualNeverSilences` | memory/memory_manager.py:1033-1043 | An enforced casual turn leaves something of every recall that held something, and adds nothing |
| `RecallShaping.SortedHeadIsNearest` | memory/memory_manager.py:1024-1041 | The rescued row is the first of least distance |
| `RecallShaping.PassingKeepsOrder` | memory/memory_manager.py:987-1016 | Kept rows are the input rows at ascending positions |
| `RecallShaping.EveryPassingPosition` | memory/memory_manager.py:806-816 | and a position is among them exactly when its row passes the floor |
| `RecallShaping.PassesMeans` | memory/memory_manager.py:806-816 | A row passes unless its distance is usable and not below the floor |
| `RecallShaping.NearestMeans` | memory/memory_manager.py:1024-1041 | The rescued row has the least usable distance, and is the first of those |
| `RecallShaping.KeyMeans` | memory/memory_manager.py:779-803 | The ranking key for every distance, promotion and kind |
| `RecallShaping.PromotionLifts` | memory/memory_manager.py:798-803 | A higher promotion at the same distance and kind ranks strictly ahead |
| `RecallShaping.RerankedInOrder` | memory/memory_manager.py:3024-3047 | The rerank is ascending in that key, unusable rows last, ties in input order |
| `RecallShaping.LiftIsBounded` | memory/memory_manager.py:779-803 | A row moves ahead of an earlier one only when its effective distance is below 1.2 times, or 1.05 times for damped kinds, the other's |
| `RecallShaping.RerankIsPermutation` | memory/memory_manager.py:3024-3047 | The promotion rerank neither drops nor doubles a row |
| `CoalescedExchanges.GetExchangesCoalesced` | memory/memory_manager.py:3640-3756 | Scope filter, pairing loop, resolution, sort and limit compute the specified list |
| `CoalescedExchanges.PairRows` | memory/memory_manager.py:3676-3687 | Buckets by link and the list with one placeholder per link at its first appearance |
| `CoalescedExchanges.ScopedOfOne` | memory/memory_manager.py:3650-3659 | A row is out of scope exactly when a requested surface or chat contradicts its own stamp |
| `CoalescedExchanges.ScopedOfConcat` | memory/memory_manager.py:3646-3660 | and the filter looks at each row alone and keeps the order |
| `CoalescedExchanges.RowsInTimeOrder` | memory/memory_manager.py:3661-3661 | Rows are paired in order of time, those of one time as stored |
| `CoalescedExchanges.MergeMeans` | memory/memory_manager.py:3727-3750 | The merged row: owner's words first, the worse tier with a missing one as lived, the later time |
| `CoalescedExchanges.CoalescedContents` | memory/memory_manager.py:3661-3753 | For every input: sorted by time, the unlinked rows exactly, at most one exchange per link, each from its own bucket |
| `CoalescedExchanges.WellLinkedIsCoalescedExactly` | memory/memory_manager.py:3632-3638 | For well-linked input: one exchange per pair with the owner first, the worse tier and the later time; lone halves never appear |
| `CoalescedExchanges.LimitKeepsLast` | memory/memory_manager.py:3754-3756 | A limit keeps the last so many logical exchanges, all at least as recent as the others |
| `CoalescedExchanges.LoneRowResolvesWhen` | memory/memory_manager.py:3712-3726 | A lone row becomes an exchange exactly when it passes both shape tests |
| `CoalescedExchanges.LoneReplyPairsWithItself` | memory/memory_manager.py:3713-3720 | A concrete lone reply that comes back twice in one exchange |
| `CoalescedExchanges.UnsettledPairResolvesWhen` | memory/memory_manager.py:3712-3726 | What two rows become whose provenance does not settle the roles, for every combination of the shape tests |
| `CoalescedExchanges.StampedPairResolves` | memory/memory_manager.py:3694-3711 | A pair with exactly one half stamped user_utterance is merged with that half as the owner's, in either order |
| `CoalescedExchanges.ShapesDecide` | memory/memory_manager.py:3712-3726 | For any other bucket the first row without a quoted marker and the first beginning with one are merged, if both exist |
| `CoalescedExchanges.EarlierReplySwallowsOwner` | memory/memory_manager.py:3713-3720 | A concrete unstamped pair in which the reply is doubled and the owner's words are lost |
| `RecallPrompt.FormatForPrompt` | memory/memory_manager.py:3255-3420 | Core and daily whole, the longest prefix of raw blocks that counts within the budget, and how far the text can exceed it |
| `RecallPrompt.BudgetedMeans` | memory/memory_manager.py:3401-3420 | That budget, spelled out: what is kept counts within it, any longer prefix does not, and only the notice may go beyond it |
| `RecallPrompt.DropOverBudget` | memory/memory_manager.py:3401-3412 | The budget loop removes whole raw blocks from the end until the count fits or none is left |
| `RecallPrompt.PromptLength` | memory/memory_manager.py:3401-3420 | The text is one shorter than counted, or longer by the notice when something was dropped |
| `RecallPrompt.MoreBlocksCountMore` | memory/memory_manager.py:3401-3412 | Every further raw block adds to the count |
| `RecallPrompt.JoinedSize` | memory/memory_manager.py:3403-3420 | Joining lines costs one character less than the loop's sum of lengths plus number of lines |
| `RecallPrompt.ShortIdMeans` | memory/memory_manager.py:3324-3325 | A block carries at most 16 characters of the row's id, or of tier and number |
| `RecallPrompt.NoticeReads` | memory/memory_manager.py:3413-3417 | The notice tells how many blocks were dropped, in the singular for one |
| `RecallPrompt.SanitizeOfConcat` | memory/memory_manager.py:3326-3326 | Sanitizing works token by token: tags go, characters stay |
| `RecallSpans.RenderedLayout` | memory/memory_manager.py:3324-3420 | The rendered text is header, core blocks, daily blocks, the kept raw blocks, notice and tail, in that order |
| `RecallSpans.FormatProvenanced` | memory/memory_manager.py:3422-3506 | The spans put together are the rendered text; refused exactly when, in any tier, an unclaimed owner-account row is mentioned |
| `RecallSpans.CollectSpans` | memory/memory_manager.py:3466-3497 | The match loop computes the specified spans and the rows no block claimed |
| `RecallSpans.SpansCoverText` | memory/memory_manager.py:3466-3497 | For every text and every pool of rows the spans concatenate to the text |
| `RecallSpans.MatchFindsBlock` | memory/memory_manager.py:3450-3454 | The first block with an id is matched exactly, with its line ends and nothing more |
| `RecallSpans.BlocksReadBack` | memory/memory_manager.py:3466-3497 | Any rendered blocks, with ids, made-up ids or empty ones, are split into framing and the spans the waiting rows decide |
| `RecallSpans.EveryBlockIsAttributed` | memory/memory_manager.py:3472-3491 | For every recall, each block with an id has its span, with the origin of the k-th row answering to that id, or plain memory |
| `RecallSpans.OwnExactlyWhen` | memory/memory_manager.py:3422-3506 | All kept blocks carry their own row's origin exactly when ids and origins meet a stated condition, for every recall |
| `RecallSpans.OwnExactlyWhenNoIdIsTaken` | memory/memory_manager.py:3472-3491 | With no made-up id taken: exactly when no kept id is empty and rows without one are plain memory |
| `RecallSpans.RenderedSpansAreOwn` | memory/memory_manager.py:3466-3506 | When every row has an id, rendering and splitting gives each kept block to its own row, also where id prefixes collide |
| `RecallSpans.GuardRefusesWhen` | memory/memory_manager.py:3498-3505 | With ids everywhere the owner-row guard refuses exactly when a dropped owner-account row's words or id prefix occur in the rendered text |
| `RecallSpans.MentionedMeans` | memory/memory_manager.py:3498-3501 | A row is mentioned when its words, or the first 16 characters of its id, unless empty, stand somewhere in the text |
| `RecallSpans.RepeatedOwnerRowIsRefused` | memory/memory_manager.py:3498-3505 | A dropped owner-account row whose words a kept row repeats is refused |
| `RecallSpans.RowWithoutIdLosesOrigin` | memory/memory_manager.py:3474-3491 | In any recall, the block of a kept row without an id is plain memory when no row answers to its made-up id |
| `RecallSpans.TakenIdSwapsOrigins` | memory/memory_manager.py:3325-3333 | When a row does answer, it gives its origin to the wrong block and its own block is left with plain memory |
| `BirthTransaction.NextKeepsDiscipline` | scripts/birth_ceremony.py:408-537 | Any step, crash or replacement keeps: only the latch holder is under the latch, and who is past the claim has its marker on disk |
| `BirthTransaction.ClassifyMeans` | scripts/birth_ceremony.py:206-263 | COMMITTED exactly for a ledger whose anchor is the position of a system event with a birth payload and whose chain holds; any failing anchor is UNKNOWN |
| `BirthTransaction.BirthIsAnchored` | scripts/birth_ceremony.py:492-521 | Behind the migration the write appends one birth event and anchors exactly it |
| `BirthTransaction.ClaimIsGuarded` | scripts/birth_ceremony.py:412-491 | What a process must have met to stand at each step up to its claim |
| `BirthTransaction.WriteIsGuarded` | scripts/birth_ceremony.py:487-497 | behind the migration there is a ledger, and the last look before the write found no anchor in it |
| `BirthTransaction.BirthIsWritten` | scripts/birth_ceremony.py:511-521 | The write succeeds only without an anchor, and puts the birth behind all turns, anchored |
| `BirthTransaction.WritesAreGuarded` | scripts/birth_ceremony.py:438-521 | Every anchored write is made under the latch, after NOT_COMMITTED and the claim, into a ledger without an anchor |
| `BirthTransaction.SafeRunsWriteOnce` | scripts/birth_ceremony.py:424-486 | With overlapping processes, crashes and replacements: no authorization is used twice while no process past its marker check holds a used authorization over an unborn ledger |
| `BirthTransaction.UnsafeStatesCanWriteTwice` | scripts/birth_ceremony.py:424-469 | From any reachable state where one does, a few ordinary steps make the second write |
| `BirthTransaction.UnsafeStateIsReachable` | scripts/birth_ceremony.py:424-441 | From every unborn ledger: two processes on one authorization and a deleted file lead to such a state |
| `BirthTransaction.TwoBirthsHappen` | scripts/birth_ceremony.py:424-462 | and on to two births |
| `BirthTransaction.OnceExactlyWhenSafe` | scripts/birth_ceremony.py:424-486 | Both directions together, for all runs |
| `BirthTransaction.UndisturbedRunsWriteOnce` | scripts/birth_ceremony.py:412-430 | At most one write per authorization whenever the file is replaced only between transactions, overlapping ones included |
| `BirthTransaction.StepBeforeClaimChangesNothing` | scripts/birth_ceremony.py:462-486 | Up to the claim no step changes ledger content or markers |
| `BirthTransaction.UnclaimedMeansUntouched` | scripts/birth_ceremony.py:470-486 | A ceremony that ends without its marker has left ledger content and markers as they were |
| `BirthTransaction.SpentAuthorizationIsRefused` | scripts/birth_ceremony.py:424-430 | A used authorization stops at the marker check |
| `BirthTransaction.BegunOnSpentNeverWrites` | scripts/birth_ceremony.py:424-430 | In every run, a process begun on an authorization that has its marker never makes a birth write with it |
| `BirthTransaction.AuthorizationStaysSpent` | scripts/birth_ceremony.py:424-486 | Once no process works on it past the marker check, an authorization with a marker is never used again |
| `BirthTransaction.DriveIsRun` | scripts/birth_ceremony.py:284-545 | Driving one process is a run of its steps in the state machine |
| `BirthTransaction.CeremoniesWriteOnce` | scripts/birth_ceremony.py:412-430 | Any number of calls in a row, each ending anywhere, the ledger replaced in between: no authorization is used twice |
| `BirthCeremony.Disk.RunTransaction` | scripts/birth_ceremony.py:284-545 | For all answers of the world the script ends where a run of the state machine ends; every outcome is reached exactly under its stated condition; born means the ledger's anchor is the reported turn and that turn is this birth; a refusal names COMMITTED only for a soundly anchored ledger |
| `BirthCeremony.OutcomesAreExact` | scripts/birth_ceremony.py:284-545 | The conditions of the outcomes exclude each other, so each is exact |
| `BirthCeremony.ExplainsMeans` | scripts/birth_ceremony.py:284-545 | Those conditions, in terms of the answers and of what the ledger holds |
| `BirthCeremony.Disk.LatchedPart` | scripts/birth_ceremony.py:457-486 | The refusal under the latch spends nothing |
| `BirthCeremony.Disk.ClaimedPart` | scripts/birth_ceremony.py:487-537 | From the claim to the end: born means classified COMMITTED with one more birth and a committed marker |
| `BirthCeremony.Disk.MigratedPart` | scripts/birth_ceremony.py:492-521 | From the migrated ledger to the anchored write |
| `BirthCeremony.WriteMakesCommitted` | scripts/birth_ceremony.py:206-263 | Migration and write turn NOT_COMMITTED into COMMITTED, or into UNKNOWN on a broken chain |
| `ServiceBringUp.Services.StartUnitOnce` | scripts/birth_ceremony.py:551-568 | One start; a unit that cannot be shown to be up is told to stop, and is up afterwards exactly when it survived that |
| `ServiceBringUp.Services.Restore` | scripts/birth_ceremony.py:575-596 | Success exactly when every wanted unit is shown up, and then all are as they were; exactly which units run otherwise; none that did not run before; at most one start each |
| `ServiceBringUp.Services.AwaitFlag` | scripts/birth_ceremony.py:672-695 | Which look decides whether the flag has landed |
| `ServiceBringUp.Services.AwaitOwner` | scripts/birth_ceremony.py:700-709 | The daemon is proven exactly when some poll saw flag and latch, with a pid known by then |
| `ServiceBringUp.OwnershipMeans` | scripts/birth_ceremony.py:700-709 | What counts as the ownership proof, in terms of the polls |
| `ServiceBringUp.ProvenMeans` | scripts/birth_ceremony.py:672-721 | When the daemon counts as proven, in terms of looks, answers and polls |
| `ServiceBringUp.Services.BringUpAfterCommit` | scripts/birth_ceremony.py:661-746 | A state that calls the daemon proven is reported exactly when the flag landed, the unit runs and shows it, and some poll saw flag and latch of a known pid; never when no poll has the flag, the latch or a pid. Which units run then, stops that fail included; one start each, web only behind the proof |
| `ServiceBringUp.MainForReal` | scripts/birth_ceremony.py:935-1085 | Hands off exactly when a unit survived its stop or the quiesce found something else, with the units as they are and nothing started; a COMMITTED state only for a soundly anchored ledger; every other state tells the truth about ledger and units; unknown leaves both down |
| `ServiceBringUp.Conclude` | scripts/birth_ceremony.py:1067-1085 | Behind the quiesce: bring up, restore or leave alone, as the fresh classification says |
| `ServiceBringUp.TruthIsExact` | scripts/birth_ceremony.py:1070-1085 | The conditions of the states exclude each other, so each is exact |
| `ServiceBringUp.RestoreActivatesNothingNew` | scripts/birth_ceremony.py:575-596 | No restore, failed ones included, leaves a unit running that did not run before |
| `ServiceBringUp.StillAlive` | scripts/birth_ceremony.py:158-166 | A daemon that does not stop: hands off, with the daemon up |
| `ServiceBringUp.DaemonCanSurviveServicesDown` | scripts/birth_ceremony.py:697-717 | A world in which the daemon runs on under COMMITTED_SERVICES_DOWN |
| `ServiceBringUp.WebCanSurviveMute` | scripts/birth_ceremony.py:722-745 | A world in which web serves on under COMMITTED_WEB_MUTE |
| `ServiceBringUp.MainResume` | scripts/birth_ceremony.py:891-918 | Goes on exactly for a ledger whose anchor is a system birth event and whose chain holds, reports each state exactly under its condition, and without the flag leaves the units alone |
| `TerminalCommit.Process.CommitTerminal` | scripts/cuda_bench_cli.py:1745-1830 | The line printed and the code returned, for all globals, pending signals and interruptions: 0 for ok, 2 for a bad invocation, 3 for any other refusal, 130 and 143 for the selected signal, 4 for everything else and for a lost line |
| `TerminalCommit.Process.SnapshotPendingSignal` | scripts/cuda_bench_cli.py:1718-1730 | SIGTERM before SIGINT among pending and known signals, and all are drained |
| `TerminalCommit.NextKeepsOrder` | scripts/cuda_bench_cli.py:2644-2907 | Every step of command, kernel and handler keeps the order of commit, line and committed flag |
| `TerminalCommit.OneLineAndItsCode` | scripts/cuda_bench_cli.py:1745-1830 | At most one line in every interleaving; its exit code is the one the line and the selected signal determine |
| `TerminalCommit.CodeMeans` | scripts/cuda_bench_cli.py:1733-1742 | The code of every commit, number by number |
| `TerminalCommit.ExitCodeMeans` | scripts/cuda_bench_cli.py:1745-1830 | and of every finished run, each code exactly under its condition |
| `TerminalCommit.ChoiceSeesAllSignals` | scripts/cuda_bench_cli.py:1718-1730 | The choice takes all pending signals and sees those the interrupted commits carried |
| `TerminalCommit.DoneIsFinal` | scripts/cuda_bench_cli.py:1833-1841 | After the end no signal changes line or code |
| `TerminalCommit.LatchedResultIsReported` | scripts/cuda_bench_cli.py:1775-1794 | A latched result still current is the one reported whatever arrives; a stale one is never ok |
| `TerminalCommit.CleanupIncompleteIsPrinted` | scripts/cuda_bench_cli.py:1906-1915 | A result built as cleanup_incomplete raises the flag first and is never replaced by interrupted |
| `TerminalCommit.FlaggedPacketIsPrinted` | scripts/cuda_bench_cli.py:1804-1808 | One read from a packet is not replaced either when the flag is up |
| `TerminalCommit.UnflaggedCleanupCanBeReplaced` | scripts/cuda_bench_cli.py:3512-3521 | Read from a trusted packet with the flag down, it can be, from every such state |
| `TerminalCommit.CleanupIsSafeWithoutPackets` | scripts/cuda_bench_cli.py:2584-2617 | In a run without such a packet, a cleanup_incomplete result at its commit is the line, if there is one |
| `TerminalCommit.SigtermWinsUnlessOverruled` | scripts/cuda_bench_cli.py:2762-2779 | Once SIGTERM is pending before the choice, no printed end is attributed to SIGINT, unless an interruption overrules it |
| `TerminalCommit.OverruledSigtermCanBeForgotten` | scripts/cuda_bench_cli.py:2891-2904 | From every orderly state where one does, below main's handler, SIGINT alone can end the command |
| `TerminalCommit.OverruledInMainEscapes` | scripts/cuda_bench_cli.py:3917-3921 | In main's handler it ends without a line |
| `TerminalCommit.EarlierSigtermCanBeForgotten` | scripts/cuda_bench_cli.py:2891-2904 | A run in which it happens |
| `TerminalCommit.SilentExactlyWhenLost` | scripts/cuda_bench_cli.py:1795-1830 | A finished command has printed nothing exactly when an exception came before the line or the write failed; otherwise it printed one line |
| `TerminalCommit.Process.OnCommandSignal` | scripts/cuda_bench_cli.py:1833-1841 | The handler raises exactly when delivering the signal interrupts the command in the state machine |
| `ManifestWalk.Walk` | scripts/cuda_bench_cli.py:748-762 | One walk accepts exactly when some regular row is reached within 128 links |
| `ManifestWalk.VerifyLinks` | scripts/cuda_bench_cli.py:748-762 | All link rows pass exactly when each one resolves |
| `ManifestWalk.AcceptedMeansCleanLinks` | scripts/cuda_bench_cli.py:748-762 | With at most 128 link rows this is exactly: no dangling link and no cycle |
| `ManifestWalk.ResolvingIsClean` | scripts/cuda_bench_cli.py:748-762 | Acceptance excludes both for any number of rows |
| `ManifestWalk.LongCleanChainIsRefused` | scripts/cuda_bench_cli.py:751-762 | 129 clean links in a line are refused |
| `MmrRerank.Tokenize` | memory/mmr.py:54-82 | The CJK tokens are exactly the CJK characters and the bigrams of characters adjacent in the text |
| `MmrRerank.SimilarityTriangle` | memory/mmr.py:85-92 | Jaccard distance satisfies the triangle inequality for all token sets, empty ones included |
| `MmrRerank.PenaltyIsLipschitz` | memory/mmr.py:139-144 | Two candidates' redundancy penalties differ by at most one minus their similarity |
| `MmrRerank.JaccardMeans` | memory/mmr.py:85-92 | Shared tokens over all tokens, and 1 for two empty sets |
| `MmrRerank.RelevanceMeans` | memory/mmr.py:123-130 | One minus the distance, clamped to 0 and 1; a missing distance is 1 |
| `MmrRerank.BestOf` | memory/mmr.py:136-148 | The inner loop finds the best remaining candidate, the earliest on ties |
| `MmrRerank.SelectPicks` | memory/mmr.py:132-152 | The outer loop makes a greedy selection of min(k, n) positions |
| `MmrRerank.PickIsBest` | memory/mmr.py:134-152 | Every pick has the highest score of those not yet picked, and is listed before its equals |
| `MmrRerank.Rerank` | memory/mmr.py:95-154 | Empty for k at most 0, a stable sort for lambda at least 1, else the items of a greedy selection |
| `MmrRerank.GreedyPicksAreDistinct` | memory/mmr.py:132-152 | No position is selected twice |
| `MmrRerank.SmallerKIsPrefix` | memory/mmr.py:132-152 | The selection for a smaller k is a prefix of that for a larger one |
| `MmrRerank.PickScoresNeverIncrease` | memory/mmr.py:134-152 | The scores at which successive picks are made never rise |
| `MmrRerank.PureRelevanceIsByDistanceWhen` | memory/mmr.py:115-117 | The branch for lambda at least 1 ranks by distance exactly when no perfect match is overtaken |
| `MmrRerank.PerfectMatchSinksAtLambdaOne` | memory/mmr.py:117-117 | A concrete pair where it is |
| `RateLimiter.Prune` | scripts/fast_reply_service.py:173-183 | Pruning in place keeps exactly the calls at or after the cutoff |
| `RateLimiter.Limiter.CheckAndRecord` | scripts/fast_reply_service.py:185-217 | Every decision is the one the full history of the scope calls for; a denied call leaves no trace |
| `RateLimiter.Limiter.Status` | scripts/fast_reply_service.py:219-234 | The report counts the full history and changes nothing |
| `RateLimiter.BudgetsMean` | scripts/fast_reply_service.py:112-138 | The budgets of the scopes; any other scope has the guest's |
| `RateLimiter.DecideMeans` | scripts/fast_reply_service.py:185-217 | Which window denies, and how long the wait is, by the position of the oldest call in it |
| `RateLimiter.CheckingFollowsTheRun` | scripts/fast_reply_service.py:185-217 | One more call carries the agreement of the limiter's history with the run's allowed calls on |
| `RateLimiter.HistoryFollowsTheRun` | scripts/fast_reply_service.py:185-217 | The same for whole runs |
| `RateLimiter.BudgetsHoldInEveryWindow` | scripts/fast_reply_service.py:185-217 | In every run no closed minute or hour holds more allowed calls of a scope than its budget |
| `RateLimiter.OtherScopesDoNotMatter` | scripts/fast_reply_service.py:163-171 | Deleting all other scopes' calls from a run changes no decision |
| `RateLimiter.WaitingFreesTheWindow` | scripts/fast_reply_service.py:437-437 | Honouring the Retry-After on the wire frees the window that denied |
| `PixelGeometry.ScaleIsTight` | scripts/atspi_window_probe.py:133-136 | Floor and ceiling stay within one pixel of the exact coordinate |
| `PixelGeometry.ScaleMeans` | scripts/atspi_window_probe.py:133-136 | The same in whole numbers: the greatest native pixel not above, the least not below |
| `PixelGeometry.CalibrationExistsExactly` | scripts/atspi_window_probe.py:84-114 | A given origin is accepted exactly when it scales to the corner, a derived one when the corner is a whole logical pixel |
| `PixelGeometry.CalibrationAgrees` | scripts/atspi_window_probe.py:84-114 | An accepted origin, given or derived, scales back to the window's corner |
| `PixelGeometry.RegionCoversTightly` | scripts/atspi_window_probe.py:139-176 | A region is nonempty, inside the crop, and exceeds the visible exact rectangle by less than one pixel a side |
| `PixelGeometry.RegionExistsExactly` | scripts/atspi_window_probe.py:170-176 | A calibrated rectangle is refused exactly when none of it shows in the crop |
| `PixelGeometry.RegionKeepsInclusion` | scripts/atspi_window_probe.py:139-176 | Inclusion of rectangles is kept, and acceptance with it |
| `PixelGeometry.NeighboursMeet` | scripts/atspi_window_probe.py:139-176 | Rectangles sharing a vertical edge: no gap, at most one column of overlap |
| `PixelGeometry.StackedMeet` | scripts/atspi_window_probe.py:139-176 | The same for a horizontal edge |
| `WindowCollect.Preflight` | scripts/atspi_window_probe.py:275-335 | The queue loop visits every node once in level order, included plus excluded is visited, and a quiet tree is refused exactly for more than 256 nodes |
| `WindowCollect.LevelsComeInOrder` | scripts/atspi_window_probe.py:279-311 | The law of the walk: what waits comes first, its children behind everything that was waiting |
| `WindowCollect.FitMeans` | scripts/atspi_window_probe.py:284-310 | No visit refuses exactly when every node answers and passes, with at most 64 queries and 32 references in all |
| `WindowCollect.RefusalIsTold` | scripts/atspi_window_probe.py:284-310 | Which status a refused visit tells |
| `WindowCollect.FateMeans` | scripts/atspi_window_probe.py:313-335 | Why a node is left out, for every state and rectangle |
| `WindowCollect.DoneExactlyWhenFitting` | scripts/atspi_window_probe.py:281-312 | The first pass ends well exactly on small enough trees whose visits all fit |
| `WindowCollect.IncludedWhenOnScreen` | scripts/atspi_window_probe.py:312-335 | In an admitted window the taken nodes are exactly those showing, visible and reaching into it |
| `WindowCollect.ReadRecords` | scripts/atspi_window_probe.py:339-361 | The literal loop succeeds exactly when all literals are readable and the limits hold, and then yields all facts |
| `WindowCollect.FactsOfOne` | scripts/atspi_window_probe.py:341-357 | The facts of one record: name, text and value unless empty, then its references |
| `WindowCollect.CollectableMeans` | scripts/atspi_window_probe.py:336-362 | The limits of collection in numbers |
| `WindowCollect.CollectWindow` | scripts/atspi_window_probe.py:258-369 | Exactly when collection succeeds, what it returns and within which limits; no literal is read unless the policy passed every node |
| `WindowCollect.FactsAreOnScreen` | scripts/atspi_window_probe.py:312-361 | Every fact comes from an on-screen node and its region is a nonempty box inside the native window |
| `LatencyPercentiles.PercentileIsMonotone` | scripts/audit_inspect.py:90-103 | Interpolated percentiles of a sorted list rise with p and stay between its ends |
| `LatencyPercentiles.PercentileMeans` | scripts/audit_inspect.py:90-103 | The value at the whole part of (n-1)p/100 and the fraction of the step to the next |
| `LatencyPercentiles.LatenciesOfOne` | scripts/audit_inspect.py:124-133 | Which record counts for which backend |
| `LatencyPercentiles.SummaryIsOrdered` | scripts/audit_inspect.py:135-145 | Every reported line has min <= p50 <= p95 <= p99 <= max, with all latencies between the ends |
| `LatencyPercentiles.SummaryMeans` | scripts/audit_inspect.py:135-145 | The line reported for latencies in ascending order: number, ends and percentiles 50, 95, 99, truncated |
| `LatencyPercentiles.BackendLatency` | scripts/audit_inspect.py:123-145 | One line per backend with successful replies, summarizing exactly those |

## Left out

- Floating point: distances, scores, timestamps and percentiles are exact reals, so rounding is not captured.
- Regular expressions, JSON, SHA-256, SQLite, Chroma, D-Bus, systemd and file descriptors are predicates, maps or parameters.
- Fresh ids, clocks, model replies, probe answers and policy verdicts are parameters of the operations.
- Stored tiers outside the vocabulary count as not known in `TrustLineage`; that free-form metadata can plant one is modelled, what recall then shows is not.
- TrustLineage.MemoryManager.ConsolidateDaily: keeps all cited ids; the source keeps the first 50 inline and a count (memory/memory_manager.py:1896-1903), so the ancestry theorems are about the rows the summary was made from. Which rows are candidates is a parameter.
- The choice of rows for the nightly job by time window and metabolic reason, its files and telemetry.
- Query classification, recency factors, topic rerank, age wording and the shadow logging around the promotion rerank.
- RecallPrompt: tags are single tokens with a rendered length, so text that only reads like a tag after its tokens are joined, and attribute values containing `>`, are not captured.
- RecallPrompt: the text of age, timestamp and provenance attributes is a parameter; the fixed header lines are a parameter without tags.
- CoalescedExchanges: timestamps are numbers, 0 when missing; the two provenance_source fields of a merged row are carried by its halves.
- BirthTransaction: a replaced ledger may be any ledger, but markers are never deleted; quiesce and the authorization proof are single answers, so what they look at is not modelled.
- BirthTransaction: when the file is replaced while a process holds the latch, the model's process works on the new file; the script's open connection would go on with the old one, while its classifications read the new one.
- ServiceBringUp: units change by command only; a unit that dies, restarts or goes down later by itself, one that reads active while it is still starting or inactive while it is still stopping, and a failing receipt write, are not captured.
- TerminalCommit: the validators behind a handler's result, a partial write of the line, and a signal that kills the process after its handlers are restored.
- ManifestWalk: names are compared only, so the row format checks before the walk are not part of it.
- MmrRerank: lower-casing, the number placeholder and the ASCII expression, whose findings are a parameter of Tokenize.
- RateLimiter: pruning returns the shorter list instead of deleting from the shared one; the lock and the cloud budget, which nothing enforces, are not part of this model.
- PixelGeometry: the context precision of decimal arithmetic; floor and ceiling are exact.
- WindowCollect: a node's answers are fixed in advance, so a toolkit that changes its answers between the passes is not captured.
- LatencyPercentiles: the counters of the report other than latency.
- Selecting the focused window, the dry-run entry, command-line parsing, cockpit, chat, GUI, embedder, backfill and wizard code, which would add only easy members.
