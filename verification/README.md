# A verified model of texas-fold-em

texas-fold-em keeps one rotating fold.money refresh token alive (the broker) and moves bank
transactions from fold.money into a Firefly III ledger (the integration): it stages them, a
classifier proposes who was paid and how, a person reviews, and a pusher writes them to Firefly.
This project models the parts of it that are protocols, decision procedures, caches and
algorithms, and proves what they promise over every input, every run and every interleaving.
`dafny verify dfyconfig.toml` checks all of it.

| module | what it models |
|---|---|
| `TokenStore`, `TokenBroker` | the state file with its crash points, and the broker's methods over it |
| `BrokerMachine` | the same broker with any number of callers, one lock, a server that rotates tokens, and restarts |
| `PushMachine`, `Push` | pushing a row: search, currency, create and mark, with any call failing or the process dying between them |
| `RefundLink` | turning "this refunds that purchase" into one Firefly link, one attempt at a time |
| `LinkMachine` | the same with any number of pushes, updates and clicks at once, step by step, and links made and removed by hand in Firefly |
| `FoldSync` | the gap-fill walk over fold.money's pages |
| `TxnType`, `ReviewCard`, `Repair` | transaction types and the user's own side, as push, the card and the repair pass decide them |
| `RefundMatch` | proposing the purchase a refund belongs to |
| `Sureness` | the deck in Surest first: order, cursors, pages and the rank memo |
| `Whereabouts` | trips, time zones and the places of foreign payments |
| `EditDistance` | the two-row edit distance and the prefix window built on it |
| `Money` | printing and reading amounts |
| `LlmClient` | the model client's retry loop and breaker |
| `Precedence` | what a person decided, against the engine's steps on a row: money refreshes, classification, resets, re-suggestion, refund matches and own-account repair |
| `Staging`, `Wrappers`, `Text`, `Decimal`, `Ordering` | the status of a staged row, options and results, text, decimal digits, sorting |

SQL tables are maps from a uuid to a row, or sequences where the order of a scan matters; each
statement, and each transaction, is one step. A method proved against a function of one call takes
that call as uninterrupted; in the machines others run between its steps. The accounts mirror is a
sequence ordered by id.
Remote services, clocks, tables of cities and zones, and failures are parameters: a claim holds for
whatever they answer. A class here has the fields the original object has; each of its methods is
proved against a function of its inputs and its old state, and the laws are proved of those functions
and of machines whose runs include the methods' (`TokenBroker.TokenIsARun`, `Push.PushIsARun`,
`LinkMachine.AttemptIsARun`, `Precedence.ResuggestingIsARun`).

## What the code does not keep, and exactly when it does

- The comment on `tombstoneLocked` (broker.go:193-201) says memory is updated even when the write
  fails. `Set` (store.go:100-113) leaves memory as it was, so an unwritten tombstone is forgotten.
- An `Init` that fails may have stored a record all the same, and lifted a tombstone: when Fold
  accepts the seed but mints a refresh token without a subject, the answer is computed from what has
  been stored already (broker.go:124-135). `TokenBroker.FailedInitChangesExactlyWhen` says when, and
  `TokenBroker.FailedInitLiftsTheTombstone` what the next call meets; a `Token` call can answer so too
  (`TokenBroker.FailedTokenChangesExactlyWhen`).
- Firefly gets a second transaction for a row exactly when a create takes effect where it holds one
  already (`PushMachine.SecondJournalExactlyWhen`), and in any run that push was overtaken by another
  push of the same row between its search and its create (`PushMachine.SecondJournalHasACause`,
  `PushMachine.OverlapDuplicates`); without such an overlap never (`PushMachine.AtMostOnce`).
- A second refund link is made exactly when a create takes effect, or a person makes a Refund link by
  hand, where there is one already (`LinkMachine.SecondLinkExactlyWhen`). A create gets there in three
  ways and no other (`LinkMachine.SecondLinkHasACause`): the list of existing links could not be read
  (`RefundLink.BlindRetryDuplicates`); it was a full page, for one page of 100 is read
  (firefly/client.go:147-157), and left the link off (`LinkMachine.FullPageDuplicates`); or somebody
  made the link after it was read, for nothing locks the two together: another attempt at the pair,
  such as a push of the refund during a push of its purchase or two clicks at once
  (`LinkMachine.TwoClicksDuplicate`), or a person in Firefly (`LinkMachine.LinkByHandDuplicates`).
- `INSERT OR IGNORE` also swallows the NOT NULL of the currency column: a transaction without any
  currency is counted as skipped and never staged (`FoldSync.StagesTheNewer`). One whose row is staged
  already fails the whole sync exactly when that row is neither pushed nor skipped and its money
  differs (`FoldSync.FailsForACurrencyExactlyWhen`).
- The refresh of `raw_payload` falls back to an envelope with the uuid alone, the insert to the whole
  transaction: a second sync changes something exactly when the first staged a row whose wire bytes
  were missing (`FoldSync.SecondSyncChangesNothing`).
- "Within 30 days" (refund.go:82-89) is less than 31: whole days are counted, and a time that cannot
  be read is no objection (`RefundMatch.RecentMeansUnder31Days`,
  `RefundMatch.ThirtyDaysAndMoreIsProposed`).
- A confirmed name of spaces alone hides the proposal from the card but not from push
  (`ReviewCard.BlankNamePartsThem`); with nothing hidden they agree, and with one side hidden, or
  both, exactly when `ReviewCard.HiddenSideShows` and `ReviewCard.BothHiddenShow` say.
- A repaired row is from an account to itself exactly when `Repair.Doubling` held of it before: the
  account at the far side is called "(no name)", which reads as nobody, and fold's asset is the one
  found by that name (`Repair.PlaceholderTwinBreaksIt`); or the person moved across has no name in the
  mirror and history calls him like fold's asset (`Repair.HistoryTwinBreaksIt`).
- The repair pass of every cycle rewrites a side a person confirmed, exactly when
  `Repair.RepairOverridesExactlyWhen` says; everything else a person decided survives it
  (`Precedence.WhatAPersonDecidedIsSent`).
- A thinking fallback of "none" makes the retry loop endless (`LlmClient.EndsUnlessFallbackIsNone`).
- `decimalToPaise` wraps around past an int64 where `parseMoneyToPaise` refuses
  (`Money.RoundingAgainstCutting`).
- From seven typed letters on, `startsSome` allows two slips but looks no further than a letter
  shorter, so its window is exhaustive exactly up to six (`EditDistance.WindowIsExhaustiveUpToSix`).

## Model

| member | source | states |
|---|---|---|
| TokenStore.Store.WriteFileAtomic | store.go:115-158 | whatever fails, and wherever the process dies, the record on disk is the old one or the whole new one, changed only by the rename |
| TokenStore.RenameDecides | store.go:115-158 | a write is done, failed or cut off, and the record has changed hands, by where the fault falls against the rename |
| TokenStore.Store.Set | store.go:97-113 | memory is published after the disk; on an error it keeps the last good record, and in any case a restart reads the old record or the new |
| TokenBroker.Broker.Token | broker.go:62-80 | answer, record left and call to Fold, from the record before, the clock, Fold's reply and the write's fate |
| TokenBroker.Broker.RefreshLocked | broker.go:145-191 | the same outcome behind the second check under the lock |
| TokenBroker.Broker.TombstoneLocked | broker.go:193-214 | a rejection is recorded in memory only when its write succeeded |
| TokenBroker.Broker.Init | broker.go:81-137 | answer, record left and call to Fold: a seed is stored only after Fold accepted it, and the record stays as it was unless the write succeeded |
| TokenBroker.HandedOutIsOnRecord | broker.go:314-328 | whoever gets an answer, from Token, RefreshLocked or Init, gets the access token, device and expiry of the record left behind, for the user its refresh token names |
| TokenBroker.StoredIsWhatFoldSaid | broker.go:115-191 | the record left behind holds the pair Fold minted under the device it was asked with, or a rejection on top of what was there, or is untouched, and exactly when |
| TokenBroker.TokenAnswersExactlyWhen | broker.go:62-191 | when Token asks Fold, when it answers, and when with which error, all if and only if |
| TokenBroker.InitAnswersExactlyWhen | broker.go:81-137 | the same for Init |
| TokenBroker.FailedInitChangesExactlyWhen | broker.go:81-137 | an Init that answers with an error has changed the record if and only if all went well but for the subject of the refresh token Fold minted |
| TokenBroker.FailedTokenChangesExactlyWhen | broker.go:145-191 | a Token call that answers with an error has changed the record if and only if it recorded a rejection or stored a token without a subject |
| TokenBroker.FailedInitLiftsTheTombstone | broker.go:124-135 | such an Init lifts a tombstone: the next Token call is no longer refused |
| TokenBroker.TokenIsARun | broker.go:62-191 | a Token call nobody interrupts is a run of the concurrent machine: same record in memory and on disk, Fold asked in the one exactly when in the other |
| TokenBroker.InitIsARun | broker.go:81-137 | the same for Init |
| BrokerMachine.OneCallInFlight | broker.go:145-191 | over every interleaving of callers, ticks and restarts, at most one caller of the running process waits for Fold, and outside a Set memory is what a restart would load |
| BrokerMachine.AnyMomentMayBeTheLast | store.go:62-95 | in every reachable state the process may die, and comes back with what the disk holds |
| BrokerMachine.AsksExactlyWhen | broker.go:225-251 | a caller goes for a refresh if and only if the record is seeded, not rejected, and expires within the lead, or, but for the keep-warm loop, has no access token |
| BrokerMachine.RefreshPresentsLastToken | broker.go:145-191 | every refresh presents the token Fold issued last, unless a reply was lost, a write failed or the process died before that token reached the disk |
| BrokerMachine.NoRefreshAfterRejection | broker.go:69-76 | after a stored rejection no caller, before or after any restarts, asks Fold for a refresh until a seed has been stored |
| BrokerMachine.SectionWithoutRenameKeepsState | broker.go:98-134 | whatever the others do meanwhile, a critical section, Init's or Token's, that ends without its own rename leaves the record on disk and in memory, tombstone included, as they were when it took the lock |
| BrokerMachine.SectionWithRenameLeavesItsRecord | broker.go:98-134 | a section that does rename leaves its own record in both places once it is over, by publishing or by dying, and the chain is dead after it if and only if that is a tombstone |
| BrokerMachine.OnlyStoringChangesState | store.go:97-113 | over any run of any callers in which no record reaches the disk, file and memory stay as they were |
| BrokerMachine.RefreshesAreRationed | broker.go:73-78 | if tokens live longer than the lead, counted from when they were asked for and however long the reply takes, the expiry checks behind two stored refreshes are at least life minus lead apart, so a window of length T holds at most 1 + T / (life - lead) |
| BrokerMachine.UnwrittenTombstoneIsForgotten | broker.go:202-214 | a rejection whose tombstone could not be written is asked again: the next caller presents the rejected token |
| PushMachine.AtMostOnce | internal/integration/push.go:171-317 | over any run in which pushes of one row do not overlap, with any call failing, creates that report an error, crashes, reclassification and deletions in between, Firefly never holds two transactions for one row, and what a row points at was created for it |
| PushMachine.SecondJournalExactlyWhen | internal/integration/push.go:203-247 | with pushes overlapping as they may, a step leaves at most one transaction per row if and only if it does not create where there is one |
| PushMachine.SecondJournalHasACause | internal/integration/push.go:203-247 | in any run, a push about to create over a transaction has been overtaken by another push of its row since it searched |
| PushMachine.OverlapDuplicates | internal/integration/push.go:203-247 | two overlapping pushes of one row are such a run, from a table where nothing is in Firefly |
| PushMachine.UpdateStaysHome | internal/integration/push.go:627-692 | in every reachable state an update goes to a group, and records a journal, made for its own row |
| Push.Pusher.MarkPushed | internal/integration/push.go:702-720 | a successful mark records journal and group and nothing else; a failed one changes nothing |
| Push.Pusher.Push | internal/integration/push.go:171-317 | answer, table after and whether a create went out, on every path |
| Push.Pusher.Update | internal/integration/push.go:627-692 | answer and table after, on every path |
| Push.PushAnswersExactlyWhen | internal/integration/push.go:171-317 | each answer of a push, and whether a create goes out, if and only if what the row and the calls say |
| Push.PushedIsWritten | internal/integration/push.go:203-317 | a push writes the journal it found or made, and its group, on its own row, and nothing where it fails |
| Push.UpdateAnswersExactlyWhen | internal/integration/push.go:627-692 | each answer of an update if and only if, and the group and journal it records |
| Push.UpdateIsAStep | internal/integration/push.go:627-692 | an update succeeds if and only if the row has a group and nothing fails, an error leaves the table, and a success is the machine's step: it records the first journal of the reply or the row's own, one created for this very row |
| Push.PushIsARun | internal/integration/push.go:171-317 | a push nobody interrupts is a run of the machine, with the same table, gaining a journal exactly where its create took effect |
| Push.RetryAdopts | internal/integration/push.go:203-226 | a push of a row Firefly already holds sends no create and records the journal it finds |
| RefundLink.Linker.FindLink | internal/integration/refund_link.go:178-186 | the first Refund link between two journals, either way round, on the page that is listed |
| RefundLink.Linker.LinkRefund | internal/integration/refund_link.go:135-211 | table, links and answer of one attempt nobody interrupts, on every path |
| RefundLink.AttemptAnswersExactlyWhen | internal/integration/refund_link.go:135-158 | each refusal an attempt can tell from the table alone, if and only if |
| RefundLink.LinkAnswersExactlyWhen | internal/integration/refund_link.go:159-211 | past those, each answer if and only if, the id of the link seen or made, and the links and the row left behind |
| RefundLink.Linker.LinkRefunds | internal/integration/refund_link.go:86-123 | the pushed row is tried first, then every refund waiting for it, in the order the query lists them |
| RefundLink.WaitingMeans | internal/integration/refund_link.go:96-115 | a refund waits for a purchase if and only if it is pushed, has no link, and points at it by uuid or by its journal |
| RefundLink.AtMostOneUnlessBlind | internal/integration/refund_link.go:174-211 | an attempt nobody interrupts keeps at most one link per pair if and only if it did not link over one that was there and that no list, or a full page, showed it |
| RefundLink.BlindRetryDuplicates | internal/integration/refund_link.go:176-203 | a run in which a retry that cannot list adds a second link |
| RefundLink.RetryAdoptsTheLink | internal/integration/refund_link.go:174-211 | a link made but not recorded, for whatever reason, is adopted by the next attempt, which adds none, if and only if the list shows it, as it does unless the journal's links fill more than a page |
| LinkMachine.SecondLinkExactlyWhen | internal/integration/refund_link.go:174-211 | over any interleaving, with people making and removing links by hand, a step leaves at most one link per pair if and only if it neither creates nor makes one by hand where there is one |
| LinkMachine.SecondLinkHasACause | internal/integration/refund_link.go:174-203 | in any run, an attempt about to create over a link could not list the links, or listed a full page, or listed them all before somebody made every link there is now |
| LinkMachine.NeverTwoLinks | internal/integration/refund_link.go:86-211 | over any run of pushes, updates and clicks in which links can be listed on one page and neither another attempt nor a person comes between the list and the create of an attempt at the same pair, whatever else fails or dies, whatever references change, rows are classified anew or links are removed, there are never two links between two journals |
| LinkMachine.SightMeans | internal/integration/firefly/client.go:147-157 | a list shows all there is if and only if it works and the links fit a page of a hundred |
| LinkMachine.OverlappingAttemptsDuplicate | internal/integration/refund_link.go:174-203 | any two attempts at one pair that both list before either creates make two links, though every call works |
| LinkMachine.TwoClicksDuplicate | internal/integration/ui/refund.go:253-268 | two clicks at once on any refund that is due and has no link are such a run |
| LinkMachine.LinkByHandDuplicates | internal/integration/refund_link.go:179-192 | so is one attempt, alone, during which a person makes the link in Firefly |
| LinkMachine.FullPageDuplicates | internal/integration/firefly/client.go:147-157 | and one on a journal whose hundred other links fill the page before its Refund link |
| LinkMachine.EveryRefundIsLinkedOnce | internal/integration/refund_link.go:86-211 | with references fixed, every call answered and nobody in between, pushes, updates, clicks, new classifications and links by hand, interleaved in any order, leave every pushed refund whose different purchase is in Firefly with exactly one Refund link to it, recorded on its row, once all threads rest |
| LinkMachine.AttemptIsARun | internal/integration/refund_link.go:135-211 | an attempt nobody interrupts is a run of the machine, with the same table and links |
| LinkMachine.LinkingIsARun | internal/integration/refund_link.go:86-123 | and so is a whole linkRefunds after a push or an update |
| FoldSync.FoldSyncer.SyncSinceFirefly | internal/integration/fold_sync.go:165-318 | the report and the table, all or nothing, as the walk over the server's pages gives them |
| FoldSync.SyncAnswersExactlyWhen | internal/integration/fold_sync.go:165-318 | the walk's report is the answer, and its table is kept, if and only if the limit is positive, the cutoff could be read, the walk ended well and the commit worked; else the table stays, and the error says which |
| FoldSync.FoldSyncer.WalkPages | internal/integration/fold_sync.go:210-297 | the loop over the pages computes the walk |
| FoldSync.FoldSyncer.HandlePage | internal/integration/fold_sync.go:216-297 | one page, and why the walk stops there or goes on |
| FoldSync.FoldSyncer.HandleOne | internal/integration/fold_sync.go:250-275 | insert-or-ignore, then the two refreshes of a row that was there |
| FoldSync.TallyCounts | internal/integration/fold_sync.go:250-275 | what is reported was done: as many rows staged, transactions passed over, payloads and money rewritten as the table before and what came say |
| FoldSync.WalkIsBounded | internal/integration/fold_sync.go:210-297 | against any server at all, a walk asks for at most maxTotal pages and handles at most maxTotal transactions |
| FoldSync.CatchesUp | internal/integration/fold_sync.go:141-297 | against a newest-first source exactly the newest transactions are handled: all newer than the cutoff for cutoff_reached and exhausted, exactly maxTotal of them if and only if it says hard_cap |
| FoldSync.StagesTheNewer | internal/integration/fold_sync.go:345-416 | once caught up, a newer transaction is staged if and only if it has a currency or its row was there |
| FoldSync.CurrencylessIsLost | internal/integration/fold_sync.go:345-351 | a transaction without a currency is counted as skipped and never staged |
| FoldSync.FailsForACurrencyExactlyWhen | internal/integration/fold_sync.go:447-488 | against a newest-first source a walk fails over a currency if and only if a transaction it would handle has none, has a row neither pushed nor skipped, and differs from it in its money; with none such it ends well |
| FoldSync.SecondSyncChangesNothing | internal/integration/fold_sync.go:354-376 | a second run over unchanged upstream data changes nothing if and only if every row the first staged came with its wire bytes |
| FoldSync.MissingBytesAreThinned | internal/integration/fold_sync.go:502-532 | a row staged without its bytes is rewritten by the next run |
| FoldSync.WalkPreserves | internal/integration/fold_sync.go:439-488 | over any walk a staged row keeps every column a sync does not own, and a pushed or skipped one its money |
| FoldSync.HandledMoneyIsCurrent | internal/integration/fold_sync.go:385-530 | every handled row that is neither pushed nor skipped ends with the money fold reports now, the home amount before the source amount, to within half a paisa; every one with the wire bytes it came with; a new one is pending and as fold tells it, and an old one keeps all else |
| FoldSync.RoundsToTheNearestPaisa | internal/integration/fold_sync.go:534-547 | the staged amount is within half a paisa of what fold reported, a half going up |
| FoldSync.FoldMoneyIsFolds | internal/integration/fold_sync.go:427-436 | the staged money is fold's home amount in the home currency, to within half a paisa, or the source amount where there is none; the source amount stands beside it if and only if it has another currency |
| TxnType.FitsExactlyWhenLedgerAccepts | internal/integration/txntype.go:124-172 | where the mirror knows the own side, and the other side too or it goes by a name, push's check passes if and only if the direction allows the type and the line that would be sent obeys the ledger's rules |
| TxnType.ProposedTypeMeans | internal/integration/txntype.go:124-172 | the type of a row no person typed: a transfer where both sides are the user's, else the proposed type where the direction allows it, else the direction's own |
| TxnType.ChosenTypeMeans | internal/integration/txntype.go:124-172 | a person's type stands whatever the sides are |
| TxnType.ProblemsMean | internal/integration/txntype.go:147-170 | each problem code if and only if: a type against the direction, the sides the wrong way round, a stranger at the own side, and only then what is wrong at the other |
| TxnType.SidesAreSent | internal/integration/push.go:395-420 | the own side is sent as its asset, the other as its asset in a transfer alone, and else each as stored |
| TxnType.SideAssetIsOpen | internal/integration/txntype.go:199-226 | a side resolved to an asset of the user's resolves to one that is open |
| TxnType.SideAssetMeans | internal/integration/txntype.go:199-226 | the asset a side stands for: itself where it is one, else the one its account, or the side, is called like; and when the mirror cannot tell |
| TxnType.NamedAssetIsFirst | internal/integration/txntype.go:183-197 | a name that some open asset has, in any case, finds the one with the lowest id |
| ReviewCard.BuildCard | internal/integration/ui/review.go:263-370 | a card's blockers are exactly what the card lacks and what does not fit, in the order of settling, none twice |
| ReviewCard.BlockersMean | internal/integration/ui/review.go:354-453 | each blocker is on the card if and only if the thing it names is missing or does not fit, as the columns and the problem say |
| ReviewCard.SettledInOrder | internal/integration/ui/review.go:455-456 | blockers are settled in the order they are listed |
| ReviewCard.InsertBlocker | internal/integration/ui/review.go:458-478 | a blocker goes in once, right before the first that is settled later |
| ReviewCard.InsertingKeepsOrder | internal/integration/ui/review.go:455-478 | inserting keeps order and uniqueness and adds that blocker alone |
| ReviewCard.SidesAgreeUnlessHidden | internal/integration/ui/review.go:482-487 | the card's side and push's resolve alike, up to padding, unless a blank confirmed name hides the proposal |
| ReviewCard.CardAndPushAgree | internal/integration/push.go:495-537 | card and push then reach the same type and the same problem, and a card blocks on it exactly when push would refuse |
| ReviewCard.ClearCardIsSent | internal/integration/ui/review.go:263-370 | with nothing hidden, a card has no blocker if and only if nothing is missing on its face and push's own check passes, and it shows the type that is sent |
| ReviewCard.HiddenSideShows | internal/integration/ui/money.go:28-32 | with exactly one side hidden, card and push reach the same check if and only if what is hidden is no open asset and is not known to be somebody the check refuses |
| ReviewCard.BothHiddenShow | internal/integration/ui/money.go:28-32 | and the same with both hidden |
| ReviewCard.BlankNamePartsThem | internal/integration/ui/money.go:28-32 | a blank confirmed name makes the card show a withdrawal where push sends a transfer |
| Repair.Table.RepairOwnAccounts | internal/integration/classifier/repair.go:86-233 | the table and the report of one pass, row by row, and how many rows were filled and how many swapped |
| Repair.RepairedExactlyWhen | internal/integration/classifier/repair.go:144-205 | a row is changed if and only if it waits, was not entered by hand, has a direction and an asset of fold's the mirror knows, and has nobody at its own side, or somebody with a name who is not the user's while fold's asset is at the other |
| Repair.RepairedIsSo | internal/integration/classifier/repair.go:160-218 | its own side is then fold's asset; the other is kept by a filling, and by a swap emptied, or taken by the person displaced, under the account of the right kind and name where there is one; a swap holds the row back and turns a proposed type round; nothing else changes |
| Repair.OwnSideMeans | internal/integration/classifier/repair.go:258-273 | a side is the user's own if and only if it is an open asset, goes by the name of one, or by an id the mirror has never seen |
| Repair.ReportsAreTheChanges | internal/integration/classifier/repair.go:205-232 | a row is in the report if and only if it was changed, with how |
| Repair.PassRepairsEach | internal/integration/classifier/repair.go:86-233 | a pass repairs each row against the account fold has it on, and a row without one not at all |
| Repair.SecondPassChangesNothing | internal/integration/classifier/repair.go:86-233 | a second pass over the whole table changes no row, and its report is empty |
| Repair.RepairIsIdempotent | internal/integration/classifier/repair.go:160-205 | a row once repaired, or left alone, is left alone |
| Repair.RepairRespectsOwners | internal/integration/classifier/repair.go:150-215 | a row whose own side is an open asset is left alone, and no swapped row stays ready to push |
| Repair.RepairOverridesExactlyWhen | internal/integration/classifier/repair.go:144-205 | a repair rewrites a side a person confirmed if and only if it changes a row whose own side was confirmed, or swaps one whose other side was, otherwise than to the very same |
| Repair.RepairedProblemExactly | internal/integration/classifier/repair.go:160-205 | a repaired row is never the wrong way round nor on an account that is not the user's; it is from an account to itself if and only if it may be a transfer and one of two name clashes was there; a swapped one of no chosen type has nothing wrong but for that |
| Repair.RepairedRowFits | internal/integration/classifier/repair.go:86-233 | so where every account has a name of its own, no repaired row is any of the three |
| Repair.PlaceholderTwinBreaksIt | internal/integration/classifier/repair.go:313-326 | the first clash: Firefly's placeholder name |
| Repair.HistoryTwinBreaksIt | internal/integration/classifier/repair.go:313-326 | the second: a name only history has |
| RefundMatch.RefundClaims | internal/integration/classifier/refund.go:538-559 | one pass sums, per reference, what other refunds point at it |
| RefundMatch.FindRefundCandidates | internal/integration/classifier/refund.go:384-518 | the candidates of fold and of Firefly, filtered, weighed and in order of merit |
| RefundMatch.PickRefundCandidate | internal/integration/classifier/refund.go:237-270 | the loop's pick and confidence, by first group match, first recent exact, first exact and first partial |
| RefundMatch.PickMeans | internal/integration/classifier/refund.go:237-270 | what is picked and how surely: the first grouped one, the first exact one at most 30 whole days old, certain if alone, else as a guess the first exact one, or the first at all within a week |
| RefundMatch.ProposesExactlyWhen | internal/integration/classifier/refund.go:221-270 | something is proposed if and only if a candidate is grouped, or one (the only one, for a threshold above 0.9) has the exact amount less than 31 days before, or at a time that cannot be read |
| RefundMatch.ProposesTheLatestExact | internal/integration/classifier/refund.go:506-517 | the proposal is a group match whenever there is one, and then one of the exact amount before any other, and of those the latest; or else the latest exact purchase less than 31 days before |
| RefundMatch.RecentMeansUnder31Days | internal/integration/classifier/refund.go:82-89 | counted in whole days, recent means less than 31 days before, or a time that cannot be read |
| RefundMatch.ThirtyDaysAndMoreIsProposed | internal/integration/classifier/refund.go:237-270 | a purchase a nanosecond short of 31 days old is proposed with confidence |
| RefundMatch.CandidateHasRoom | internal/integration/classifier/refund.go:480-504 | a candidate carries its purchase's amount, and unless grouped leaves room for this refund beside all other claims |
| RefundMatch.StagedPurchaseIsListed | internal/integration/classifier/refund.go:396-504 | every staged row that goes out, is not skipped, is not the refund, is of its merchant or group and on its card is a candidate, if it lies at most 180 days before and a minute after it, where both times can be read, and has as much left as comes back, or is in its group |
| RefundMatch.JournalPurchaseIsListed | internal/integration/classifier/refund.go:436-504 | and so is every withdrawal of Firefly's under the same conditions that no staged purchase stands for |
| RefundMatch.CandidateIsAPurchase | internal/integration/classifier/refund.go:384-518 | and nothing else is: every candidate meets those conditions, and is exact if and only if its amount is the refund's |
| RefundMatch.CandidatesAreInOrder | internal/integration/classifier/refund.go:506-517 | the list shows grouped purchases first, then those of the exact amount, then the latest |
| RefundMatch.Matcher.MatchRefunds | internal/integration/classifier/refund.go:620-674 | the table and the count of a whole run, or of one cut short |
| RefundMatch.ProposalsArePurchases | internal/integration/classifier/refund.go:620-674 | every purchase a run proposes meets those conditions against the table the run started from |
| RefundMatch.QueueMeans | internal/integration/classifier/refund.go:616-640 | a run looks at a row if and only if it comes in, waits or was pushed, looks like a refund and has neither a person's word nor a proposal; oldest first |
| RefundMatch.MatchRefundsConserves | internal/integration/classifier/refund.go:609-674 | from a table where no reference is over-claimed, a run leaves none that is, but by group matches, and touches nothing but the proposals of undecided refunds |
| RefundMatch.DecidedIsLeftAlone | internal/integration/classifier/refund.go:616-631 | a row a person decided, or one with a proposal, is left as it was |
| Sureness.BeforeIsAnOrder | internal/integration/ui/sureness.go:241-252 | before is irreflexive, asymmetric and total |
| Sureness.StableIsLexicographic | internal/integration/ui/sureness.go:304-305 | sorting the time-ordered deck by rank alone, stably, leaves it in before order with the same cards |
| Sureness.DeckInThreeRuns | internal/integration/ui/sureness.go:213-252 | the sorted deck shows what goes with a swipe, then what waits on a word, then what is on hold, the first two surest first, and newest first among equals |
| Sureness.SortedOneWay | internal/integration/ui/sureness.go:304-305 | nothing else holding the same cards is in that order |
| Sureness.CursorReadsBack | internal/integration/ui/sureness.go:254-268 | a cursor reads back as its card if and only if its timestamp holds no bar |
| Sureness.FirstAfterSplits | internal/integration/ui/sureness.go:307-310 | over an ordered deck the search's test is false before one place and true from it on |
| Sureness.Search | internal/integration/ui/sureness.go:307-310 | a binary search finds that place |
| Sureness.PageIsCut | internal/integration/ui/sureness.go:307-324 | a page holds the cards after its cursor, as many as fit, and carries a cursor if and only if more follow, made of its last card |
| Sureness.EveryStayingCardIsShownOnce | internal/integration/ui/sureness.go:270-324 | following cursors to the end shows cards in order, none twice, and every card that stayed with its rank exactly once, whatever left or came between pages |
| Sureness.SureMemo.Rank | internal/integration/ui/sureness.go:350-358 | a rank is recalled only for the same print, the same mirror and within the hour |
| Sureness.SureMemo.Keep | internal/integration/ui/sureness.go:360-367 | a changed mirror drops every rank kept against the old one |
| Sureness.KeptIsRecalled | internal/integration/ui/sureness.go:350-367 | what was kept last is recalled for its print and mirror within the hour, what was kept of other cards as before, unless the mirror has changed since |
| Sureness.SureMemo.Prune | internal/integration/ui/sureness.go:369-378 | pruning changes no later answer |
| Sureness.SurestPage | internal/integration/ui/sureness.go:277-324 | a page served through the memo is the page computed afresh, when a rank depends on row print and mirror alone |
| Whereabouts.FillFromAround | internal/integration/whereabouts/whereabouts.go:255-294 | filled in place and front to back, every zone is still the pointwise function of the zones anchored to begin with |
| Whereabouts.FilledFromANeighbour | internal/integration/whereabouts/whereabouts.go:247-294 | a filled zone is that of an anchored payment with none between, within reach or agreeing with the other side's |
| Whereabouts.FilledExactly | internal/integration/whereabouts/whereabouts.go:247-294 | what a payment without an anchor is given, from the nearest anchored ones before and after it: both when they agree, else the only one within the hour, or within the day at an edge |
| Whereabouts.ZoneNames | internal/integration/whereabouts/whereabouts.go:296-336 | every zone of a trip gets its name |
| Whereabouts.CalledByTheMostNamed | internal/integration/whereabouts/whereabouts.go:321-329 | a zone goes by the city named most in it, the earliest of those named as often |
| Whereabouts.CalledMeans | internal/integration/whereabouts/whereabouts.go:296-336 | named by more payments means counted over the payments themselves; and a zone in which none names a city goes by its own name |
| Whereabouts.LocateTrip | internal/integration/whereabouts/whereabouts.go:181-247 | one trip's placements |
| Whereabouts.TripMeans | internal/integration/whereabouts/whereabouts.go:181-200 | a run is a trip if and only if two of its payments name a place |
| Whereabouts.WindowMeans | internal/integration/whereabouts/whereabouts.go:225-246 | the window opens twelve hours before the trip's first named payment and closes twelve hours after its last |
| Whereabouts.AnchorMeans | internal/integration/whereabouts/whereabouts.go:200-225 | a named place anchors in the tables' zone where it loads, else in the resolver's answer |
| Whereabouts.AskedExactly | internal/integration/whereabouts/whereabouts.go:200-225 | the resolver is asked for exactly the places the tables cannot put in a zone, each once |
| Whereabouts.AnswersMean | internal/integration/whereabouts/whereabouts.go:209-235 | it is asked once for a trip, in the light of every place the trip names, and not at all where the tables know them all |
| Whereabouts.ManyZonesMean | internal/integration/whereabouts/whereabouts.go:199-236 | in a currency of several zones a payment has the zone its anchors fill in, and the city the tables know |
| Whereabouts.OneZoneMeans | internal/integration/whereabouts/whereabouts.go:191-198 | in a currency of one zone every payment is in it, and a city is named only there |
| Whereabouts.SplitTrips | internal/integration/whereabouts/whereabouts.go:169-175 | the loop's splitting is the trips |
| Whereabouts.PaymentsAreInOrder | internal/integration/whereabouts/whereabouts.go:163-168 | payments are taken in time order, and at one time by uuid |
| Whereabouts.TripsAreMaximalRuns | internal/integration/whereabouts/whereabouts.go:169-175 | trips cover the payments in order, have no inner gap over 72 hours, and are more than that apart |
| Whereabouts.LocatedExactly | internal/integration/whereabouts/whereabouts.go:148-247 | a payment is in the answer if and only if its run is a trip and it has a zone and lies in the window, and then with that zone and its name, whatever other trips and currencies there are |
| Whereabouts.EveryRowHasItsTrip | internal/integration/whereabouts/whereabouts.go:148-175 | every foreign payment is in a run of its currency, and no other is ever placed |
| Whereabouts.PlacedOnlyOnATrip | internal/integration/whereabouts/whereabouts.go:181-247 | a payment is placed only by a trip it is in, one naming two places or more, within twelve hours of its first or last named one or between them |
| Whereabouts.Locate | internal/integration/whereabouts/whereabouts.go:148-178 | all currencies' trips, in one map |
| Whereabouts.OrderDoesNotMatter | internal/integration/whereabouts/whereabouts.go:148-178 | the same rows in any order are placed the same |
| EditDistance.TwoRowDistance | internal/integration/classifier/places.go:692-711 | the two rows updated in place hold the recursive distance |
| EditDistance.ZeroMeansEqual | internal/integration/classifier/places.go:692-711 | distance zero exactly for equal words |
| EditDistance.Symmetric | internal/integration/classifier/places.go:692-711 | distance is symmetric |
| EditDistance.Triangle | internal/integration/classifier/places.go:692-711 | the triangle inequality |
| EditDistance.DistanceIsLeast | internal/integration/classifier/places.go:692-711 | some script of that many inserts, deletes and replacements turns one word into the other, and no script is shorter |
| EditDistance.StartsSome | internal/integration/classifier/places.go:665-690 | accepts exactly when some word has a prefix in the window within the slips, or starts with what was typed |
| EditDistance.NearEnoughMeans | internal/integration/classifier/places.go:665-690 | in up to three letters a word must start as typed; from four on one slip is allowed, and from seven two |
| EditDistance.WindowIsExhaustiveUpToSix | internal/integration/classifier/places.go:665-690 | the window misses no near prefix of any words if and only if at most six letters were typed |
| Money.GroupIndian | internal/integration/ui/review.go:720-736 | commas before the last three digits and then before every pair |
| Money.GroupWestern | internal/integration/ui/review.go:738-744 | commas before every third digit from the right |
| Money.ReadsBackINR | internal/integration/ui/review.go:697-704 | parseMoneyToPaise undoes formatINR for every amount from 0 to the largest int64 |
| Money.ReadsBackForeign | internal/integration/ui/review.go:706-711 | and formatForeign, under any three-letter code |
| Money.ReadsBackDecimal | internal/integration/push.go:777-786 | and paiseToDecimal |
| Money.ReadsBackFromTheMirror | internal/integration/sync.go:391-428 | decimalToPaise undoes paiseToDecimal |
| Money.SignsAndBlanks | internal/integration/ui/money.go:39-72 | neither parser takes a minus, blank text is refused by the form and nothing to the mirror, and the printers drop the sign |
| Money.RoundingAgainstCutting | internal/integration/ui/money.go:39-72 | on every plain decimal the rounding parser reads the truncating one's value, plus one paisa exactly when the third decimal is 5 or more; past an int64 the one refuses and the other wraps |
| LlmClient.Client.Rest | internal/integration/llm/client.go:154-173 | a rest never shortens one and is at most six hours |
| LlmClient.Client.Settle | internal/integration/llm/client.go:175-201 | what a whole call does to the streak and the rest |
| LlmClient.SettledMeans | internal/integration/llm/client.go:175-201 | what each outcome of a whole call does to the streak and the rest, in minutes: a refused key a quarter of an hour, the third failure in a row 2 minutes, then 4, 8, 16, 32 and 60; and what counts for nothing |
| LlmClient.Client.Send | internal/integration/llm/client.go:394-461 | the loop that puts its own counter back computes the sequence of requests, and ends |
| LlmClient.Client.GenerateJSON | internal/integration/llm/client.go:340-462 | client after, requests sent and result of one call |
| LlmClient.AnswersMean | internal/integration/llm/client.go:394-461 | what each answer of the host does: the text is the result; a refused shape is given up and the try made again; overload and broken lines are tried again, unless the host asks for more than half a minute; anything else fails the call |
| LlmClient.FirstRequestMeans | internal/integration/llm/client.go:365-381 | with what effort and temperature a call starts |
| LlmClient.AtMostSixRequests | internal/integration/llm/client.go:394-461 | at most six requests whatever the host answers, and four once both refusals have been learned |
| LlmClient.EndsUnlessFallbackIsNone | internal/integration/llm/client.go:421-437 | every further round brings the end nearer if and only if the fallback is not "none" |
| LlmClient.StuckOnNone | internal/integration/llm/client.go:421-437 | with that fallback a refusing host is asked the same for ever |
| LlmClient.CallKeepsLearned | internal/integration/llm/client.go:365-381 | a call asks for nothing its client has seen refused, and forgets no refusal |
| LlmClient.RefusalsAreRemembered | internal/integration/llm/client.go:418-452 | over any run of calls, once the host has said at any request that thinking cannot be turned off, or that it takes no temperature, no later request of that call or of any other asks for it again |
| LlmClient.BreakerHolds | internal/integration/llm/client.go:144-201 | over any run of calls nothing is sent before openUntil, which never moves back nor more than six hours ahead, and every failure from the third in a row on, cancellations aside, rests two minutes or more |
| Precedence.Table.RefreshMoney | internal/integration/fold_sync.go:439-488 | reported money reaches a row that is neither pushed nor skipped |
| Precedence.RefreshAndMatchWrite | internal/integration/fold_sync.go:439-488 | money reported anew lands unless the row is pushed or skipped, a purchase is proposed where none is, and neither touches another column |
| Precedence.Table.ApplyDecision | internal/integration/classifier/classifier.go:699-794 | which columns a decision rewrites, and when fold may hold |
| Precedence.ReadyExactlyWhen | internal/integration/classifier/classifier.go:704-716 | a decision makes a row ready if and only if it is not left to a person, is as sure as the threshold and names nobody by name alone; any other sends it to review |
| Precedence.DecidedIsWritten | internal/integration/classifier/classifier.go:716-790 | each column after a decision, the old tags where it has none, and fold's hold if and only if there is none and none was released |
| Precedence.Table.ResetToPending | internal/integration/classifier/classifier.go:671-697 | which columns a reset clears |
| Precedence.ResetIsClean | internal/integration/classifier/classifier.go:678-697 | a reset row is pending and carries nothing of the classifier's but the sides' names, and all else stays |
| Precedence.RepairWrites | internal/integration/classifier/repair.go:144-232 | own-account repair writes the status, the sides and a proposed type alone, and nothing of a row entered by hand or settled |
| Precedence.Table.ResuggestOne | internal/integration/classifier/resuggest.go:174-227 | a re-suggestion nobody interrupts lands only where no person decided anything, tags and all |
| Precedence.ResuggestedExactlyWhen | internal/integration/classifier/resuggest.go:174-227 | a re-suggestion lands if and only if the model or a refund gave it and each of a person's columns is empty; the model's empty tags are meant |
| Precedence.ResuggestingIsARun | internal/integration/classifier/resuggest.go:197-212 | it is a check and two writes: in a run the writes are steps of their own, whatever came in between |
| Precedence.WhatAPersonDecidedIsSent | internal/integration/push.go:368-485 | over any run of money refreshes, classification, resets, re-suggestions, refund matches, own-account repairs and holds, what push would send for a person's type, category, budget, title, tags, amount and time never changes; nor, unless a repair on the way overrode a confirmed side, for the own account and, once the type is decided, the other |
| Precedence.LineIsTheRows | internal/integration/push.go:405-485 | what is sent for any row reads back as the row's: a person's amount, else the bank's, in the bank's currency; the time likewise; the narration as notes, under the row's uuid |
| Precedence.ForeignIsTheRows | internal/integration/push.go:455-463 | a foreign amount is sent if and only if the reported foreign currency is set and not the home one and an amount is known, a person's before the bank's, and reads back as that |
| Precedence.WordsAreTheRows | internal/integration/push.go:426-470 | title, category and budget go by a person's choice before the classifier's, the title then by merchant and narration |
| Precedence.StepKeepsThePerson | internal/integration/cron/cron.go:107 | a step of the engine's keeps what a person confirmed of the two sides if and only if it is not a repair that overrides it |
| Precedence.RepairMovesTheOwnAccount | internal/integration/classifier/repair.go:160-205 | a repair that changes a row always moves the own account that is sent to fold's asset, from something else |
| Precedence.RepairOverridesAPerson | internal/integration/classifier/repair.go:178-205 | a row with both sides confirmed that a repair rewrites |
| Precedence.ADecisionIsSent | internal/integration/classifier/classifier.go:703-794 | on a row nobody decided anything of, the classifier's accounts, type, category, budget and title are what push would send |
| Precedence.ReadyNamesNobodyNew | internal/integration/classifier/classifier.go:704-718 | a row made ready to push on the classifier's word names nobody Firefly would have to create an account for |
| Precedence.OtherAccountNeedsTheType | internal/integration/push.go:405-425 | without the type, the other account that is sent can change |
| Precedence.APersonsHoldStands | internal/integration/classifier/classifier.go:739-766 | a person's hold stands through any run of the engine's |
| Precedence.PersonHoldsWrites | internal/integration/ui/review.go:1321-1357 | a person's hold with a reason takes the place of any other; without one it lifts the hold, which is remembered if and only if that was fold's and could be recorded |
| Precedence.ReleasedForGood | internal/integration/classifier/classifier.go:739-766 | once a release of fold's hold is recorded, fold never holds the row again, whatever anyone does |
| Precedence.UnrecordedReleaseIsForgotten | internal/integration/ui/review.go:1343-1355 | a release whose record was lost does not bind fold |

## Left out

- HTTP, JSON, JWTs, templates, configuration, logging and authentication: foreign calls, with success or failure as parameters.
- SQLite itself: full-text search, migrations, constraint names. Each statement is an atomic step; the audit log and the timestamps kept for display are not columns here.
- Loss of a finished rename after a power cut: syncing the directory is best effort, and the model takes a rename that happened as kept.
- Token lifetimes: every token is taken to expire no earlier than `life` after it was asked for. `life` is any number, so only `BrokerMachine.RefreshesAreRationed`, which asks for more than the lead, is narrower for it.
- A Firefly that accepts a create and lets it appear only after a later search, and groups a person split into several journals.
- The eager mirror, the learner and the feedback written after a push: best effort, nothing reads them back in a push.
- LinkMachine.NeverTwoLinks: does not cover what comes between an attempt's list and its create, nor a journal with more than a page of links; listing and creating share no lock, and `LinkMachine.OverlappingAttemptsDuplicate`, `LinkMachine.LinkByHandDuplicates` and `LinkMachine.FullPageDuplicates` show why.
- RefundLink.Linker.FindLink: takes Firefly to list a journal's links in the order they were made.
- LinkMachine.EveryRefundIsLinkedOnce: asks for calls that work and links nobody removes, because a failed or interrupted attempt is tried again only by a later push, update or click, and a recorded link is not looked at again.
- Pushes that are marked without a journal, because Firefly's reply named none: `LinkMachine` starts from rows marked with theirs; nothing is linked for such a row.
- BrokerMachine.OneCallInFlight: is the process's own view; a request its caller has given up on, or one sent before a crash, may still be with Fold.
- Precedence.Table.ResuggestOne: takes the check and the writes as one call; `Precedence.ResuggestingIsARun` takes them apart.
- Precedence.WhatAPersonDecidedIsSent: no person edits the row during the run; it compares what push would send at its two ends. The repair pass reads all rows before it updates the first (repair.go:107-118, 220), and is one step for a row here: with a side confirmed in between, what it then writes is not covered.
- PushMachine.AtMostOnce: does not cover overlapping pushes of one row, because search and create share no lock; `PushMachine.OverlapDuplicates` shows why.
- RefundMatch.MatchRefundsConserves: counts per reference, as the code does; a purchase claimed once as a staged row and once as a journal, and the concurrent refund tier, are not added up.
- Money.RoundingAgainstCutting: asks for a digit before the point, because without one the truncating parser refuses; other notations a big.Rat accepts (signs, exponents, fractions, other bases) are a parameter.
- Sureness.SurestPage: takes the memo's lock as making each of its methods one step, so requests that share a memo at once are not interleaved inside them.
- Precedence.Table.RefreshMoney: leaves out the update that fails for want of a currency; `FoldSync.FoldSyncer.HandleOne` has it.
- Negative staged amounts: the sync drops the sign and the review form refuses it.
- SyncRecent: one page of the same steps without a cutoff.
- Binary rounding: fold's amounts are real numbers in `FoldSync`, so a float64 that lies just off a half paisa is not told apart from the half.
- Letter case outside a to z, in EqualFold and the classifier's lower case; and words beyond ASCII, where startsSome counts bytes and editDistance counts letters.
- Wildcards in a merchant's name inside LIKE: `RefundMatch` takes that match as a parameter.
- References to purchases in another spelling, such as with padding: a stored reference is its canonical form.
- The credit-back hold's own check, the model's prompts, web lookup and shadow evaluation.
- CheckType without a database to look in, where every name stays a name.
- The zone and city tables, and the resolver's answers over time: parameters of `Whereabouts`.
- The client's ring of recent calls, its backoff times and parallel calls of `LlmClient`.
