# Verification of the ad network's money pipeline

This project models the backend that moves money for an advertising network, and proves what the
code keeps true however requests, webhooks, workers, crashes and outages interleave:

- **The wallet.** `Books` says what each wallet transaction does to the tables, `WalletManager`
  does it statement by statement on an object, and the other wallet modules prove what follows:
  stored totals are replays of the ledger, money is conserved, the reserve is explained by campaigns
  and open payouts, payouts settle once, campaigns spend within their reservation, and which mixes
  of transactions can deadlock. `Transactions` says of each transaction when it goes through and what
  everybody owns afterwards, in balances, wallets and rows alone.
- **Billing.** Clicks read from a stream by a worker that can fail anywhere, conversions claimed by
  postbacks, and impressions counted in batches of a thousand are step systems over the wallet.
- **Payments.** Any number of confirm calls, webhooks and crashes race for one order.
- **The Redis client.** The RESP2 format, its parser and encoder over a buffer, and the matching of
  replies to commands.
- **Ad selection.** The weighted draw and second price, visitor caps on expiring counters, and the
  caches and the process that keep them filled.

A transaction is one atomic step with rollback; every gap between two transactions is a place where
other steps, a crash or an exception can happen. Money is in whole cents in the tables and in
millicents (thousandths of a cent) where it is handed to the wallet or bid in an auction.

## What the code does that its comments do not say

The model follows the code. Where that departs from the comments, the exact condition is proved, or
a bound for every run, and a failing input is given.

- The provider's PROCESSING write does not look at the payout (wallet-manager.service.ts:825). The
  books stay sound if and only if it never lands on a settled payout; `LateAnswerPaysTwice` shows one
  run in which it does.
- `recordCampaignSpend` locks Campaign before Wallet and `failPayout` locks Wallet before User
  (wallet-manager.service.ts:426-445 and 761-782, against 55-58). `DeadlockFreeIffSafeMix` says which
  mixes can deadlock because of it.
- An error reply is never consumed from the buffer (redis-resp.client.ts:179-186), so it rejects every
  later command of the connection: `ErrorIsNeverConsumed`.
- A failed counter increment reads as count 0 (redis-velocity-counter.store.ts:47), which CPM billing
  takes for a full batch. The advertiser pays for batch 0 once, each publisher can be credited for it:
  `OutageCreditsMoreThanItCharges`. A lost reply on a thousandth impression loses that batch.
  `BatchRowsOfEveryRun` says what any run bills, `CreditedWithinCharged` by how much publishers can
  get ahead.
- Impressions read again after a fault count again (clickhouse-ingestion-worker.service.ts:94-107): unlike a
  click, an impression carries no reference into billing. `DrainedCountIsExactIffNoRecounts` gives the exact
  condition on the faults of a run, `FaultCountsTwice` an input.
- A crash between charge and credit loses the publisher's credit (ad-billing.service.ts:66-92), and so
  does any exception there: reading the fee can throw, although the comment says that billing a click
  never does.
- An error of the database inside the charge is logged like a refusal and the next message follows
  (ad-billing.service.ts:73-85). If the batch is deleted afterwards the charge is lost:
  `ChargeErrorLosesClick`. If it is read again, the click is charged after later ones and can find the
  reserve used up. `EqualsPassIffNoneOvertaken` gives the exact condition for every run.
- The write that fails a dangling payment order checks no status (payments.service.ts:414-426), and it
  also runs when the row did get the provider's order id and only the reply to that update was lost. A
  payment that the provider takes for such an order is credited by its webhook, and the order can still
  end up FAILED: `FailureWriteAfterCredit`. The browser was never given the order's id then, so the
  buyer can pay only through the provider. `ReturnedReadsPaidIffWon` says that every order whose id was
  returned reads PAID exactly when it was won.
- A confirm call that loses the swap is answered PAID without another look at the order
  (payments.service.ts:106-113, 443-447, whose comment says that FAILED should not happen there). When a
  decline landed after the call had read the order, nothing is credited: `DeclineBeforeSwap`.
  `WrongAnswerIffFailedMeanwhile` and `PaidAnswerIsRightIff` give the exact condition.
- The requests of the campaign lifecycle write a status without looking again
  (advertiser.service.ts:304-338, admin.service.ts:121-143). An approval in the middle of an archive
  request leaves the budget stuck for ever: `ApprovalDuringArchive`, `ArchivedKeepsWhatItHolds`.
- The frequency cap is not a rolling window (visitor-frequency-cap.service.ts:20-24): up to twice the
  limit less one impressions fit in one window, and that many can be reached.
- A click cleared in an auction costs at least a cent, so a campaign that bids zero pays more than its
  bid: `ClearedPriceBound`.
- A cache write whose reply is lost, followed by rows that revert, leaves the cache wrong although the
  tick succeeds: `LostReplyThenRevertIsWrong` and `LostListReplyThenRevertIsWrong`. The exact conditions
  are `SuccessfulTickIsRightIff` and `CachedListIsAPermutationIff`.
- A worker that exits without a known pid is replaced under index 0 whatever its index was
  (main.ts:74-77): `OneEachIffKnownAndReplaced`. The primary knows every worker that got a pid
  (main.ts:66), so this is the exit of one whose process could not be started; Node leaves its `pid`
  undefined and documents that an exit may or may not be reported then.
  `FailedForkIsMendedIffSingleton` says when the branch does the right thing.

## Layout

| files | content |
|---|---|
| Books, Transactions, WalletManager | tables and transactions; when they go through and what they move; the wallet service as an object |
| LedgerReplay, Undo, Holdings, PayoutLifecycle, CampaignBudget, Locks, LockCoverage | what the wallet keeps |
| CampaignLifecycle, Approvals, CampaignService | approving, rejecting, moving and archiving campaigns |
| Accounts, HeldEarnings | charges and credits event by event; what billing holds as pending |
| Fees, ClickBilling, ClickWorker, ClickPass, ClickSolvency, ClickWorkerService | click billing and its worker |
| Conversions, ConversionRows, ConversionService | conversion billing |
| VelocityCounter, CpmCounters, Cpm, CpmBatches, CpmService, ImpressionWorker | counters and CPM billing |
| Payments, PaymentAnswers, PaymentsService | payment orders |
| Resp, RespRoundTrip, RespClient, RespWire | the Redis protocol and its client |
| Auction, FrequencyCap, Targeting | choosing an ad |
| CacheSync, Cluster | caches and worker processes |

The modules named `...Service`, `RespConnection`, `VelocityCounter`, `Targeting`, `CacheSync` and
`Cluster` hold the classes. Their methods are tied to the functions of the step systems, and the
lemmas are about those.

## Model

| member | source | states |
|---|---|---|
| Books.Normalize | backend/src/wallet/wallet-manager.service.ts:1042-1059 | an amount is accepted exactly when it is a positive whole number of cents, and then unchanged |
| Books.ForeignKeysKept | backend/prisma/schema.prisma:233-300 | every transaction leaves wallets, campaigns, payouts and ledger rows with existing owners and deletes no user |
| WalletService.WalletManager.LockOrCreateWallet | backend/src/wallet/wallet-manager.service.ts:886-903 | the user ends up with the wallet it had, or an empty one; no other wallet changes |
| WalletService.WalletManager.RecordTransaction | backend/src/wallet/wallet-manager.service.ts:933-967 | appends the row exactly when no row of the wallet has its type and reference; a missing reference never collides |
| WalletService.WalletManager.Deposit | backend/src/wallet/wallet-manager.service.ts:248-279 | the deposit transaction: all tables after it, every error, and on an error no change at all |
| WalletService.WalletManager.ReserveCampaignBudget | backend/src/wallet/wallet-manager.service.ts:298-358 | the reservation transaction: availability and minimum-balance checks, one reservation per campaign, and all tables after it |
| WalletService.WalletManager.ReleaseCampaignReservation | backend/src/wallet/wallet-manager.service.ts:363-409 | the release transaction: never more than the campaign holds, back to the owner's balance |
| WalletService.WalletManager.RecordCampaignSpend | backend/src/wallet/wallet-manager.service.ts:418-480 | the spend transaction: only from an active campaign's own reserve, duplicates refused, and all tables after it |
| WalletService.WalletManager.CreditPublisherEarning | backend/src/wallet/wallet-manager.service.ts:488-533 | the earning transaction: pending, or available at once, duplicates refused |
| WalletService.WalletManager.PromotePendingEarnings | backend/src/wallet/wallet-manager.service.ts:537-560 | moves pending earnings to the balance, never more than is pending |
| WalletService.WalletManager.HoldPayout | backend/src/wallet/wallet-manager.service.ts:569-625 | the payout-request transaction: minimum amount, availability, the hold, and the new payout's number |
| WalletService.WalletManager.CompletePayout | backend/src/wallet/wallet-manager.service.ts:697-735 | settles an open payout once; completed is a no-op and failed an error |
| WalletService.WalletManager.FailPayout | backend/src/wallet/wallet-manager.service.ts:758-802 | returns an open payout's amount once; failed is a no-op and completed an error |
| WalletService.WalletManager.SubmitToProvider | backend/src/wallet/wallet-manager.service.ts:821-839 | each answer of the provider, the unguarded PROCESSING write included |
| Transactions.DepositDoes | backend/src/wallet/wallet-manager.service.ts:248-279 | a deposit goes through exactly for a positive whole number of cents, a known user and a free reference, and adds it to balance and total and nothing else |
| Transactions.ReserveDoes | backend/src/wallet/wallet-manager.service.ts:298-358 | a reservation goes through exactly for whole cents, the owner's own campaign, enough balance and no earlier reservation, and moves them from balance to reserve and campaign |
| Transactions.ReleaseDoes | backend/src/wallet/wallet-manager.service.ts:363-409 | a release goes through exactly for whole cents that the owner's own campaign holds and a free reference, and moves them back |
| Transactions.SpendDoes | backend/src/wallet/wallet-manager.service.ts:418-480 | a spend goes through exactly for whole cents that an active campaign holds and a free reference, and moves them from reserved to spent |
| Transactions.CreditDoes | backend/src/wallet/wallet-manager.service.ts:488-533 | an earning goes through exactly for whole cents, a known user and a free reference; it is held as pending, or available if it is immediate |
| Transactions.PromoteDoes | backend/src/wallet/wallet-manager.service.ts:537-560 | a promotion goes through exactly for whole cents that are pending, and makes them available without a ledger row |
| Transactions.RequestPayoutDoes | backend/src/wallet/wallet-manager.service.ts:569-625 | a payout request goes through exactly for whole cents, twenty dollars or more, within the balance and with a free reference, and holds them; less than twenty dollars is its own error |
| Transactions.CompletePayoutDoes | backend/src/wallet/wallet-manager.service.ts:697-735 | completing takes an open payout's amount out of the reserve; a completed one is left alone and a failed one is an error |
| Transactions.FailPayoutDoes | backend/src/wallet/wallet-manager.service.ts:758-802 | failing gives an open payout's amount back; a failed one is left alone and a completed one is an error |
| Transactions.EveryErrorHasItsCause | backend/src/wallet/wallet-manager.service.ts:248-819 | whatever error a transaction ends with names something that is wrong with the request |
| Transactions.EveryPayoutReachesTheMinimum | backend/src/wallet/wallet-manager.service.ts:571-575 | in every reachable state every payout is of twenty dollars or more |
| LedgerReplay.PostMovesBySign | backend/src/wallet/wallet-manager.service.ts:248-819 | posting a row moves balance, reserve, pending and the four totals by exactly the signs read off the row's type |
| LedgerReplay.FundsOnlyMoveByPosting | backend/src/wallet/wallet-manager.service.ts:248-819 | whatever transaction runs, a user's funds change only by one posted row, a cleared pending amount, or both |
| LedgerReplay.StepReplayed | backend/src/wallet/wallet-manager.service.ts:248-819 | one transaction keeps the stored figures equal to the folds over the ledger |
| LedgerReplay.LedgerReplaysEveryRun | backend/src/wallet/wallet-manager.service.ts:248-819 | in every reachable state the four totals, the reserve, and balance plus pending are signed folds over the wallet's rows |
| LedgerReplay.ColumnsBalance | backend/src/wallet/wallet-manager.service.ts:248-819 | on any ledger the folds for balance, reserve and pending add up to deposited plus earned minus spent minus withdrawn |
| LedgerReplay.MoneyIsConserved | backend/src/wallet/wallet-manager.service.ts:248-819 | balance + reserved + pending = deposited + earned - spent - withdrawn for every user in every reachable state |
| LedgerReplay.LedgerIsAppendOnly | backend/prisma/schema.prisma:260-283 | over any run the ledger only grows at its end and its keys (wallet, type, reference) stay unique |
| Undo.ReleaseUndoesReserve | backend/src/wallet/wallet-manager.service.ts:298-409 | releasing what was just reserved gives everybody the same funds and campaigns as before, with two rows more in the ledger |
| Undo.FailUndoesRequest | backend/src/wallet/wallet-manager.service.ts:564-802 | a payout that fails before anything else happens gives the publisher back what it had |
| Undo.ImmediateIsPromotedAtOnce | backend/src/wallet/wallet-manager.service.ts:488-560 | an immediate credit is a held credit promoted at once, and a held one does not touch the balance |
| Holdings.CampaignHoldUpdate | backend/src/wallet/wallet-manager.service.ts:334-356 | changing one campaign moves its owner's campaign hold by the difference and nobody else's |
| Holdings.PayoutHoldUpdate | backend/src/wallet/wallet-manager.service.ts:697-802 | changing one payout moves its owner's payout hold by the difference and nobody else's |
| Holdings.SoundIsSolvent | backend/src/wallet/wallet-manager.service.ts:298-819 | when the reserve is explained by campaigns and open payouts nothing is negative, the unchecked reserve included |
| Holdings.StepStaysSound | backend/src/wallet/wallet-manager.service.ts:248-839 | every transaction whose PROCESSING write, if it is one, meets an open payout keeps reserve = campaign holds + open payouts and every holding non-negative |
| Holdings.ProcessingWriteIsSoundIffOpen | backend/src/wallet/wallet-manager.service.ts:821-832 | the PROCESSING write keeps a sound database sound if and only if the payout is still open |
| Holdings.GuardedRunStaysSound | backend/src/wallet/wallet-manager.service.ts:248-839 | a run whose PROCESSING writes all meet open payouts ends in a sound database |
| Holdings.RunSoundIffGuarded | backend/src/wallet/wallet-manager.service.ts:248-839 | a run is sound at every step if and only if none of its PROCESSING writes lands on a settled payout |
| PayoutLifecycle.EveryRunSettlesAtMostOnceEach | backend/src/wallet/wallet-manager.service.ts:697-802 | even with the unguarded write a payout has at most one PAYOUT_COMPLETED and at most one PAYOUT_FAILED row |
| PayoutLifecycle.SettlementRowMeansSettled | backend/src/wallet/wallet-manager.service.ts:697-802 | a settlement row for a payout appears exactly in the step that takes it from open to that outcome |
| PayoutLifecycle.GuardedRunSettlesAsStatusSays | backend/src/wallet/wallet-manager.service.ts:697-870 | in a guarded run the amount left the reserve once if the payout is settled, in the way its status says, and never otherwise |
| PayoutLifecycle.RunSettlesAsStatusSaysIffGuarded | backend/src/wallet/wallet-manager.service.ts:697-870 | status and ledger agree about every payout at every step if and only if the run is guarded |
| PayoutLifecycle.OpenPayoutCanBeSettled | backend/src/wallet/wallet-manager.service.ts:697-802 | an open payout can always still be completed and can always still be failed |
| PayoutLifecycle.GuardedRunNeverGoesBack | backend/src/wallet/wallet-manager.service.ts:697-870 | in a guarded run a payout never goes to an earlier stage and a settled one keeps its outcome |
| PayoutLifecycle.LateAnswerPaysTwice | backend/src/wallet/wallet-manager.service.ts:821-832 | a concrete run with a late PROCESSING write: the amount is paid out and returned, and the reserve falls below zero |
| CampaignBudget.StepOnCampaign | backend/src/wallet/wallet-manager.service.ts:298-480 | a campaign's reserved and spent amounts move only by its own reservation and release rows or from reserved to spent |
| CampaignBudget.StepKeepsBudget | backend/src/wallet/wallet-manager.service.ts:298-480 | one transaction keeps reserved + spent + released equal to what was reserved, and the reservation unique |
| CampaignBudget.EveryRunKeepsBudgets | backend/src/wallet/wallet-manager.service.ts:298-480 | in every run each campaign has at most one reservation row and reserved + spent + released equals it |
| CampaignBudget.SpendStaysWithinReservation | backend/src/wallet/wallet-manager.service.ts:334-479 | a campaign's spend never exceeds the amount of its one reservation row, whatever duplicates, releases or budget edits occur |
| CampaignBudget.NoReservationNoSpend | backend/src/wallet/wallet-manager.service.ts:418-450 | a campaign for which nothing was ever reserved has spent and holds nothing |
| CampaignLifecycle.StepIsSafeIffGuarded | backend/src/advertiser/advertiser.service.ts:304-338 | one step leaves no money in an archived campaign if and only if ARCHIVED is written on an empty reserve and nothing is reserved for an archived campaign, for want of a budget, a balance or a free reference |
| CampaignLifecycle.NeverStuckIffGuarded | backend/src/advertiser/advertiser.service.ts:304-338 | no archived campaign ever holds money during a run of interleaved requests if and only if every step meets that guard |
| CampaignLifecycle.ArchivedKeepsWhatItHolds | backend/src/advertiser/advertiser.service.ts:304-338 | once archived with no request in flight a campaign stays archived and its reserve stays exactly as it is for ever |
| CampaignLifecycle.ApprovalDuringArchive | backend/src/admin/admin.service.ts:121-143 | an approval between the read and the write of an archive request leaves the whole budget stuck in an archived campaign |
| CampaignLifecycle.HandleIsOrderly | backend/src/advertiser/advertiser.service.ts:304-338 | a request handled alone moves every campaign along the lifecycle only and leaves no money in archived or unreviewed campaigns |
| CampaignLifecycle.OneAtATimeIsOrderly | backend/src/admin/admin.service.ts:121-173 | over any requests handled one at a time ARCHIVED is final and archived campaigns hold nothing |
| CampaignService.AdminService.ApproveCampaign | backend/src/admin/admin.service.ts:121-143 | goes through exactly when the campaign is under review and its owner can pay; the whole budget is then reserved and the campaign live, and otherwise nothing changed |
| CampaignService.AdminService.RejectCampaign | backend/src/admin/admin.service.ts:160-173 | archives exactly the campaigns under review |
| CampaignService.AdvertiserService.TransitionCampaign | backend/src/advertiser/advertiser.service.ts:304-338 | ownership, allowed moves, release on archiving, and the status write, as one handled request |
| Approvals.ApproveDoes | backend/src/admin/admin.service.ts:121-143 | an approval reserves the whole budget out of the owner's balance and goes live exactly when the campaign is under review and the owner can pay, and else changes nothing |
| Approvals.TransitionDoes | backend/src/advertiser/advertiser.service.ts:304-338 | a move that is not allowed changes nothing, archiving gives back all that the campaign holds, any other move changes the status and nothing else |
| Approvals.AdvertiserMoves | backend/src/advertiser/campaign-status.util.ts:14-24 | an advertiser may archive what is neither active nor archived, submit a draft, pause or complete what is active, and resume what is paused |
| Approvals.HandlingIsARun | backend/src/admin/admin.service.ts:121-173 | requests handled one after the other are one run of the interleaved steps |
| Approvals.LiveCampaignsAreFunded | backend/src/admin/admin.service.ts:130-143 | however requests interleave, every active, paused or completed campaign has its reservation in the ledger |
| Approvals.HandledCampaignsAreFunded | backend/src/admin/admin.service.ts:130-143 | the same for requests handled one at a time |
| Locks.OrderedNeverDeadlocks | backend/src/wallet/wallet-manager.service.ts:55-58 | transactions that all take their locks upwards in one ranking of the tables can never wait for each other in a cycle, in any number |
| Locks.OrderedAlwaysProgresses | backend/src/wallet/wallet-manager.service.ts:55-58 | then, whenever one is running, some running transaction can take its next lock or has all of them |
| Locks.WhoFollowsTheClaimedOrder | backend/src/wallet/wallet-manager.service.ts:55-58 | exactly the kinds other than spend and failed payout take Payout, User, Wallet, Campaign upwards |
| Locks.ClaimedOrderIsDeadlockFree | backend/src/wallet/wallet-manager.service.ts:309-316 | any number of concurrent deposits, reservations, releases, credits, promotions, payout requests and completions is free of wait cycles |
| Locks.SpendAgainstReserve | backend/src/wallet/wallet-manager.service.ts:426-445 | a spend and a reservation or release can reach a wait cycle |
| Locks.FailAgainstUserFirst | backend/src/wallet/wallet-manager.service.ts:761-782 | a failed payout and any transaction that locks User before Wallet can reach a wait cycle |
| Locks.DeadlockFreeIffSafeMix | backend/src/wallet/wallet-manager.service.ts:55-58 | a set of transaction kinds never reaches a wait cycle if and only if it has neither of these two pairs |
| LockCoverage.ChangedRowsAreLocked | backend/src/wallet/wallet-manager.service.ts:248-819 | a wallet transaction changes no balance, wallet, campaign or payout that is not among the rows it locks |
| RespRoundTrip.LineIsTheFirst | backend/src/ad-engine/redis-resp.client.ts:271-282 | a line is exactly the bytes before the first CR LF, and none is found exactly when there is no CR LF |
| RespRoundTrip.ReplyIsItsBytes | backend/src/ad-engine/redis-resp.client.ts:228-340 | a reply is read from exactly the bytes it counts: they give it alone, and every shorter part of them is incomplete |
| RespRoundTrip.ParseStable | backend/src/ad-engine/redis-resp.client.ts:228-340 | whatever is decided about the front of a buffer stays decided when bytes are appended |
| RespRoundTrip.NumberReadsBack | backend/src/ad-engine/redis-resp.client.ts:216-225 | a printed number reads back as itself and contains no line end |
| RespRoundTrip.RoundTrip | backend/src/ad-engine/redis-resp.client.ts:228-340 | for every RESP2 value without CR LF in a simple string, printing and then any bytes parse to its meaning and exactly its length |
| RespRoundTrip.UnprintableIsLost | backend/src/ad-engine/redis-resp.client.ts:271-282 | a value with CR LF in a simple string never reads back |
| RespRoundTrip.RoundTripIffPrintable | backend/src/ad-engine/redis-resp.client.ts:228-340 | the round trip holds if and only if no simple string inside contains CR LF |
| RespRoundTrip.CommandRoundTrip | backend/src/ad-engine/redis-resp.client.ts:216-225 | parsing an encoded command returns its arguments, for arbitrary byte strings |
| RespWire.ErrorLineIsAnError | backend/src/ad-engine/redis-resp.client.ts:239-246 | a minus sign, a text without CR LF and CR LF are an error with that text, whatever follows |
| RespWire.PlusLineIsAReply | backend/src/ad-engine/redis-resp.client.ts:235-237 | the same behind a plus sign is a reply with that text |
| RespWire.ErrorsByFirstByte | backend/src/ad-engine/redis-resp.client.ts:228-269 | outside arrays exactly a whole minus line is an error and exactly an unknown first byte is unsupported |
| RespWire.ErrorInsideAnArray | backend/src/ad-engine/redis-resp.client.ts:314-340 | an error behind any items of an array is an error of the whole array |
| RespWire.ErrorRejectsItsCommand | backend/src/ad-engine/redis-resp.client.ts:173-204 | however the bytes arrive, the command whose turn comes at an error line and all behind it are rejected with its text, and those before it got their replies |
| RespWire.UnknownByteRejectsItsCommand | backend/src/ad-engine/redis-resp.client.ts:268 | the same for a byte that begins no reply |
| RespWire.CommandBytes | backend/src/ad-engine/redis-resp.client.ts:216-226 | the bytes of a command, written out |
| RespWire.NumbersAreDecimal | backend/src/ad-engine/redis-resp.client.ts:216-226 | lengths and counts are written in decimal |
| RespWire.SignedNumbers | backend/src/ad-engine/redis-resp.client.ts:248-258 | a number may carry a plus or a minus sign |
| RespWire.NoItems | backend/src/ad-engine/redis-resp.client.ts:314-340 | an array of no or a negative length reads as an empty one |
| RespConnection.DrainEarly | backend/src/ad-engine/redis-resp.client.ts:173-204 | draining now and again later equals draining once with everything |
| RespConnection.ChunksDoNotMatter | backend/src/ad-engine/redis-resp.client.ts:155-204 | after the last chunk the state depends on the byte stream and the commands sent only, not on how they were split and interleaved |
| RespConnection.EveryRunIsFirstInFirstOut | backend/src/ad-engine/redis-resp.client.ts:155-204 | the k-th command gets the k-th reply, the unread buffer is the stream without the delivered replies, and an error rejects every command behind it |
| RespConnection.ServerRepliesReachTheirCallers | backend/src/ad-engine/redis-resp.client.ts:155-204 | the values the server printed reach the commands one for one with nothing left over |
| RespConnection.AllResolvedIffNoneBehindError | backend/src/ad-engine/redis-resp.client.ts:178-186 | every settled command was resolved if and only if no command was sent past the replies in front of an error |
| RespConnection.ErrorIsNeverConsumed | backend/src/ad-engine/redis-resp.client.ts:179-186 | an error at the parse offset stays there for ever and rejects every later command with it |
| RespConnection.RedisRespClient.Command | backend/src/ad-engine/redis-resp.client.ts:52-68 | queues the promise behind the others and writes the encoded command |
| RespConnection.RedisRespClient.OnData | backend/src/ad-engine/redis-resp.client.ts:155-158 | appends the chunk and drains |
| RespConnection.RedisRespClient.Drain | backend/src/ad-engine/redis-resp.client.ts:173-204 | the loop over buffer and offset does what draining the unread bytes does, and an idle connection drops consumed bytes |
| RespConnection.RedisRespClient.FailPending | backend/src/ad-engine/redis-resp.client.ts:206-214 | rejects every pending command in order and drops the buffer |
| RespConnection.RedisRespClient.Encode | backend/src/ad-engine/redis-resp.client.ts:216-226 | writes the array of bulk strings that stands for the command |
| RespConnection.RedisRespClient.ParseAt | backend/src/ad-engine/redis-resp.client.ts:228-269 | parsing at an offset is parsing the bytes from there on |
| RespConnection.RedisRespClient.ParseLineAt | backend/src/ad-engine/redis-resp.client.ts:271-282 | finds the first CR LF from the offset on |
| RespConnection.RedisRespClient.ParseBulkStringAt | backend/src/ad-engine/redis-resp.client.ts:284-312 | null, incomplete and complete bulk strings at an offset |
| RespConnection.RedisRespClient.ParseArrayAt | backend/src/ad-engine/redis-resp.client.ts:314-340 | the item loop reads exactly what the recursive definition of an array reads |
| Fees.ShareIsNearestCent | backend/src/platform-settings/platform-settings.service.ts:298-307 | the publisher's share is the cent nearest to the exact share, the upper one of two |
| Fees.ShareWithinCharge | backend/src/platform-settings/platform-settings.service.ts:298-307 | for every fee the share of a whole-cent charge is at most the charge |
| Fees.ShareFallsWithFee | backend/src/platform-settings/platform-settings.service.ts:298-307 | a higher fee never gives a higher share; no fee gives everything and the full fee nothing |
| ClickBilling.ChargeSeenInView | backend/src/wallet/wallet-manager.service.ts:418-480 | a click is charged exactly when the campaign rows and AD_SPEND rows alone allow it, with the new row and campaign figures |
| ClickBilling.ReplayChangesNothing | backend/src/wallet/wallet-manager.service.ts:418-480 | after a pass over a log no click of it can be charged again: reserves only fall and references are unique |
| ClickBilling.BillAllSeen | backend/src/ad-engine/ad-billing.service.ts:49-93 | the fault-free pass charges what the advertiser-side pass charges and credits exactly the charged clicks with a non-zero share |
| ClickBilling.PassIsRedone | backend/src/wallet/wallet-manager.service.ts:418-480 | the campaign figures after a pass are the first figures with its AD_SPEND rows paid one after the other |
| ClickBilling.PassRowAt | backend/src/wallet/wallet-manager.service.ts:418-480 | each row of a pass is the charge of its click at that click's turn, when it could be charged |
| ClickBilling.DecideCharged | backend/src/wallet/wallet-manager.service.ts:418-480 | deciding one more click in a pass, when no later one was charged, adds exactly its charge at the end |
| ClickWorker.StepStaysOnTrack | backend/src/ad-engine/clickhouse-click-ingestion-worker.service.ts:65-104 | every step, crashes, exceptions, swallowed charge errors and other transactions included, keeps: only decided clicks are charged, none can be charged again, the campaign figures are those its rows give, and the credits are those of the charged clicks without the lost ones |
| ClickWorker.RunStaysOnTrack | backend/src/ad-engine/clickhouse-click-ingestion-worker.service.ts:65-134 | the same for every run |
| ClickPass.EqualsPassIffNoneOvertaken | backend/src/ad-engine/clickhouse-click-ingestion-worker.service.ts:65-134 | in every run the advertiser side equals one fault-free pass in id order if and only if no charge overtook an earlier message that could still be charged, and no such message is left |
| ClickPass.CreditsArePassWithoutLost | backend/src/ad-engine/ad-billing.service.ts:66-92 | then the publisher credits are the pass's credits without exactly those lost or in flight |
| ClickPass.DrainedEqualsFaultFreePass | backend/src/ad-engine/clickhouse-click-ingestion-worker.service.ts:65-104 | once the stream is drained, and if each charge error met a message that could not be charged, both sides equal one fault-free pass without the lost credits |
| ClickPass.ChargeErrorLosesClick | backend/src/ad-engine/ad-billing.service.ts:73-85 | a drained run that ends otherwise: a charge error on a click that could be paid, then the batch is deleted |
| ClickPass.CrashBeforeCreditIsForGood | backend/src/ad-engine/ad-billing.service.ts:66-92 | a crash between charge and credit loses the publisher's credit for ever although the click is read again |
| ClickPass.LostIffFaultInFlight | backend/src/ad-engine/ad-billing.service.ts:66-92 | a credit is lost if and only if an exception or a crash met its click between charge and credit |
| ClickWorker.ReadBatchIsTheFirst | backend/src/ad-engine/redis-stream-message-broker.consumer.ts:22-44 | a read returns undeleted messages from the cursor on, in order, and leaves none of them out before it is full |
| ClickPass.NextReadIsTheFirstLeft | backend/src/ad-engine/clickhouse-click-ingestion-worker.service.ts:65-134 | in every run the next read starts at the first message that has not been deleted and finds nothing only when there is none |
| HeldEarnings.ClickIsBilledIff | backend/src/ad-engine/ad-billing.service.ts:49-93 | a click is charged its whole cost if and only if its campaign is active and can pay it for the first time and its zone exists; the nearest cent is then added to what the publisher has pending |
| HeldEarnings.WorkerMovesNoBalance | backend/src/ad-engine/ad-billing.service.ts:207-211 | no step of the click worker changes anybody's available balance |
| HeldEarnings.WorkerHoldsTheShare | backend/src/ad-engine/ad-billing.service.ts:186-212 | in every run of the worker a credit adds the nearest cent to what the publisher of the click's zone has pending, and to nothing else |
| HeldEarnings.BillingMovesNoBalance | backend/src/ad-engine/ad-billing.service.ts:207-211 | the same beside any other transactions: no billing step changes a balance |
| HeldEarnings.BillingHoldsTheShare | backend/src/ad-engine/ad-billing.service.ts:186-212 | and a credit adds the nearest cent of the charge to what the publisher has pending |
| Accounts.OrderLeavesNoLoss | backend/src/ad-engine/ad-billing.service.ts:49-181 | events that are each charged at most once, credited only if charged and never for more leave the platform no loss in total |
| Accounts.CreditHasItsCharge | backend/src/ad-engine/ad-billing.service.ts:49-181 | a credit in such a ledger stands beside exactly one charge for the same event, at least as large |
| ClickSolvency.EveryClickInOrder | backend/src/ad-engine/ad-billing.service.ts:49-93 | in every run of charges, charge errors, credits at any fee, crashes and any other transactions a click is charged at most once, credited only if charged, and never for more |
| ClickSolvency.ClickCreditHasItsSpend | backend/src/ad-engine/ad-billing.service.ts:49-93 | in every such run a click's publisher row stands beside exactly one AD_SPEND row with its reference, at least as large |
| ClickSolvency.PlatformNeverLosesOnClicks | backend/src/ad-engine/ad-billing.service.ts:49-93 | in every such run, for any fees, credits for clicks are covered by charges for clicks |
| ClickSolvency.WorkerRunIsBillingRun | backend/src/ad-engine/clickhouse-click-ingestion-worker.service.ts:65-104 | every run of the stream worker is such a run |
| ClickWorkerService.AdBillingService.BillClick | backend/src/ad-engine/ad-billing.service.ts:49-93 | charges, then credits in a second transaction; each lookup and each transaction may fail, and what is swallowed and what is thrown is told apart |
| ClickWorkerService.AdBillingService.CreditPublisherShare | backend/src/ad-engine/ad-billing.service.ts:186-224 | credits the share, nothing when it rounds to zero, and never an error |
| ClickWorkerService.ClickHouseClickIngestionWorker.ReadStream | backend/src/ad-engine/redis-stream-message-broker.consumer.ts:22-44 | the first messages behind the cursor that have not been deleted |
| ClickWorkerService.ClickHouseClickIngestionWorker.BillAll | backend/src/ad-engine/clickhouse-click-ingestion-worker.service.ts:83-88 | the loop bills the batch in order and is a run of the step system |
| ClickWorkerService.ClickHouseClickIngestionWorker.BillNextBatch | backend/src/ad-engine/clickhouse-click-ingestion-worker.service.ts:65-88 | reads and bills one batch as a run of the step system |
| ClickWorkerService.ClickHouseClickIngestionWorker.Acknowledge | backend/src/ad-engine/clickhouse-click-ingestion-worker.service.ts:95-98 | deletes the batch from the stream; the reply may be lost |
| ClickWorkerService.ClickHouseClickIngestionWorker.ProcessNextBatch | backend/src/ad-engine/clickhouse-click-ingestion-worker.service.ts:65-104 | bills, deletes and advances; an exception in the middle of billing, before the delete or after it keeps the cursor; every call is a run of the step system |
| Conversions.EveryConversionInOrder | backend/src/ad-engine/conversion-tracking.service.ts:53-129 | however postbacks interleave, fail and repeat, a click is charged at most once, credited only if charged, and never for more |
| Conversions.PlatformNeverLosesOnConversions | backend/src/ad-engine/conversion-tracking.service.ts:53-129 | over all conversions together credits never exceed charges, for any fees |
| ConversionService.ConversionTracking.RecordConversion | backend/src/ad-engine/conversion-tracking.service.ts:53-129 | claims the click once and bills only the claim that won, as a run of the step system |
| ConversionRows.ChargeDoes | backend/src/ad-engine/ad-billing.service.ts:150-175 | a claimed conversion is charged its whole bid if and only if bid and zone are there and the campaign is active and holds the bid |
| ConversionRows.CreditDoesOrEnds | backend/src/ad-engine/ad-billing.service.ts:186-212 | a charged conversion adds the nearest cent to what the publisher has pending if and only if that is not nothing and the publisher exists |
| ConversionRows.RowsOfEveryConversion | backend/src/ad-engine/conversion-tracking.service.ts:53-129 | in every run a conversion has one charge row if and only if a step charged it and one credit row if and only if a step credited it, and never more |
| ConversionRows.RowOfTheCharge | backend/src/ad-engine/ad-billing.service.ts:150-175 | the charge row is for the whole bid |
| ConversionRows.RowOfTheCredit | backend/src/ad-engine/ad-billing.service.ts:186-212 | the credit row is for the nearest cent of the charge, to the publisher of the click's zone |
| ConversionRows.OneConversion | backend/src/ad-engine/conversion-tracking.service.ts:53-129 | a concrete run with both rows: ten dollars charged, eight held as pending |
| HeldEarnings.ConversionsMoveNoBalance | backend/src/ad-engine/ad-billing.service.ts:207-211 | no step of conversion billing changes a balance |
| HeldEarnings.ConversionHoldsTheShare | backend/src/ad-engine/ad-billing.service.ts:186-212 | in every run a conversion's credit adds the nearest cent of its charge to what the publisher has pending |
| Payments.PaymentIsKept | backend/src/payments/payments.service.ts:434-450 | an order that has a payment keeps payment, user and amount; only the failure write of a dangling order changes its status |
| Payments.StepFits | backend/src/payments/payments.service.ts:96-199 | every step keeps: an order with a payment is credited, or in the hands of its one winner, or dropped by it, exactly one of these |
| Payments.CreditedExactlyOnce | backend/src/payments/payments.service.ts:434-471 | over any interleaving of confirm calls, webhooks, declines and crashes an order is deposited at most once, only when won, to its user and for its credit amount |
| Payments.EveryTopUpIsPaidFor | backend/src/payments/payments.service.ts:434-471 | every top-up row pays in one order that has its payment, and no second row has that payment |
| Payments.WonReadsPaidIffGuarded | backend/src/payments/payments.service.ts:414-426 | a won order reads PAID if and only if no failure write of the request that created it hit it after it was paid |
| Payments.ReturnedReadsPaidIffWon | backend/src/payments/payments.service.ts:70-87 | an order whose id was returned to the browser reads PAID if and only if a payment won it, in every run |
| Payments.FailureWriteAfterCredit | backend/src/payments/payments.service.ts:70-87 | a concrete run in which a credited order reads FAILED: the row got the provider's id, the reply to that update was lost, the provider took a payment, and the failure write came last |
| Payments.FailedIsFinal | backend/src/payments/payments.service.ts:434-447 | FAILED is never left |
| Payments.OrdersAreAsCreated | backend/src/payments/payments.service.ts:52-63 | every order is for the user and the amount that it was created with |
| PaymentAnswers.FailedUnpaidIff | backend/src/payments/payments.service.ts:183-197 | an order is FAILED without a payment if and only if a decline or its creator's failure write met it before it was paid |
| PaymentAnswers.PaidAnswerIsRightIff | backend/src/payments/payments.service.ts:96-114 | in every run the answer PAID is right (credited, in its winner's hands or dropped by it) if and only if nothing failed the order before it was paid |
| PaymentAnswers.WrongAnswerIffFailedMeanwhile | backend/src/payments/payments.service.ts:443-447 | a confirm call that read the order CREATED is answered PAID wrongly if and only if the order was failed between that read and the answer |
| PaymentAnswers.OnlyDeclinesFailReturned | backend/src/payments/payments.service.ts:183-197 | for an order whose id the browser was given only a decline can do that |
| PaymentAnswers.DeclineBeforeSwap | backend/src/payments/payments.service.ts:443-447 | a concrete run: captured, declined, and answered PAID with nothing credited |
| Payments.WinnerCanDeposit | backend/src/payments/payments.service.ts:453-470 | the winner's deposit is refused if and only if the credit amount is zero |
| PaymentsService.PaymentsService.TryMarkPaid | backend/src/payments/payments.service.ts:438-447 | the compare-and-swap: which caller wins, which loses, and the order after it |
| PaymentsService.PaymentsService.MarkPaidAndCredit | backend/src/payments/payments.service.ts:434-471 | swap, then deposit: the state after both, and what each outcome means for order and ledger |
| PaymentsService.PaymentsService.StartConfirm | backend/src/payments/payments.service.ts:96-104 | the look at the order: unknown, already PAID, FAILED, or to be captured |
| PaymentsService.PaymentsService.FinishConfirm | backend/src/payments/payments.service.ts:106-113 | capture, swap and deposit, whatever happened to the order meanwhile, as steps of the system; PAID is answered exactly when no error is thrown, a lost swap included |
| PaymentsService.PaymentsService.ConfirmPayment | backend/src/payments/payments.service.ts:96-114 | the confirm call with nothing in between, for every order status and provider answer |
| PaymentsService.PaymentsService.HandleCaptured | backend/src/payments/payments.service.ts:162-181 | a capture webhook credits once; an unknown order is left alone |
| PaymentsService.PaymentsService.HandleDeclined | backend/src/payments/payments.service.ts:183-197 | a decline fails a known order only while it is CREATED |
| PaymentsService.PaymentsService.CreateOrder | backend/src/payments/payments.service.ts:52-88 | a created order is published and returned; or failed; or published and then failed when the reply to the update is lost |
| VelocityCounter.IncrementedIsOneMore | backend/src/ad-engine/redis-velocity-counter.store.ts:20-49 | an increment adds one to its own key, starting again after the deadline, touches no other key, and tells the true count unless it tells zero |
| VelocityCounter.ToldTheCountIff | backend/src/ad-engine/redis-velocity-counter.store.ts:20-49 | the caller is told the new count if and only if both commands were heard, or only an unneeded deadline was not |
| VelocityCounter.LifetimeOfACount | backend/src/ad-engine/redis-velocity-counter.store.ts:20-49 | a lifetime lasts from its first count for the time to live, however often it is counted, and for ever if the deadline was never set |
| VelocityCounter.RedisVelocityCounterStore.Increment | backend/src/ad-engine/redis-velocity-counter.store.ts:20-49 | INCR and the first count's EXPIRE, with each of the four ways a command or its reply can be lost |
| VelocityCounter.RedisVelocityCounterStore.GetMany | backend/src/ad-engine/redis-velocity-counter.store.ts:69-87 | the live counts in key order, all zero when the store cannot be read |
| CpmCounters.BatchesOfEveryHistory | backend/src/ad-engine/cpm-billing.service.ts:65-82 | for any history of counted, unheard and refused increments, batch n >= 1 falls due once if and only if its thousandth impression was counted and heard, and batch 0 once per failure |
| CpmCounters.HealthyCountIsExact | backend/src/ad-engine/redis-velocity-counter.store.ts:20-49 | there were no failures if and only if every increment was heard, and then every impression counts |
| Cpm.StepFits | backend/src/ad-engine/cpm-billing.service.ts:50-118 | every step of interleaved impressions keeps each due batch a row, in a task's hands or missed, and the unique count within the raw one |
| Cpm.EveryRunFits | backend/src/ad-engine/cpm-billing.service.ts:50-118 | the same for every run |
| CpmBatches.EveryBatchOncePerWallet | backend/src/ad-engine/ad-billing.service.ts:103-181 | in every run, outages included, no advertiser is charged and no publisher credited twice for one batch number, 0 included |
| CpmBatches.EveryBatchChargedOnce | backend/src/ad-engine/ad-billing.service.ts:103-124 | no batch number, 0 included, is charged twice |
| CpmBatches.BatchRowsOfEveryRun | backend/src/ad-engine/cpm-billing.service.ts:65-118 | for every batch number of every run, outages included: rows, tasks in flight and misses add up to exactly one if its thousandth impression was counted and heard, to none otherwise, and for batch 0 to the number of failures |
| CpmBatches.HealthyBatches | backend/src/ad-engine/cpm-billing.service.ts:65-118 | without outages the due batches are 1, 2, ... up to a thousandth of the count on both sides, and the publishers' are never ahead |
| CpmBatches.EveryHealthyBatchHasItsRow | backend/src/ad-engine/cpm-billing.service.ts:65-118 | with nothing missed or in flight each batch from 1 to a thousandth of a healthy count has exactly one row, and no other number has any |
| CpmBatches.PublisherBatchesWithin | backend/src/ad-engine/cpm-billing.service.ts:65-118 | the publishers' batches are ahead of the advertiser's by no more than their own failures and one for each thousand of raw failures begun |
| CpmBatches.HealthyCountsAreExact | backend/src/ad-engine/cpm-billing.service.ts:50-118 | without failures and crashes the raw count is the number of impressions and the unique count that of the unique ones, less those in flight |
| CpmBatches.HandledCounts | backend/src/ad-engine/cpm-billing.service.ts:50-118 | an impression with a price counts raw once and, if unique, once for the publishers, and money only moves at multiples of a thousand |
| CpmBatches.ThousandthIsCharged | backend/src/ad-engine/cpm-billing.service.ts:65-82 | the thousandth raw impression is to be charged at its own price |
| CpmBatches.ThousandthIsCredited | backend/src/ad-engine/cpm-billing.service.ts:88-118 | the thousandth unique impression is to be credited at its own price |
| HeldEarnings.BatchIsChargedIff | backend/src/ad-engine/ad-billing.service.ts:103-124 | a batch is charged if and only if the campaign is active, holds its price and has not paid it, and is missed otherwise |
| HeldEarnings.BatchIsCreditedIff | backend/src/ad-engine/ad-billing.service.ts:186-224 | a batch is held as pending if and only if the zone has a publisher without a credit for it and the share is not nothing, and is missed otherwise |
| HeldEarnings.BatchesMoveNoBalance | backend/src/ad-engine/ad-billing.service.ts:207-211 | no step of CPM billing changes a balance |
| CpmBatches.CreditedWithinCharged | backend/src/ad-engine/cpm-billing.service.ts:50-118 | at one price, in every run: credits are covered by charges, plus the batches uncollected or in flight, plus one batch for each unique failure and for each thousand of raw failures begun |
| CpmBatches.OutageCreditsMoreThanItCharges | backend/src/ad-engine/redis-velocity-counter.store.ts:43-48 | a concrete outage run: one charge of batch 0 and a credit of batch 0 for each of two publishers |
| ImpressionWorker.EveryRunFits | backend/src/ad-engine/clickhouse-ingestion-worker.service.ts:71-107 | in every run of the impression worker the counter is the sum over its messages of how often each was billed, and deleted messages were billed |
| ImpressionWorker.DrainedCountIsExactIffNoRecounts | backend/src/ad-engine/clickhouse-ingestion-worker.service.ts:71-107 | once the stream is drained no impression has been missed, and the count is exact if and only if no fault hit a batch of which an impression of the campaign had been billed |
| ImpressionWorker.FaultCountsTwice | backend/src/ad-engine/clickhouse-ingestion-worker.service.ts:94-107 | a fault between billing and deleting makes one impression count twice |
| CpmService.CpmBillingService.RecordAdvertiserBatch | backend/src/ad-engine/cpm-billing.service.ts:65-82 | counts and, at a multiple of a thousand, charges; a run of the step system |
| CpmService.CpmBillingService.RecordPublisherBatch | backend/src/ad-engine/cpm-billing.service.ts:88-118 | counts and, at a multiple of a thousand, credits the zone's publisher; a run of the step system |
| CpmService.CpmBillingService.RecordImpression | backend/src/ad-engine/cpm-billing.service.ts:50-60 | every impression counts raw, only a unique one counts for the publisher |
| Auction.PickAt | backend/src/ad-engine/ad-targeting.service.ts:235-249 | the cumulative walk returns the entry whose slice holds the target and never reaches the fall-through |
| Auction.DrawWeightedWinner | backend/src/ad-engine/ad-targeting.service.ts:226-249 | the roll picks by slices of the bid line, or evenly when all bids are zero |
| Auction.WinnerIsTheSlice | backend/src/ad-engine/ad-targeting.service.ts:226-249 | an entry wins a target if and only if the target lies in its slice |
| Auction.EveryTargetPicks | backend/src/ad-engine/ad-targeting.service.ts:238-248 | every target below the total lies in some slice |
| Auction.DrawIsProportional | backend/src/ad-engine/ad-targeting.service.ts:217-226 | of all whole-number targets exactly bid-many pick an entry, and a zero bid never wins |
| Auction.DrawnOnItsPart | backend/src/ad-engine/ad-targeting.service.ts:226-249 | an entry is drawn on a part of the unit interval as large as its part of all bids |
| Auction.DrawnEvenly | backend/src/ad-engine/ad-targeting.service.ts:226-233 | and on an equal part when all bids are zero |
| Auction.PriceOfOne | backend/src/ad-engine/ad-targeting.service.ts:203-209 | a price per click is a thousand times as much as the same price per thousand impressions |
| Auction.RunnerUpUnitBid | backend/src/ad-engine/ad-targeting.service.ts:145-147 | the highest unit bid of the other campaigns |
| Auction.SecondPriceIsUnique | backend/src/ad-engine/ad-targeting.service.ts:145-155 | there is only one second price |
| Auction.RunSecondPriceAuction | backend/src/ad-engine/ad-targeting.service.ts:132-158 | nobody wins an empty auction; otherwise the drawn campaign wins at the second price, across CPC and CPM units |
| Auction.ClearedPriceBound | backend/src/ad-engine/ad-targeting.service.ts:170-209 | the cleared price is at least a cent and the only thing that changes; it is within the campaign's own price if and only if that is not zero; it is exact for CPM, and for CPC within half a cent once the clearing price is half a cent or more |
| FrequencyCap.CapHolds | backend/src/ad-engine/visitor-frequency-cap.service.ts:41-102 | over any requests and waits the stored counter is the number of hits of the current lifetime, and no hit exceeds the limit it was shown under |
| FrequencyCap.RollingWindowBound | backend/src/ad-engine/visitor-frequency-cap.service.ts:20-24 | in any stretch of one window a visitor sees a campaign at most twice its limit less one time |
| FrequencyCap.RollingCapOfEveryRun | backend/src/ad-engine/visitor-frequency-cap.service.ts:20-24 | the same for every run; with limit 1 it is the rolling cap the comment promises |
| FrequencyCap.RollingBoundIsReached | backend/src/ad-engine/visitor-frequency-cap.service.ts:20-24 | for every limit and every window of at least two seconds some run reaches that bound |
| FrequencyCap.DefaultCapsForADay | backend/src/ad-engine/visitor-frequency-cap.service.ts:13-18 | without a limit and a window of its own a campaign is capped for exactly one day after one showing |
| FrequencyCap.OwnCapApplies | backend/src/ad-engine/visitor-frequency-cap.service.ts:92-102 | with its own it is not capped before, and after one showing for exactly its window if the limit is one |
| Targeting.Eligible | backend/src/ad-engine/ad-targeting.service.ts:59-66 | a campaign is kept if and only if it is in the cache and passes every targeting rule |
| Targeting.EligibleIffNothingExcludes | backend/src/ad-engine/ad-targeting.service.ts:251-317 | a campaign is eligible if and only if none of status, format, category, balance, country and device excludes it |
| Targeting.CaseFolding | backend/src/ad-engine/ad-targeting.service.ts:298-311 | the two foldings of letter case undo each other and change letters only |
| Targeting.DeviceCaseDoesNotMatter | backend/src/ad-engine/ad-targeting.service.ts:307-314 | the device is matched in any letter case |
| Targeting.EligibleKeepsOrder | backend/src/ad-engine/ad-targeting.service.ts:59-66 | eligible campaigns stay in cache order |
| Targeting.EligibleKeepsEach | backend/src/ad-engine/ad-targeting.service.ts:59-66 | an eligible campaign is kept as often as it is cached, any other never |
| Targeting.UnflaggedIsUnderCap | backend/src/ad-engine/ad-targeting.service.ts:96-114 | filtering by the batched flags is filtering by the cap of each campaign |
| Targeting.UnflaggedIsUncapped | backend/src/ad-engine/ad-targeting.service.ts:96-114 | and leaves exactly the campaigns under their cap, in order |
| Targeting.ClickPriceIsAffordable | backend/src/ad-engine/ad-targeting.service.ts:293-295 | an eligible campaign's cleared click price is within the advertiser's balance |
| Targeting.SelectionIsServe | backend/src/ad-engine/ad-targeting.service.ts:67-85 | serving a request is one step of the frequency-cap system |
| Targeting.VisitorFrequencyCapService.IsCapped | backend/src/ad-engine/visitor-frequency-cap.service.ts:41-53 | capped if and only if the live count has reached the limit; never without a visitor or when the store cannot be read |
| Targeting.VisitorFrequencyCapService.FilterCapped | backend/src/ad-engine/visitor-frequency-cap.service.ts:59-75 | flag for flag what IsCapped answers |
| Targeting.VisitorFrequencyCapService.RecordImpression | backend/src/ad-engine/visitor-frequency-cap.service.ts:77-90 | one increment of the visitor's counter for the campaign |
| Targeting.AdTargetingService.FilterUnderFrequencyCap | backend/src/ad-engine/ad-targeting.service.ts:96-114 | keeps exactly the campaigns under their cap, or all when the caps cannot be read |
| Targeting.AdTargetingService.SelectCampaign | backend/src/ad-engine/ad-targeting.service.ts:33-88 | serves an eligible campaign under its cap, drawn by bid, at the second price, and counts one impression; otherwise nothing changes |
| CacheSync.WholeOldOrWholeNew | backend/src/ad-engine/redis-blacklist-cache.store.ts:23-41 | after every prefix of the replacement's commands lookups see the whole old set or, after the last, the whole new set |
| CacheSync.EveryRunAgrees | backend/src/ad-engine/blacklist-cache-sync.service.ts:69-85 | after every run of a service, whatever the store held when it started, lookups answer by the rows of the latest write that took effect unheard since the snapshot, or else by the snapshot |
| CacheSync.SuccessfulTickIsRightIff | backend/src/ad-engine/blacklist-cache-sync.service.ts:69-85 | in every such run a successful tick leaves lookups answering by the rows it read if and only if it wrote, or nothing took effect unheard since the snapshot, or the latest write that did had the same entries |
| CacheSync.FailedTickIsOldOrNew | backend/src/ad-engine/blacklist-cache-sync.service.ts:69-85 | a failed tick leaves lookups as they were, or, if its write took effect, answering by its rows |
| CacheSync.LostReplyThenRevertIsWrong | backend/src/ad-engine/blacklist-cache-sync.service.ts:76-79 | for any two different lists: after a write of the second whose last reply is lost, going back to the first is skipped and lookups answer wrongly although the tick succeeds |
| CacheSync.EveryListRunAgrees | backend/src/ad-engine/campaign-cache-sync.service.ts:69-83 | the same for the campaign list: it is that of the latest unheard write, or else a permutation of the snapshot |
| CacheSync.CachedListIsAPermutationIff | backend/src/ad-engine/campaign-cache-sync.service.ts:69-83 | in every such run a successful tick leaves a permutation of the rows just read if and only if it wrote, or nothing took effect unheard since the snapshot, or the rows of the latest write that did are a permutation of them |
| CacheSync.LostListReplyThenRevertIsWrong | backend/src/ad-engine/campaign-cache-sync.service.ts:75-78 | the same failing input for the campaign list |
| CacheSync.RedisBlacklistCacheStore.ReplaceBlacklistedIps | backend/src/ad-engine/redis-blacklist-cache.store.ts:23-41 | the keys after the replacement, wherever it stops |
| CacheSync.BlacklistCacheSyncService.SyncBlacklistedIps | backend/src/ad-engine/blacklist-cache-sync.service.ts:69-85 | writes only when the rows differ from the last snapshot written |
| CacheSync.CampaignCacheSyncService.SyncActiveCampaigns | backend/src/ad-engine/campaign-cache-sync.service.ts:69-83 | the same for the campaign list, which one command writes |
| Cluster.OneSingleton | backend/src/common/cluster-worker.ts:28-33 | when each index has one live owner exactly one live worker runs the singleton jobs |
| Cluster.ReplacedKeepsOneEach | backend/src/main.ts:73-93 | replacing an exited worker by one with its index keeps every index at one owner |
| Cluster.OneEachAfterEveryExit | backend/src/main.ts:56-93 | over any sequence of exits with distinct live pids each index 0 to n - 1 keeps exactly one live owner |
| Cluster.OneEachIffKnownAndReplaced | backend/src/main.ts:73-93 | after an exit every index has one owner if and only if the worker was known and is replaced, or neither |
| Cluster.UnknownExitDuplicatesTheSingleton | backend/src/main.ts:74-77 | the replacement of an unknown worker, or of one without a pid, runs the singleton jobs beside their owner |
| Cluster.FailedForkIsMendedIffSingleton | backend/src/main.ts:66-92 | when a replacement could not be started and its exit is reported, its own replacement restores one owner for each index if and only if the lost index was 0 |
| Cluster.ClusterPrimary.RunPrimary | backend/src/main.ts:52-70 | after the first forks each index has one live owner |
| Cluster.ClusterPrimary.OnExit | backend/src/main.ts:73-93 | the replacement gets the exited worker's index, 0 if unknown, nothing is forked while shutting down, and one owner for each index remains exactly when the worker was known and is replaced, or neither |

## Left out

- ClickPass.EqualsPassIffNoneOvertaken: the zones, the fee, and the status and reserve of the stream's own campaigns change only by the stream's charges while it is drained; any other transaction runs beside it. A campaign paused in between changes which clicks can be charged, by design.
- CpmBatches.CreditedWithinCharged: one price per campaign, because a batch is billed at the price of the impression that completes it.
- FrequencyCap.CapHolds: requests of one visitor are served one at a time on a store without outages; the code lets both over-serve on purpose.
- RespConnection.ChunksDoNotMatter: the last event is a chunk, because sending a command does not drain the buffer.
- RespConnection.RedisRespClient.ParseBulkStringAt: a bulk length that is no number or below -1 is reported as malformed and waits like an incomplete reply; the code computes with NaN there.
- RespConnection.RedisRespClient.ParseAt: numbers are an optional sign and digits; other spellings that JavaScript's Number accepts, numbers above 2^53, and UTF-8 decoding of text are not modelled, bytes stay bytes.
- CpmCounters.BatchesOfEveryHistory: the ten-year expiry of the CPM counters.
- ImpressionWorker.DrainedCountIsExactIffNoRecounts: counts the raw impressions of one campaign while the store answers; lost increments are in CpmCounters.
- Locks.DeadlockFreeIffSafeMix: row locks taken by foreign keys and unique indexes, and the status writes outside the wallet transactions.
- CacheSync.SuccessfulTickIsRightIff: eviction of a key by the store, and other writers beside the ticks of one service, one after another.
- Cluster.OneEachAfterEveryExit: every worker that exits is known, and every replacement starts and gets a pid that no live worker has.
- Targeting.Eligible: letter case is folded for a to z only.
- Amounts finer than a thousandth of a cent, and JavaScript floating point: prices, shares and bids are exact.
- `WalletManager.deduct` and `credit`, which bypass the ledger and have no caller; summaries, listings and the revenue report.
- An administrator's deposit whose idempotency key equals a payment id: it would make the payment's deposit a duplicate. Keys chosen by clients and payment ids are kept apart here.
- Deleting users and campaigns: only DRAFT campaigns can be deleted and nothing creates one.
- MIN_PAYOUT_USD, the cap defaults and the other environment settings are constants at their defaults.
- GST and currency conversion of a payment order: they change what the provider charges, never what is credited.
- Signatures, HTTP calls to payment providers, notifications: their outcomes are parameters of the steps.
- Timeouts and reconnects of the Redis client: one connection, from connect to close.
- Stream entries without a payload or with invalid JSON, ClickHouse rows, and the traffic stream's worker, which bills nothing.
- The half-minute caches of fee and settings in PlatformSettingsService: the fee is a parameter wherever it is read.
- The publisher-side deduplication of impressions: whether an impression is unique is an input of CPM billing.
- Campaign edits other than the total budget, creatives, zones, and everything under `web/`.
