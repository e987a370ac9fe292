# Fanfolio: a verified model of its accounts and protocols

Fanfolio is a fan platform: fans collect digital cards, earn experience and points, complete missions and
achievements, buy season passes and redeem codes. This project models the parts of it that keep accounts or
follow a protocol, and proves what they promise.

| files | part of the system |
|---|---|
| `PointTables`, `PointLedger`, `PointService` | the point ledger, its cached balances, charges, refunds and adjustments |
| `PointInvariant`, `PointReplay`, `PointBooks` | what every run of point commands keeps, what a replay does, where balances come from |
| `PointInterleaving` | grants and spends run concurrently, statement by statement, under unique keys and row locks |
| `GrowthTables`, `GrowthService`, `GrowthInvariant`, `GrowthRuns` | growth events: what one attempt keeps, and failed attempts in turn |
| `GrowthOutcomes` | what one committed attempt does, told by its event: base experience, missions, periods, achievements, levels, rewards |
| `GrowthWorkers` | growth events under many workers: at-least-once attempts, effects exactly once |
| `OwnershipChain` | the hash-chained ownership ledger and its verifier |
| `RefreshTokens` | refresh-token families with replay detection (section 10.4 of RFC 6749, section 4.14.2 of RFC 9700) |
| `Redemption` | codes, cards and serial numbers |
| `PassTables`, `PassService`, `PassRuns` | season-pass purchases and tier claims |
| `PassAccess` | whose experience, whose purchase and which time open a pass |
| `SlidingWindow`, `FixedWindow` | the in-memory and the Redis rate limiter |
| `Retry`, `NotificationOutbox` | capped exponential backoff, and the delivery outbox |
| `EffectPreparation` | the builder's single-flight effect preparation |
| `Base64Url`, `SignedToken` | unpadded base64url (section 5 of RFC 4648) and the signed tokens made of it |
| `ClamStream` | the length-prefixed stream sent to the virus scanner |
| `Tables`, `LedgerRows`, `Times`, `Wrappers` | tables with a unique key, sums over their rows, request times, optional values and outcomes |

Where the program updates rows in place, a class holds the tables as fields and its methods are proved equal to
functions from tables to tables; the properties are then proved about those functions over whole runs. A service
call is one transaction: an error leaves every table as it was. The exceptions are modelled as they are: a failed attempt at
a growth event rolls back in one transaction and records the failure in another, with other workers in between
(`GrowthWorkers`); a delivery commits its attempt before it calls the provider; a replayed refresh token revokes its family
and is refused. A row's primary key is its position in its table, so a fresh id is one that no earlier row has.

## What the code does not do

Ten expectations are false of the code. Each is recorded with a run that fails it and the exact condition under which
it holds.

- *Replaying a command returns its first result.* Not always for refunds: refunding an already refunded charge under a
  new key records nothing, so another charge's refund may take that key, and the first request then fails
  (`PointBooks.RefundReplayCanFail`; a reachable case in `PointBooks.RefundReplayFailsSomewhere`).
  `PointReplay.Replay` gives the condition for every command: a charge needs its package on sale, a refund needs its
  key untaken. A replayed adjustment returns the same ledger row, flagged as replayed.
- *A processed event is done.* The failure of an attempt is recorded after its rollback has freed the event's row,
  without another look at the event's status. If another worker has processed the event meanwhile, the record makes it
  failed again, and the next retry counts it twice (`GrowthWorkers.LateRecordCountsTwice`).
  `GrowthWorkers.RunKeepsIff` shows that this is the only way to spoil the accounts: they stay right all along exactly
  when no failure is recorded for a processed event. A late record also revives a dead event and lowers its count, so
  that it is attempted more often than allowed (`GrowthWorkers.LateRecordRevives`).
- *A duplicate spend replays the first.* Not if it looked for its key before the first one committed: it is then
  refused (`PointInterleaving.DuplicateSpendRefused`), because spending, unlike granting, does not look again when its
  insert fails. `PointInterleaving.AnswersLikeCommandIff` is exact.
- *Presenting a used refresh token ends its family.* Only while that token has not expired, and only for its own
  client (`RefreshTokens.ReusedIff`): the token is decoded before its row is read, so any other reuse is refused and
  changes nothing (`RefreshTokens.OtherReuseIgnored`). In `RefreshTokens.LateReplayUnnoticed` a token used at 90 comes
  back after its expiry at 100, and its successor is accepted still.
- *Every append keeps the ownership chain valid.* Only if it comes last by creation time and id, or stands among
  legacy rows (`OwnershipChain.AppendAcceptedIff`). Ids are random, so two events of one user in the same instant can
  break the chain (`OwnershipChain.TieBreaksChain`).
- *Waiting as long as announced suffices.* The in-memory limiter truncates the wait to whole seconds; it suffices
  exactly when at most one second or a whole number of seconds remained (`SlidingWindow.AnnouncedWaitSuffices`; a case
  in `SlidingWindow.AnnouncedWaitTooShort`). Redis rounds to the nearest second, and the condition changes with it
  (`FixedWindow.AnnouncedWaitSuffices`, a case in `FixedWindow.AnnouncedWaitTooShort`). With a limit below one the
  in-memory limiter indexes an empty list (`SlidingWindow.CrashesIff`).
- *One flight per photo.* A call of prepare starts a second flight exactly when the first is still under way but no
  longer registered (`EffectPreparation.SingleFlightIff`). Swapping a photo away and back brings that about at the
  next call, unless the first flight ends before it (`EffectPreparation.SwapBackMakesTwins`; a run in
  `EffectPreparation.SwapBackAnalysesTwice`). Without such swaps it never happens
  (`EffectPreparation.RunKeepsSingleFlight`).
- *A failed delivery is retried.* One whose worker died midway stays in `sending`, where no sweep looks again
  (`NotificationOutbox.StuckIff`, a run in `NotificationOutbox.StuckSomewhere`).
- *A lapsed pass can be bought again.* It cannot: the first order's unique key stands in the way; nothing is charged
  (`PassRuns.RepurchaseRefused`, a run in `PassRuns.RepurchaseRefusedSomewhere`). The case is latent: the table admits
  entitlements that are not active, but nothing in the repository makes one so.
- *A charge or a purchase pays its price, and a counted redemption gives a card.* Only while no other service has
  posted under the same rule key or source (`PointBooks.ChargePaysIff`, `PassRuns.PurchasePaysIff`,
  `Redemption.CountedIffUnclaimed`; runs in `PointBooks.ChargeUnpaidSomewhere`, `PassRuns.PurchaseUnpaidSomewhere`,
  `Redemption.UncountedSomewhere`). No caller does this today.

Also: a grant and a spend under one key can deadlock (`PointInterleaving.GrantAndSpendCanDeadlock`), cutting off a
chain's newest events goes unnoticed (`OwnershipChain.TruncationAccepted`), and the bound of twice the limit on Redis
windows is attained (`FixedWindow.BoundIsTight`). Check-in passes and download tokens are signed with one key and
carry no kind; a pass verifies as a download token, though no download token verifies as a pass
(`SignedToken.CheckInRoundTrip`, `SignedToken.DownloadRoundTrip`).

## Model

| member | source | states |
|---|---|---|
| PointService.PointStore.RecordEngagementEvent | backend/app/services.py:418-462 | the same key always yields the same event; only a new key adds a row |
| PointService.PointStore.GrantPoints | backend/app/services.py:617-670 | insert, then balance update, realise the abstract grant; a refusal leaves every table as it was |
| PointService.PointStore.SpendPoints | backend/app/services.py:854-895 | balance check, insert and update realise the abstract spend; a refusal leaves every table as it was |
| PointService.PointStore.ReversePoints | backend/app/services.py:1005-1044 | realises the abstract reversal; a refusal leaves every table as it was |
| PointService.PointStore.CreatePointCharge | backend/app/services.py:698-770 | charge, event, ledger row, balance and idempotency record change together or not at all |
| PointService.PointStore.RefundPointCharge | backend/app/services.py:773-851 | refund, ledger row, balance and idempotency record change together or not at all, by every branch of the program |
| PointService.PointStore.AdjustPoints | backend/app/services.py:926-1002 | realises the abstract adjustment with its replay and key-reuse branches |
| PointService.PointStore.ReconcilePointBalances | backend/app/services.py:898-923 | reports exactly the users whose cached balance differs from the sum of their ledger rows, each once; empty exactly when there is none |
| PointInvariant.PostingAcceptedIff | backend/app/services.py:617-670 | exactly when a grant, spend or reversal goes through, and that the first one under its key moves one balance by the signed amount and leaves one row that says so |
| PointInvariant.PostingRefusal | backend/app/services.py:617-670 | why a grant, spend or reversal is refused |
| PointInvariant.StepKeeps | backend/app/services.py:617-1044 | every command keeps balances non-negative and equal to the ledger sum, balance_after a running total, kinds and signs in agreement, keys unique, references resolved |
| PointInvariant.RunKeeps | backend/app/services.py:593-1044 | the same over any sequence of commands by any users, so the reconciler never finds a drift |
| PointReplay.StepExtends | backend/app/services.py:617-1044 | the ledger and the transactions are append-only; a charge only ever changes to refunded |
| PointReplay.Replay | backend/app/services.py:698-1002 | after any other commands, a repeated request changes nothing and returns the first result exactly when its guards let it through |
| PointReplay.RefusedChangesNothing | backend/app/services.py:617-1044 | a refused command leaves every table as it was |
| PointReplay.ReplayedFlagIff | backend/app/services.py:941-965 | an adjustment says that it is a replay exactly if its key was used before |
| PointReplay.FirstRecordStands | backend/app/services.py:418-462 | an event keeps the payload of its first recording through any other commands and later recordings |
| PointBooks.Conservation | backend/app/services.py:593-1044 | after any run a balance is unrefunded charges plus adjustments plus what other services posted under their own keys |
| PointBooks.RefundAccepted | backend/app/services.py:773-851 | a first refund goes through exactly when the points are still there, takes them back in one row that reverses the charge's own row, marks the charge and records its key |
| PointBooks.RefundReversesItsCharge | backend/app/services.py:773-851 | the row a refund reverses is the earning of the same user, package and points |
| PointBooks.RefundAnswer | backend/app/services.py:773-851 | what a refund answers in every case; no other error ever comes |
| PointBooks.ChargeAnswer | backend/app/services.py:680-770 | what a charge answers in every case |
| PointBooks.AdjustmentAccepted | backend/app/services.py:926-1002 | a first adjustment goes through exactly when it is not zero and does not overdraw, and moves one balance by it |
| PointBooks.AdjustmentAnswer | backend/app/services.py:926-1002 | what an adjustment answers in every case |
| PointBooks.RefundUndoesCharge | backend/app/services.py:698-851 | a refund right after its charge restores every balance |
| PointBooks.RefundReplayCanFail | backend/app/services.py:773-800 | from any such state, the successful refund of an already refunded charge fails when repeated after its key was taken |
| PointBooks.RefundReplayFailsSomewhere | backend/app/services.py:773-800 | such a state is reached by two charges and two refunds |
| PointBooks.ChargePaysIff | backend/app/services.py:698-770 | a first charge raises its user's balance by its points exactly when no ledger row stood under its event and rule before |
| PointBooks.ChargeUnpaidSomewhere | backend/app/services.py:698-770 | a run in which a charge pays nothing, its event and rule having been used by a grant |
| PointInterleaving.StartIsSafe | backend/app/services.py:617-670 | any set of transactions that have not begun is safe over valid tables, so what safe systems keep holds of all schedules |
| PointInterleaving.CommitIsAtomic | backend/app/services.py:617-670 | a commit has the effect and the result of the whole command run alone at that moment |
| PointInterleaving.Serializable | backend/app/services.py:593-670 | under any schedule of statements and aborts, the tables are those of the committed commands run one after another |
| PointInterleaving.OneRowPerKey | backend/app/services.py:635-665 | concurrent requests under one key that succeed share one ledger row |
| PointInterleaving.AnswersLikeCommandIff | backend/app/services.py:854-895 | exactly when a transaction that ends without a commit answers like the whole command at that moment |
| PointInterleaving.DuplicateSpendRefused | backend/app/services.py:876-895 | a schedule in which the second of two equal spends is refused though the first went through |
| PointInterleaving.GrantsProgress | backend/app/services.py:617-670 | concurrent grants never deadlock: while one is unfinished, one can move |
| PointInterleaving.GrantAndSpendCanDeadlock | backend/app/services.py:854-895 | a schedule after which a grant and a spend of one key wait for each other; aborting either frees the other |
| GrowthTables.HighestLevel | backend/app/services.py:565-590 | the level is the greatest among the thresholds reached |
| GrowthTables.LevelNeverFalls | backend/app/services.py:565-590 | more experience never lowers the level |
| GrowthService.GrowthStore.GrantXp | backend/app/services.py:512-562 | ledger row, cached total and level change together, once per key |
| GrowthService.GrowthStore.GrantReward | backend/app/services.py:1578-1620 | one grant row per key; only published rewards are granted anew |
| GrowthService.GrowthStore.DeliverMissionReward | backend/app/services.py:1337-1380 | experience, points and reward of a completed mission, as far as none is refused |
| GrowthService.GrowthStore.UpdateMissionProgress | backend/app/services.py:1383-1414 | one more hit, delivery on the completing one, nothing once completed |
| GrowthService.GrowthStore.UpdateAchievementProgress | backend/app/services.py:1977-2014 | the value is replaced, the completion sticks, the bonus is paid when completing |
| GrowthService.GrowthStore.TransactEvent | backend/app/services.py:2564-2602 | effects and status are committed together, or both are rolled back, wherever the attempt crashes |
| GrowthService.GrowthStore.RecordFailedAttempt | backend/app/services.py:2603-2625 | the failure overwrites status, count and next attempt, whatever became of the event |
| GrowthService.GrowthStore.ProcessEngagementEvent | backend/app/services.py:2562-2626 | an attempt by an uninterrupted worker: both transactions in turn, wherever it crashes |
| GrowthService.GrowthStore.RetryFailedEngagementEvents | backend/app/services.py:2629-2653 | a sweep picks the due failed events, longest waiting first, up to the limit, attempts each once, past failures, and counts those that went through |
| GrowthService.DueEvents | backend/app/services.py:2633-2644 | the picked events are failed and due, ordered by the time of their next attempt, and none left out was due earlier |
| GrowthService.SweepAttemptsEach | backend/app/services.py:2629-2653 | a sweep adds one attempt to each picked event and none to any other, and returns how many of them are processed |
| GrowthInvariant.MissionHit | backend/app/services.py:1337-1414 | a mission that stood at min(target, hits) with its deliveries made once if complete, stands so after one more hit |
| GrowthInvariant.AchievementUpdate | backend/app/services.py:1977-2014 | an achievement's bonus and reward are in the ledgers once exactly when it was completed, whatever its new value |
| GrowthInvariant.EffectsOk | backend/app/services.py:2579-2597 | a successful attempt moves each ledger, counter and completion by this one event |
| GrowthRuns.TransactKeeps | backend/app/services.py:2564-2602 | the transaction of an attempt keeps totals, counters and deliveries in step with the processed events, wherever it crashes |
| GrowthRuns.RecordFailureKeepsIff | backend/app/services.py:2603-2625 | recording a failure keeps them in step exactly if the event is not processed |
| GrowthOutcomes.CommittedBase | backend/app/services.py:2581-2593 | a committed attempt earns 30 for a collect from an eligible source and nothing from another, costs 30 for a revocation, and moves no other base experience; an ineligible collect moves no mission |
| GrowthOutcomes.CommittedMission | backend/app/services.py:1233-1262 | a committed attempt moves exactly the missions whose kind, dates, organisation, artist and conditions it meets, by one, until complete |
| GrowthOutcomes.PeriodsChange | backend/app/services.py:1208-1224 | daily periods change at midnight UTC, weekly ones on Mondays at midnight UTC, others never |
| GrowthOutcomes.CommittedAchievement | backend/app/services.py:1977-2014 | after a processed collect an achievement shows the value measured, up to its target; other events show nothing new |
| GrowthOutcomes.CommittedGrew | backend/app/services.py:1578-1620 | an attempt grants only published rewards and keeps levels due to their totals |
| GrowthOutcomes.HundredPointsEach | backend/app/services.py:565-590 | without a table each level takes 100 points more |
| GrowthOutcomes.HighestReached | backend/app/services.py:565-590 | with a table the level is the highest one reached, 1 before any is |
| GrowthWorkers.RunKeepsIff | backend/app/services.py:2562-2626 | over a run of many workers the accounts stay right all along exactly when no failure is recorded for a processed event |
| GrowthWorkers.ExactlyOnce | backend/app/services.py:2562-2626 | with any workers, crashes, refusals, and delayed or lost failure records, none of them for a processed event: base experience is 30 per processed collect from an eligible source less 30 per processed revocation, no event is processed twice, cached totals and balances are ledger sums, counters are min(target, matching processed events), an achievement is completed exactly when a processed collect measured its target, completions delivered once |
| GrowthWorkers.LevelsStayDue | backend/app/services.py:512-590 | over any run under one level policy every stored level is the one due to the stored total |
| GrowthWorkers.LateRecordCountsTwice | backend/app/services.py:2600-2626 | a run in which a late failure record makes one event complete a mission of two |
| GrowthWorkers.LateRecordRevives | backend/app/services.py:2600-2626 | a run in which a late failure record revives a dead event, attempted three times where two are allowed |
| GrowthRuns.BaseIsThirtyEach | backend/app/services.py:1063-1071 | the base experience owed by a log of processed events is 30 times eligible collects minus revocations |
| GrowthWorkers.CompletionLasts | backend/app/services.py:1383-1414 | no completion is cleared and no completed counter moves, whatever the workers do |
| GrowthWorkers.FinishedLasts | backend/app/services.py:2573-2574 | a processed or dead event keeps its status while no failure is recorded for a finished event |
| GrowthWorkers.StepKeepsFinishedIff | backend/app/services.py:2603-2625 | what a late failure record makes of a finished event: never processed, and unfinished exactly if its count is below the limit |
| GrowthRuns.AlwaysFailing | backend/app/services.py:2598-2626 | an event whose attempts always crash or are refused is attempted exactly max(1, max_attempts) times, is dead then, and leaves no other trace |
| GrowthWorkers.AttemptsBounded | backend/app/services.py:2574-2626 | an event attempted by one worker at a time, each failure recorded before the next attempt, is attempted at most max(1, max_attempts) times |
| GrowthWorkers.StoredCountBounded | backend/app/services.py:2575-2625 | the stored attempt counts stay within that bound in any case |
| GrowthRuns.RetryEqualsFirstTry | backend/app/services.py:2562-2626 | crashed or refused attempts before a successful one leave every table as if it had succeeded at once; only the attempt count tells |
| OwnershipChain.OwnershipLedger.AppendOwnershipLedger | backend/app/services.py:207-264 | one row more, linked to the latest row of its user |
| OwnershipChain.VerifyOwnershipChain | backend/app/services.py:267-305 | valid exactly when every hashed row of the sorted list links to the row before it and carries its own hash; counts complete; an error exactly when zoned and unzoned times meet |
| OwnershipChain.SortedInOrder | backend/app/services.py:273-273 | the verifier's order is by creation time and id |
| OwnershipChain.SortedSameEvents | backend/app/services.py:273-273 | sorting neither loses nor invents events |
| OwnershipChain.ViolationsSound | backend/app/services.py:273-299 | no violation is reported exactly when all links hold |
| OwnershipChain.ReportedIffBroken | backend/app/services.py:273-299 | every broken link and every wrong hash is reported under its event's id and its kind, and nothing else is |
| OwnershipChain.LatestIsLastSorted | backend/app/services.py:223-228 | the row the appender links to is the last in the verifier's order |
| OwnershipChain.LatestIsNewest | backend/app/services.py:223-228 | no row of the user comes after it by creation time and id |
| OwnershipChain.OfIsTheUsers | backend/app/services.py:223-228 | only the user's own rows are looked at |
| OwnershipChain.AppendsRecord | backend/app/services.py:229-264 | appends keep every row and add one per entry, with its id, facts, time and metadata |
| OwnershipChain.AppendsVerify | backend/app/services.py:207-305 | appends later than everything before them, after any legacy prefix and between other users' appends, give a list the verifier reports valid with every append counted, unless mixed time zones make it raise |
| OwnershipChain.AppendAcceptedIff | backend/app/services.py:207-264 | exactly which appends keep an accepted table accepted, in order or not, however its rows are stored |
| OwnershipChain.TieBreaksChain | backend/app/services.py:207-264 | two appends in the same instant, the second with the smaller id, leave a chain the verifier rejects |
| OwnershipChain.SameHeadSameHistory | backend/app/services.py:170-305 | two fully hashed accepted histories that end in the same hash have the same events, up to time zone and empty metadata |
| OwnershipChain.TamperingDetected | backend/app/services.py:267-305 | whatever else is done to an accepted list, losing a hashed event while keeping the hashed one behind it is a violation |
| OwnershipChain.EditDetected | backend/app/services.py:273-299 | changing any event but the last is a violation, even if its hash is dropped or its time or id moves it elsewhere in the verifier's order |
| OwnershipChain.RemovalDetected | backend/app/services.py:273-299 | removing any event but the last is a violation |
| OwnershipChain.TruncationAccepted | backend/app/services.py:267-305 | every prefix of an accepted chain is accepted |
| RefreshTokens.TokenStore.IssueRefreshToken | backend/app/auth_tokens.py:115-152 | one row more, in the given family or its own; unsupported clients add none |
| RefreshTokens.TokenStore.RevokeRefreshFamily | backend/app/auth_tokens.py:165-170 | exactly the unrevoked rows of the family become revoked |
| RefreshTokens.TokenStore.RotateRefreshToken | backend/app/auth_tokens.py:173-213 | by every branch of the program: consumed and replaced together, or the family revoked, or nothing |
| RefreshTokens.RunKeeps | backend/app/auth_tokens.py:115-213 | in every reachable state a token is used exactly when it has a successor, and that is the next row of its family with the same user and client |
| RefreshTokens.FamilyIsOneChain | backend/app/auth_tokens.py:197-213 | following replaced_by from a family's first token reaches every token of the family |
| RefreshTokens.OneLivePerFamily | backend/app/auth_tokens.py:187-213 | at most one token of a family is unused and unrevoked |
| RefreshTokens.AcceptedIff | backend/app/auth_tokens.py:173-213 | exactly which presented tokens a rotation accepts |
| RefreshTokens.RevokedIff | backend/app/auth_tokens.py:187-197 | exactly which presented tokens are refused as revoked |
| RefreshTokens.OtherFamiliesUntouched | backend/app/auth_tokens.py:165-213 | logins, rotations, replays and revocations elsewhere leave a family's rows exactly as they are |
| RefreshTokens.OthersStaySignedIn | backend/app/auth_tokens.py:165-213 | so a token that would have been accepted before such a run is accepted after it |
| RefreshTokens.RotationHandsOver | backend/app/auth_tokens.py:187-213 | after a rotation the new token is accepted exactly until it expires, and the old one counts as a replay until it does |
| RefreshTokens.DeadFamilyStays | backend/app/auth_tokens.py:165-170 | a fully revoked family stays revoked and never gains a token |
| RefreshTokens.ReusedIff | backend/app/auth_tokens.py:180-195 | exactly which presented tokens count as replays, and that these revoke their family |
| RefreshTokens.OtherReuseIgnored | backend/app/auth_tokens.py:51-72 | a used token that is expired or another client's is refused and revokes nothing |
| RefreshTokens.LateReplayUnnoticed | backend/app/auth_tokens.py:173-213 | a run in which a used token comes back after its expiry and its successor is accepted afterwards |
| RefreshTokens.ReplayEndsFamily | backend/app/auth_tokens.py:180-195 | once a used token is presented by its client before it expires, no token of its family is accepted in any later step |
| Redemption.CardShop.GrantUserCard | backend/app/services.py:308-371 | one card per source, with the next serial of its card, under both unique keys |
| Redemption.CardShop.RedeemCode | backend/app/services.py:4284-4386 | the code's use and the card are booked together, or nothing changes |
| Redemption.RedeemAccepted | backend/app/services.py:4284-4386 | past its checks a redemption always goes through: one use more, one card with the next serial |
| Redemption.RedeemAcceptedIff | backend/app/services.py:4284-4386 | exactly which redemptions go through |
| Redemption.RedeemAnswer | backend/app/services.py:4284-4386 | what a redemption answers in every case |
| Redemption.GrantAcceptedIff | backend/app/services.py:308-371 | a first grant gives its user the next serial of a published card, a repeated one gives nothing |
| Redemption.GrantReplays | backend/app/services.py:321-332 | a repeated grant returns the same user's same card after any other moves |
| Redemption.PreviewAgrees | backend/app/services.py:4249-4281 | a preview succeeds exactly when redeeming would, on the same card and with the same refusal, but for one code when max_uses is 0 |
| Redemption.RunKeeps | backend/app/services.py:308-371 | over any run each code's used_count is the number of cards carrying it and within max_uses |
| Redemption.SerialHeldOnce | backend/app/services.py:337-354 | the serials of a card's copies are exactly 1 to n, each held once |
| Redemption.OneCardPerCode | backend/app/services.py:4307-4314 | no user holds two cards from one code |
| Redemption.CountedIffUnclaimed | backend/app/services.py:321-332 | a redemption keeps count and cards in step exactly when no other grant used its source before |
| Redemption.UncountedSomewhere | backend/app/services.py:321-332 | a run in which a redemption is counted without a card |
| PassService.PassStore.PurchasePassSeason | backend/app/services.py:2256-2367 | spend, order and entitlement are made together, or nothing changes |
| PassService.PassStore.ClaimPassTier | backend/app/services.py:2370-2506 | claim list, reward grant and pack entitlement are made together, or nothing changes |
| PassService.PassStore.GrantClaimedReward | backend/app/services.py:2426-2482 | a claimed tier's reward is granted, marked and its pack made available, each once |
| PassRuns.FirstPurchase | backend/app/services.py:2256-2367 | a purchase under an order key that is free goes through exactly when the balance covers the price, and then charges exactly the price |
| PassRuns.PurchasePaysIff | backend/app/services.py:2314-2349 | a purchase lowers the balance by its price exactly when no ledger row stood under its event and rule before |
| PassRuns.PurchaseUnpaidSomewhere | backend/app/services.py:2314-2349 | a run in which a pass is had for nothing, its event and rule having been used by a grant |
| PassRuns.RepurchaseRefused | backend/app/services.py:2256-2338 | a user with an order but no active pass is refused and not charged |
| PassRuns.RepurchaseRefusedSomewhere | backend/app/services.py:2256-2338 | a run in which a lapsed pass is refused to a user who could pay for it |
| PassAccess.PurchaseAnswer | backend/app/services.py:2256-2367 | what a purchase answers in every case, and the price its entitlement keeps |
| PassAccess.SaleClosedIff | backend/app/services.py:2113-2118 | a purchase is refused for its time exactly outside the season |
| PassAccess.ClaimClosedIff | backend/app/services.py:2121-2128 | a claim is refused for its time exactly before the season and from fourteen days after it |
| PassRuns.ClaimAcceptedIff | backend/app/services.py:2370-2482 | exactly when a tier can be claimed, told by the claims made so far |
| PassAccess.ClaimAnswer | backend/app/services.py:2370-2482 | what a claim answers in every case, up to the delivery of its reward |
| PassAccess.ForeignXpIgnored | backend/app/services.py:2044-2065 | experience of others, for other artists or outside the season changes nothing about a claim |
| PassAccess.OwnXpCounts | backend/app/services.py:2044-2065 | a user's own experience lowers the bar and raises the recorded total by exactly its amount |
| PassAccess.NothingEarnedNothingClaimed | backend/app/services.py:2044-2065 | without experience of one's own no tier that asks for any opens |
| PassAccess.RunKeepsPaid | backend/app/services.py:2388-2406 | over any run every premium claim was made by a user who had bought that season's pass |
| PassRuns.ClaimShape | backend/app/services.py:2370-2506 | a claim extends one list by one tier and adds at most one grant, of the track's own reward, under its own key, with its pack if it has one |
| PassRuns.StepKeeps | backend/app/services.py:2256-2506 | purchases, claims, point commands and lapses keep claims justified and distinct, grants single, orders paid |
| PassRuns.RunKeeps | backend/app/services.py:2256-2506 | the same over any run |
| PassRuns.ListDistinct | backend/app/services.py:2386-2410 | a claimed list has no duplicates |
| PassRuns.OnePaymentPerOrder | backend/app/services.py:2314-2349 | each order is paid by exactly one ledger row, of its price, and no pass payment lacks its order |
| SlidingWindow.MemoryLimiter.EnforceMemoryLimit | backend/app/rate_limit.py:46-60 | the key's list is pruned and, on acceptance, extended; other keys are untouched |
| SlidingWindow.After | backend/app/rate_limit.py:49-51 | pruning keeps the later times, in order |
| SlidingWindow.PrunedIsFullHistory | backend/app/rate_limit.py:46-60 | on a clock that never goes back, the pruned list is the whole acceptance history inside the window, and decides the same |
| SlidingWindow.EveryWindowBounded | backend/app/rate_limit.py:46-60 | no window of the given length, wherever it ends, holds more than limit acceptances |
| SlidingWindow.CrashesIff | backend/app/rate_limit.py:52-53 | an empty list is indexed exactly when the limit is not positive and nothing recent is stored |
| SlidingWindow.AnnouncedWaitSuffices | backend/app/rate_limit.py:52-58 | exactly when a request that waits as announced is accepted |
| SlidingWindow.AnnouncedWaitTooShort | backend/app/rate_limit.py:46-60 | a request that waits as announced and is refused again |
| FixedWindow.RedisLimiter.EnforceRedisLimit | backend/app/rate_limit.py:63-81 | accepted exactly while the counter of the open window is within the limit, otherwise refused with the remaining time; other keys are untouched |
| FixedWindow.AnnouncedWaitSuffices | backend/app/rate_limit.py:74-82 | exactly when a request that waits as announced is accepted |
| FixedWindow.AnnouncedWaitTooShort | backend/app/rate_limit.py:74-82 | a request that waits as announced and is refused again |
| FixedWindow.RunInParts | backend/app/rate_limit.py:24-30 | at any time the acceptances fall into older ones, one full window's and the open window's, because only the first increment sets the expiry |
| FixedWindow.TwiceTheLimit | backend/app/rate_limit.py:24-30 | every interval of the window's length holds at most twice the limit |
| FixedWindow.BoundIsTight | backend/app/rate_limit.py:63-81 | a schedule that reaches twice the limit, for every limit and window |
| FixedWindow.NoWindowNoLimit | backend/app/rate_limit.py:24-30 | a window of no length never limits |
| Retry.DelaysGrow | backend/app/retry.py:13-26 | delays never shrink and never pass the cap |
| Retry.UncappedTotal | backend/app/retry.py:13-26 | delays below the cap add up to base * (2^n - 1) |
| Retry.CappedDelay | backend/app/retry.py:13-26 | from the first delay that reaches the cap on every delay is the cap |
| NotificationOutbox.DeliveryRow.ProcessNotificationDelivery | backend/app/notification_delivery.py:33-106 | one attempt by every branch: finished rows are left, others are sent, rescheduled, dead or stuck |
| NotificationOutbox.ProcessDueNotificationDeliveries | backend/app/notification_delivery.py:109-126 | a sweep attempts each due row it gets to once and no other; an unhandled exception ends it |
| NotificationOutbox.DueRows | backend/app/notification_delivery.py:111-123 | the rows picked are due, in order, within the limit, and all of them when the limit leaves room |
| NotificationOutbox.TerminalForever | backend/app/notification_delivery.py:41-42 | a sent or dead delivery never changes |
| NotificationOutbox.SentIff | backend/app/notification_delivery.py:98-106 | a delivery is sent exactly if a call that still reached it delivered |
| NotificationOutbox.DeadIff | backend/app/notification_delivery.py:45-96 | a delivery is dead exactly if a call that still reached it found no notification, was refused for good or used up the attempts |
| NotificationOutbox.AttemptsCounted | backend/app/notification_delivery.py:50-52 | the stored count is the number of calls to the provider |
| NotificationOutbox.AttemptsBounded | backend/app/notification_delivery.py:33-106 | no delivery is attempted more than max(1, max_attempts) times while every exception is handled |
| NotificationOutbox.AlwaysFailing | backend/app/notification_delivery.py:74-96 | a delivery that always fails is attempted exactly max(1, max_attempts) times and then dead |
| NotificationOutbox.BackoffRespected | backend/app/notification_delivery.py:109-123 | a failed row is due again exactly from its backoff on |
| NotificationOutbox.StuckIff | backend/app/notification_delivery.py:50-52 | over any sweeps a row ends up in sending exactly when one of its attempts ended in an unhandled exception |
| NotificationOutbox.StuckSomewhere | backend/app/notification_delivery.py:50-52 | a first sweep that dies leaves the row in sending through all later sweeps |
| NotificationOutbox.SendingForever | backend/app/notification_delivery.py:111-123 | no sweep attempts a row in sending again |
| EffectPreparation.Preparation.PrepareEffects | builder_app/effect-preparation.js:15-30 | idle, shared or a new flight, whose first stretch runs before it is registered |
| EffectPreparation.Preparation.AfterSpatial | builder_app/effect-preparation.js:24-26 | after the scene a flight goes on only if it is still valid |
| EffectPreparation.Preparation.RunFinally | builder_app/effect-preparation.js:27-27 | the entry is removed only if it is the flight's own |
| EffectPreparation.AnalysisStartsValid | builder_app/effect-preparation.js:21-26 | an analysis starts only while its own photo is current, effects are on and it is not analysed, and never after a failed scene |
| EffectPreparation.AnalysisStartsIff | builder_app/effect-preparation.js:21-26 | exactly when a flight whose scene is there goes on to analyse |
| EffectPreparation.PrepareStartsIff | builder_app/effect-preparation.js:15-24 | exactly when a call of prepare starts a flight, and when that flight skips the scene |
| EffectPreparation.FinallyRemovesOwnOnly | builder_app/effect-preparation.js:27-27 | an older flight's end leaves a newer flight registered |
| EffectPreparation.RunKeepsRegistry | builder_app/effect-preparation.js:14-30 | in every interleaving the registry names only flights of that editor that are not over |
| EffectPreparation.NothingLeftBehind | builder_app/effect-preparation.js:27-28 | when all flights are over, nothing stays registered |
| EffectPreparation.PrepareShares | builder_app/effect-preparation.js:19-20 | while the photo stays, every call shares the registered flight, whatever else happens |
| EffectPreparation.SingleFlightIff | builder_app/effect-preparation.js:13-30 | a step gives one photo a second flight exactly when it is a call of prepare that finds the first under way but not registered |
| EffectPreparation.RunSingleFlightIff | builder_app/effect-preparation.js:13-30 | over whole runs there is one flight per photo all along exactly when no call of prepare misses one |
| EffectPreparation.SwapBackMakesTwins | builder_app/effect-preparation.js:18-28 | after a swap back to a photo whose superseded flight still runs, the next call of prepare makes a second flight, whatever comes in between |
| EffectPreparation.RunKeepsSingleFlight | builder_app/effect-preparation.js:13-30 | without such swaps no run ever has two flights for one photo |
| EffectPreparation.SwapBackAnalysesTwice | builder_app/effect-preparation.js:18-28 | a run in which two flights analyse one photo at once |
| Base64Url.PaddingRestored | backend/app/download_signing.py:14-19 | minus the length modulo four is exactly the number of padding signs stripped |
| Base64Url.SymbolsPlain | backend/app/download_signing.py:14-15 | encoded text holds no padding sign and no dot |
| Base64Url.Alphabet | backend/app/download_signing.py:14-15 | the URL-safe alphabet in its order |
| Base64Url.SameBits | backend/app/download_signing.py:14-15 | three bytes and their four symbols are the same 24 bits, most significant first |
| Base64Url.RoundTrip | backend/app/download_signing.py:14-19 | decoding undoes encoding for every byte string |
| SignedToken.TokenRoundTrip | backend/app/download_signing.py:31-58 | a created token verifies, as either kind, to what its own fields are worth there |
| SignedToken.DownloadRoundTrip | backend/app/download_signing.py:31-58 | a download token verifies to its fields exactly until it expires, and never as a check-in pass |
| SignedToken.CheckInRoundTrip | backend/app/event_checkin.py:31-55 | a check-in pass verifies exactly if it names an event and an application and is unexpired; as a download token it verifies whatever it names |
| SignedToken.CreateInjective | backend/app/download_signing.py:31-43 | different fields give different tokens |
| SignedToken.AcceptedIsSigned | backend/app/download_signing.py:46-58 | an accepted token is its payload with the server's own signature, unexpired |
| ClamStream.SendForScan | backend/app/upload_safety.py:50-55 | what is written is the greeting, the frames of the content and the terminator |
| ClamStream.GreetingText | backend/app/upload_safety.py:50-50 | the greeting is the command's name and a zero byte |
| ClamStream.FramesStep | backend/app/upload_safety.py:51-54 | a frame carries between 1 and 2^20 bytes |
| ClamStream.PackRoundTrip | backend/app/upload_safety.py:53-53 | a length up to 2^32 - 1 fits four bytes, most significant first, and reads back |
| ClamStream.FramingRoundTrip | backend/app/upload_safety.py:50-55 | a scanner reading up to the first zero length recovers exactly the content, of any length, and stops exactly there |

## Left out

- HTTP routers, Celery wiring, mail, push, object storage, image and AI workers: they surround the modelled code and add no state of their own to it.
- JSON text, HMAC, SHA-256 and JWT signing: parameters, taken to read back or not to collide where a property says so.
- Text-built source ids and rule keys (`point_charge:...`, `mission:...`): modelled as structured values, so two different ones are taken never to spell the same text.
- Row ids are table positions; that random ids never collide is taken for granted, and foreign keys to users are not checked.
- Descriptions, metadata, audit entries, in-app notifications and the pass product's shop row: written, but never read by the modelled code.
- Clock: one reading for each call, though the program reads it several times.
- Card eligibility, achievement values, mission and achievement definitions and organisations: found by queries over tables outside the model; they enter each attempt as inputs, and the definitions stay fixed during a run.
- GrowthService.GrowthStore.ProcessEngagementEvent: does not refresh the cached pass progress at the end; every claim recomputes it from the experience ledger, so claims do not depend on it.
- Events that purchases and claims record as processed at once: their status is not part of the pass model.
- Order among equals: the drift list's order is not modelled, and events due at the same time are taken by their id.
- Isolation: whole transactions at a time, except in `PointInterleaving`, which covers grants and spends only.
- Concurrent outbox workers: one sequential worker; a second one could attempt a row that is being sent.
- Rate-limiter floating point: times are real numbers without rounding; a Redis key is gone exactly at its expiry, and TTL rounds to the nearest second; a Redis outage (answered with 503) is left out.
- Base64 leniency: text that no encoder produces decodes to nothing in the model, while Python's decoder skips some of it.
- Scanner replies and connection errors: only the stream sent is modelled.
- Ownership ids are compared as numbers, which agrees with their text order because all have twelve hexadecimal digits.
- Redemption.RunKeeps: grants that name a code redemption as their source are excluded, because a redemption would then be counted without a card; `Redemption.CountedIffUnclaimed` gives the exact condition. Transfers and deletions are left out.
- PassRuns.RunKeeps: assumes that other point commands do not use the pass rule keys, without which a pass could be had for less (`PassRuns.PurchasePaysIff` is exact), and that a tier's rewards are catalog rows, as its foreign key demands; the repair job that uses a different rule key is left out.
- PassRuns.FirstPurchase: shop orders share the order table and write charge transactions under a key their buyer chooses (`create_shop_order` in the fan router); one under `pass:<season>` would also stand in a purchase's way, and one under a charge's key in that charge's. They are not modelled, and all orders and charge transactions are taken to come from passes and charges.
- PassRuns.StepKeeps: assumes the same of its one step.
- PointBooks.Conservation: assumes that other services post under rule keys of their own, as their callers do; `PointBooks.ChargePaysIff` says exactly when a charge is paid without that.
- GrowthWorkers.ExactlyOnce: achievement definitions are the fixed ones, each with a distinct id, as their primary key demands.
- EffectPreparation: a stage that calls prepare again from within itself is left out.
- Trades, pack opening, card combinations, shop orders and refunds, demo seeding, admin status tables: not modelled; they would add members of the same or an easier kind.
