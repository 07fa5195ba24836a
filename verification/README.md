# Verified model of the Lumina API service

This project models the state machines of the Lumina API service and of its on-chain indexer in Dafny 4.11, and
proves what they keep over whole runs.

Most modules have the same shape. A `State` (or `Hooks`, `Db`, `System`) datatype holds the tables and the calls in
flight. A `Label` is one stretch of JavaScript between two awaits, one SQL statement, one committed block, or a
death of the process. `Apply` takes one step, and a label that is not enabled changes nothing, so every sequence of
labels is a schedule. `Exec` runs a sequence. Theorems quantify over all sequences. Beside each machine a class holds
the mutable tables, and its methods are proved to perform one `Apply` step.

| module | what it models |
|---|---|
| `Lock` | the keyed promise mutex of `src/utils/lock.ts` |
| `Relayer`, `RelayerRuns`, `RelayerHistory` | faucet claims and relayer purchases, composed with `Lock` on their shared key: nonces, cooldowns, daily cap; what each body did, in order, and which claims are refused |
| `Nonces`, `Claims`, `FaucetStore` | the sends and their nonces; the claims table, its queries and its spacing; the faucet's code over it |
| `ChainEvents` | the six polled streams with their persisted cursors, with crashes, throws and overlapping ticks |
| `FirstHead` | where a stream starts and what each cursor write stores, read off the blocks committed so far |
| `Emissions`, `ChainScenes` | exactly which rows have been handed to `emit`, and exactly when one is handed over again; concrete runs |
| `Webhooks`, `WebhookWorker` | the event table, the fan-out and the bounded-retry delivery queue |
| `DeliveryRows` | how many delivery rows a pair gets, and exactly when it gets a second one |
| `Lifecycle`, `Outcomes` | attempts, back-off, settled rows; which recorded outcome makes which status |
| `Queue`, `Drain` | draining, bounded waiting, ticks until the queue is empty |
| `EndToEnd` | emitter and worker in one process: stream row to delivery rows |
| `RowKeys`, `Calendar` | the indexer's row ids; month epochs and their maturities |
| `Indexer`, `Columns`, `Ledger` | the event handlers and their replay; every column of every row, read off the log; the ERC-1155 transfer table and net holdings |
| `StreamViews`, `Notices`, `OnChain` | the streams' SQL over the indexer's tables; which log tells which wallet; on-chain event to `emit` |
| `Pipeline` | indexer, emitter and worker together: on-chain event to delivery rows |
| `LogScan` | the windowed, retried log scan against one plain query |
| `Marketplace`, `MarketplaceRoutes`, `MarketplaceHistory` | racing `/list` and `/buy` requests over listings and purchases; the receipt behind every row, and every answer |
| `Paging`, `Bonds`, `ListingPages` | sorting, slicing and walking pages; wallet bonds; active listings |
| `TtlCache`, `MarketplaceViews` | the time-to-live cache, a query served through it, and the stats and history it serves |
| `Idempotency` | the idempotency path of policy purchases |

## What the proofs show about the code

- Nothing is lost, whatever overlaps, throws or dies (`ChainEvents.NoLoss`, `EndToEnd.NothingLostEndToEnd`,
  `Pipeline.ChainToEvents`).
- A row is handed to `emit` again exactly when an emit loop works off a wallet row that lies at or below the highest
  head already worked off, or that a death left behind (`Emissions.RepeatIff`, `Emissions.ExactlyOnceIff`).
  `setInterval` does not wait for a slow tick, so this happens without any failure (`ChainScenes.OverlapDuplicates`).
- Every event has exactly the delivery rows of the subscriptions it matched, one each, exactly when no fan-out stops, by a
  throw or a death, after a delivery of an event it does not get to mark (`Webhooks.FanoutExactlyOnceIff`). Such a
  stop leaves a row behind for an event still pending. A second row is written for a pair exactly when a later fan-out
  writes a pair left behind (`DeliveryRows.SecondRowIff`, `DeliveryRows.AtMostOneRowIff`). That need not happen: the
  subscription may be gone by then (`DeliveryRows.StopWithoutSecondRow`).
- Delivered and failed rows are safe exactly when no tick starts a row whose request is still in flight
  (`Lifecycle.SettledSafeIff`); overlapping ticks do that (`Lifecycle.OverlapReopensDelivered`). The limit of three
  attempts and the back-off hold on every run.
- The header of `src/services/chainEvents.ts` concedes that a crash before the cursor write emits a row again, and asks
  receivers to treat the delivery id as idempotent. The repeated row is a new event with new delivery rows
  (`ChainScenes.CrashDuplicates`), so its delivery ids are new as well. When the next tick does repeat one is
  `Emissions.DeathRepeatsIff`.
- If every send reads one past the last mined nonce, two relayer sends read the same nonce iff nothing was mined between
  their broadcasts (`RelayerRuns.NoncesNeverCollide`). For faucet sends, made by the bare wallet, this leaves out what
  the mempool adds to the node's pending count. For purchases it is an assumption about `NonceManager`, which tracks
  the next nonce itself (`src/utils/ethers.ts:58-66`), so a purchase after one whose `wait()` rejected does not read
  the same nonce again.
- Reprocessing a log suffix leaves the indexer's tables unchanged iff no update of a row precedes the row's creation
  without being repeated after it (`Indexer.ReplaySafeIff`).
- Idempotency covers an agent's requests under a key whose row is that agent's own. It does not cover requests in flight
  together under one key (`Idempotency.InFlightNotDeduplicated`), a purchase whose policy row was refused
  (`Idempotency.RefusedPolicyNotDeduplicated`), a purchase whose process died before the save
  (`Idempotency.DeathNotDeduplicated`), or a completed purchase under a key that another agent's row already held
  (`Idempotency.RetryResubmitsIff`).
- `/list` and `/buy` compare decimal texts, so a number with a leading zero passes the schema and is then refused
  (`Marketplace.LeadingZeroRefused`).
- The comment in `src/services/bonds.ts:82` lists back-offs of 1, 2 and 4 seconds. The code never sleeps 4 seconds,
  because it gives up after the third failure (`LogScan.FetchWindow`). Likewise a third webhook failure schedules no
  120-second retry.
- Every chain read of the bond loader is caught inside it, so the 503 branch of `getBondsByWallet` is not reached from a
  failed balance or metadata read.

## Model

| member | source | states |
|---|---|---|
| `Lock.AlwaysInv` | src/utils/lock.ts:15-43 | every schedule keeps: published promises are unresolved and owned by the key's holder, and every waiter awaits a resolved promise or the one its key's holder will resolve |
| `Lock.MutualExclusion` | src/utils/lock.ts:21-43 | over all schedules at most one holder per key, and the map entry exists iff there is a holder and is exactly its unresolved promise |
| `Lock.NobodyStranded` | src/utils/lock.ts:22-31 | an unsettled task can resume, can settle, or waits for a live holder of its own key that can settle; a free key has no blocked waiter |
| `Lock.SettlingFreesKey` | src/utils/lock.ts:37-42 | whether the body resolves or rejects, the key becomes free and every waiter of it can resume |
| `Lock.KeepsItsKey` | src/utils/lock.ts:21-31 | over every schedule a task waits for, and holds, the key it called with |
| `Lock.StepsTerminate` | src/utils/lock.ts:21-43 | between arrivals every step lowers a well-founded measure, so finitely many calls do not run forever |
| `Lock.LockTable.TryEnter` | src/utils/lock.ts:22-36 | the loop guard and publication perform exactly the machine's entry step and return the promise to await |
| `Lock.LockTable.Finally` | src/utils/lock.ts:39-42 | the finally block performs exactly the machine's settle step |
| `Relayer.AlwaysInv` | src/routes/faucet.ts:95-166 | every interleaving of claims and purchases keeps the key discipline, the nonce chain, the claim spacing, and the stability of passed gates until insert |
| `RelayerRuns.NoncesNeverCollide` | src/services/policies.ts:388-414 | over all interleavings, abandoned sends mined late included: nonces never fall in send order, two sends read the same nonce iff nothing was mined between their broadcasts, and mined sends used different nonces, increasing in send order |
| `RelayerRuns.NonceReuseIff` | src/utils/lock.ts:45-53 | after any run, the nonce the next send reads was read by an earlier send iff no send with that nonce has been mined |
| `RelayerRuns.MinedNonces` | src/utils/lock.ts:45-53 | the mined nonces are exactly those from the initial one up to the pending one, each mined by exactly one send |
| `RelayerRuns.NoncesConsecutive` | src/routes/faucet.ts:151-159 | when each send is mined before the next is broadcast the sends use n, n+1, n+2, … from the initial pending nonce |
| `RelayerHistory.NoncesAreCounts` | src/utils/lock.ts:45-53 | over every run the pending nonce is the first one plus the sends mined so far, and each send read the pending nonce of its own broadcast |
| `RelayerHistory.MinedIsMined` | src/routes/faucet.ts:151-159 | over every run a send counts as mined exactly when a step mined it: its own wait, or late |
| `RelayerRuns.FaucetLimits` | src/routes/faucet.ts:95-166 | over every run, claims of one wallet or one IP are at least 86,400 s apart and every closed 86,400 s window holds at most 50, although check and insert read the clock separately |
| `RelayerHistory.ClaimRefusedIff` | src/routes/faucet.ts:97-128 | over every run the gates turn a claim away iff 50 of the rows inserted so far are at most 86,400 s old on the cap's clock, or one of its wallet or its IP is younger than that on the cooldowns' clock; old claims never use up the cap |
| `RelayerHistory.ClaimsAreRecords` | src/routes/faucet.ts:161-166 | over every run the table is, in order, the wallet and IP each recording task arrived with and the second of its insert |
| `RelayerHistory.RecordedIsPaid` | src/routes/faucet.ts:147-166 | over every run a task that recorded a claim passed the gates, then had its mint sent and mined, then its ETH sent and mined, then recorded, and did nothing else |
| `RelayerHistory.PurchaseSendsOnce` | src/services/policies.ts:388-414 | a purchase sends one transaction at most, and is done iff that was mined with a good receipt |
| `RelayerHistory.AlwaysTraced` | src/routes/faucet.ts:95-166 | over every run every body goes its one way from the request it arrived with, and only its last step may fail |
| `Claims.InsertKeepsSpacing` | src/routes/faucet.ts:99-128 | a claim that passed the three gates can be appended without breaking the spacing or the cap |
| `Claims.CountIsExact` | src/utils/faucetDb.ts:66-74 | the count is the size of the set of rows at or after the cutoff |
| `Claims.LastByWallet` | src/utils/faucetDb.ts:46-53 | the greatest claim time of the wallet, none iff it never claimed |
| `Claims.LastByIp` | src/utils/faucetDb.ts:56-63 | the greatest claim time of the IP, none iff it never claimed |
| `FaucetStore.FaucetDb.LastClaimByWallet` | src/utils/faucetDb.ts:46-53 | the scan returns the wallet's latest claim |
| `FaucetStore.FaucetDb.LastClaimByIp` | src/utils/faucetDb.ts:56-63 | the scan returns the IP's latest claim |
| `FaucetStore.FaucetDb.CountClaimsLast24h` | src/utils/faucetDb.ts:66-74 | the number of rows i with claimed_at + 86,400 ≥ now, as the size of that set |
| `FaucetStore.FaucetDb.InsertClaim` | src/utils/faucetDb.ts:77-99 | appends one row with the given stamp |
| `FaucetStore.FaucetDb.CheckClaim` | src/routes/faucet.ts:97-128 | daily_cap_reached iff at least 50 rows are at most 86,400 s old; else wallet_rate_limited iff a claim of the wallet is younger; else ip_rate_limited iff one from the IP is; else ok |
| `FaucetStore.FaucetDb.Check` | src/routes/faucet.ts:97-128 | the gates over the table are the machine's Check step, with the two clock readings it makes |
| `FaucetStore.FaucetDb.Record` | src/routes/faucet.ts:161-166 | the insert, stamped with the clock it reads itself, is the machine's Record step |
| `ChainEvents.AlwaysInv` | src/services/chainEvents.ts:211-242 | the emitter's invariant over every run with crashes and overlaps: covered cursors, sourced events, calls in flight consistent with what they read |
| `ChainEvents.NoLoss` | src/services/chainEvents.ts:211-230 | over every run every row in (first cursor, stored cursor] with a wallet was handed to emit, and the stored cursor never falls below the first |
| `ChainEvents.NoHistoryFlood` | src/services/chainEvents.ts:215-220 | an event exists only for a row of its stream above the first cursor |
| `FirstHead.FirstCursorIsHeadRead` | src/services/chainEvents.ts:211-220 | over every run a stream has a cursor iff one of its calls got past its head with a non-empty table, and started at exactly the MAX that was true when that call's own read ran |
| `FirstHead.OnlyNewRowsAreHanded` | src/services/chainEvents.ts:215-227 | over every run no row indexed by the first run's read is ever handed to emit, every wallet row indexed since is, up to the stored cursor, and before a first run none is |
| `FirstHead.HeadDecides` | src/services/chainEvents.ts:212-224 | over every run, with the MAX a call's own read saw: empty table, nothing; no cursor, the MAX is stored and nothing fetched; a cursor, rows above it up to the MAX are fetched if there can be any |
| `FirstHead.FetchStoresHead` | src/services/chainEvents.ts:224-228 | over every run the cursor write stores the MAX its own call read |
| `FirstHead.CallsWorkFromReads` | src/services/chainEvents.ts:212-213 | over every run a call in flight carries the MAX that was true at its read, whatever was indexed since |
| `ChainEvents.EmitCounts` | src/services/chainEvents.ts:225-227 | the emit loop hands each fetched row with a wallet to emit as often as it was fetched, and nothing else |
| `ChainEvents.ExactlyOnce` | src/services/chainEvents.ts:211-230 | on runs without overlap in which no emit loop is cut short and no cursor write fails, a row in (first, stored] is handed to emit exactly once and every other row never |
| `Emissions.TriesArePasses` | src/services/chainEvents.ts:225-227 | over every run a row is handed to emit as often as an emit loop passed it, whatever overlaps, throws or dies |
| `Emissions.HandedIff` | src/services/chainEvents.ts:211-230 | over every run a row has been handed to emit iff it names a wallet, lies above the first cursor, and is at or below the highest head worked off or was left behind by a death in an emit loop |
| `Emissions.RepeatIff` | src/services/chainEvents.ts:224-228 | after any run, a step hands some row to emit again iff a wallet row in (its cursor, its head] is at or below the highest head worked off, or was left behind by a death; for a loop a death cuts short, iff such a row is among its first k |
| `Emissions.ExactlyOnceIff` | src/services/chainEvents.ts:211-230 | over every run each row is handed to emit at most once, and exactly once if handed at all, iff no step of the run met that guard |
| `Emissions.TickHandsOver` | src/services/chainEvents.ts:211-230 | an undisturbed tick hands over exactly the wallet rows above the stored cursor |
| `Emissions.DeathRepeatsIff` | src/services/chainEvents.ts:225-228 | after a death k rows into an emit loop the next tick repeats a row iff one of those k rows names a wallet and lies above the stored cursor |
| `ChainScenes.OverlapDuplicates` | src/services/chainEvents.ts:248-252 | a run without death or failure in which two ticks overlap and one row is emitted twice |
| `ChainScenes.CrashDuplicates` | src/services/chainEvents.ts:225-228 | a run without overlap in which a death before the cursor write makes one row two events |
| `ChainEvents.Emitter.AfterHead` | src/services/chainEvents.ts:212-224 | the code between the head and fetch awaits performs the machine's step; a first run stores the head itself and nothing else changes a cursor; fetch is called with the stored cursor iff the head is above it |
| `ChainEvents.Emitter.AfterFetch` | src/services/chainEvents.ts:225-228 | the emit loop and cursor write perform the machine's step, whichever inserts throw; the cursor becomes the head iff the write succeeds |
| `Webhooks.PendingEventsComplete` | src/db/database.ts:286-291 | the limit is respected and a pending event is left out only for a full batch of older ones |
| `Webhooks.Matching` | src/services/webhooks.ts:59-67 | exactly the active subscriptions of the event's wallet whose filter is the wildcard or names the event, in id order |
| `Webhooks.FanoutLosesNothing` | src/services/webhooks.ts:54-79 | over every run, throws and deaths mid-fan-out included, a processed event has a delivery for each subscription it matched |
| `Webhooks.FanoutExactlyOnceIff` | src/services/webhooks.ts:54-79 | over every run, event i has exactly one delivery to subscription j iff it is processed and matched j, else none, iff no fan-out stopped (by a throw or a death) after inserting a delivery of an event it did not mark |
| `DeliveryRows.RowsAreWrites` | src/services/webhooks.ts:54-79 | over every run a pair of event and subscription has as many rows as fan-outs, whole or cut short, wrote it |
| `DeliveryRows.PendingRowsAreLeft` | src/services/webhooks.ts:58-76 | over every run an event not yet marked has a row for a subscription iff a stop left it behind |
| `DeliveryRows.SecondRowIff` | src/services/webhooks.ts:68-76 | after any run, a step writes a second row for some pair iff it writes a pair that a stop of the run left behind |
| `DeliveryRows.AtMostOneRowIff` | src/services/webhooks.ts:54-79 | over every run each event has at most one row per subscription iff no fan-out wrote a pair that an earlier stop had left behind |
| `DeliveryRows.StopWithoutSecondRow` | src/services/webhooks.ts:58-76 | a run whose stop leaves a row behind although no pair ever gets a second one, because the subscription is dropped first |
| `Webhooks.MatchedAtFanout` | src/services/webhooks.ts:58-76 | a processed event became processed at one step, and was matched against the subscriptions active just before it |
| `Lifecycle.AttemptsBounded` | src/services/webhooks.ts:140-158 | over every run, overlapping ticks and failures included, no row records more than 3 attempts, a pending row at most 2, and no request is sent as a fourth attempt |
| `Lifecycle.BackoffRespected` | src/services/webhooks.ts:150-157 | over every run, a pending row with m failures is due exactly 30,000·2^(m−1) ms after the last, so no tick lists it earlier |
| `Outcomes.StatusIff` | src/services/webhooks.ts:92-158 | over every run, from the outcomes recorded: delivered iff the last was a 2xx; failed iff it was a 4xx, or the third in trouble, or the row's turn came without an active subscription or an event; pending otherwise, so never after a 4xx |
| `Outcomes.DueIff` | src/services/webhooks.ts:140-158 | over every run a pending row is due from its fan-out, 30 s after its first failed attempt, or 60 s after its second |
| `Outcomes.AttemptsAreRecordings` | src/services/webhooks.ts:96-158 | while no tick starts a row in flight, a row's attempts are the outcomes recorded for it |
| `Outcomes.BatchIsDue` | src/db/database.ts:312-319 | a tick takes at most 50 rows, all pending and due, and leaves a due one out only for 50 due no later |
| `Outcomes.FanoutMarks` | src/db/database.ts:286-291 | a whole fan-out marks exactly the unmarked events with fewer than 100 unmarked ones before them |
| `Outcomes.TablesAreInputs` | src/db/database.ts:240-291 | over every run the events are those inserted, in order, and the subscriptions those made, inactive once left |
| `Lifecycle.SettledIsForever` | src/services/webhooks.ts:117-133 | delivered and failed rows never change again as long as no tick starts a row whose request is still in flight |
| `Lifecycle.CollisionReopens` | src/services/webhooks.ts:87-133 | the first tick of a run that starts such a row has a continuation that changes a settled row |
| `Lifecycle.SettledSafeIff` | src/services/webhooks.ts:87-133 | over every run, at every moment no collision-free future changes a settled row, iff no tick of the run started a row still in flight |
| `Queue.QueueDrains` | src/services/webhooks.ts:87-158 | without new fan-outs each recorded outcome lowers the attempts still owed, so their number bounds what can still be recorded, whatever fails or dies |
| `Drain.DueWithinAMinute` | src/services/webhooks.ts:150-157 | a pending row is due at most a minute after now |
| `Drain.QueueEmpties` | src/services/webhooks.ts:87-158 | after any run whose requests have ended, W / 50 + 3 non-overlapping ticks past the back-offs, with no new fan-out and no failure but the receivers', leave no row pending, W being the attempts owed at the start |
| `Queue.BoundedWaiting` | src/db/database.ts:312-319 | while no tick starts a row in flight, 50 times the ticks that pass over a due delivery is at most the k rows in front of it plus the rows that deaths and failures put back; with no such setback at most k/50 ticks, and with non-overlapping ticks a death counts at most 50 rows |
| `Lifecycle.OverlapReopensDelivered` | src/services/webhooks.ts:181-195 | a run in which two overlapping ticks make a delivered row pending again |
| `WebhookWorker.Worker.ListPendingEvents` | src/db/database.ts:286-291 | the scan returns the oldest unprocessed ids up to the limit |
| `WebhookWorker.Worker.FanoutEvent` | src/services/webhooks.ts:59-76 | one event's loop inserts one delivery per match and marks it processed |
| `WebhookWorker.Worker.FanoutPendingEvents` | src/services/webhooks.ts:54-79 | performs the machine's fan-out step |
| `WebhookWorker.Worker.NextDue` | src/db/database.ts:312-319 | the due row with the least next attempt time outside a batch, none iff all due rows are in it |
| `WebhookWorker.Worker.ListDue` | src/db/database.ts:312-319 | at most 50 due pending rows in next-attempt order, a row being left out only when the batch is full of rows not later than it |
| `WebhookWorker.Worker.DeliverDue` | src/services/webhooks.ts:87-110 | performs the machine's tick-start step on a legal due batch, whichever rows throw before their request |
| `WebhookWorker.Worker.Settle` | src/services/webhooks.ts:111-158 | performs the machine's step: 2xx delivered, 4xx failed, trouble failed on attempt 3 and pending 30 s or 60 s later before; no other row changes |
| `WebhookWorker.Worker.SettleThrows` | src/services/webhooks.ts:135-137 | a status update that throws in the catch block too leaves the row as it was |
| `EndToEnd.SharedTable` | src/services/webhooks.ts:40-46 | the emitter's inserts are, in order, the rows the worker fans out, over every interleaving |
| `EndToEnd.ExactlyOnceEndToEndIff` | src/services/chainEvents.ts:211-230 | over every run, each row is handed to emit at most once and each event has exactly one delivery per subscription it matched, iff no emit loop met the repeat guard and no fan-out stopped after a delivery of an event it did not mark |
| `EndToEnd.NeverTwiceEndToEndIff` | src/services/webhooks.ts:54-79 | over every run, each row is handed to emit at most once and each event has at most one row per subscription, iff no emit loop met the repeat guard and no fan-out wrote a pair left behind |
| `EndToEnd.ExactlyOnceEndToEnd` | src/services/webhooks.ts:54-79 | on those runs a row handed over, its insert not having thrown, is exactly one event, with exactly one delivery per subscription active and matching at its fan-out; any other row has none |
| `EndToEnd.CalmIsUndisturbed` | src/services/chainEvents.ts:232-254 | ticks that do not overlap, with no death or failed cursor write in an emit loop, never meet the repeat guard |
| `EndToEnd.NothingLostEndToEnd` | src/services/webhooks.ts:40-79 | over every run at all, a row has been handed over iff it has an event or its insert threw, every due row has, and a processed event has its deliveries |
| `RowKeys.PolicyKeyInjective` | indexer/src/index.ts:24 | distinct (product, policy) pairs never share an id |
| `RowKeys.LogKeyInjective` | indexer/src/index.ts:46 | distinct (tx, log index) pairs never share an id |
| `RowKeys.LegKeyInjective` | indexer/src/index.ts:209 | distinct (tx, log index, leg) triples never share an id |
| `RowKeys.LogKeyIsNoLegKey` | indexer/src/index.ts:189 | a single transfer's id is never a batch leg's id |
| `Calendar.MakeDayIsGregorian` | indexer/src/index.ts:228-232 | the day arithmetic behind Date.UTC agrees with a month-by-month Gregorian calendar on every month |
| `Calendar.CodeInverts` | src/services/bonds.ts:155-158 | dividing by 100 inverts the YYYYMM code, and the code's maturity is the first second of its month |
| `Calendar.MaturityOrder` | indexer/src/index.ts:228-232 | on month codes, epoch order and maturity order agree both ways |
| `Calendar.NotACode` | indexer/src/index.ts:228-232 | a concrete non-code (month 13) that matures with another epoch, so the previous law stops at month codes |
| `Calendar.EnumerateEpochs` | src/services/bonds.ts:150-161 | lists each month from 2026-01 to 27 months after the current one once, strictly increasing |
| `Calendar.EnumerationCovers` | src/services/bonds.ts:150-161 | any instant from 2026-01 through now + 730 days falls in an enumerated month |
| `Indexer.LiveStep` | indexer/src/index.ts:41-65 | what one event does to an updatable row; a purchase or listing seen again never resets it to active |
| `Indexer.LiveOfLog` | indexer/src/index.ts:17-65 | a row's final updatable columns are those of its creation overwritten by the events after it |
| `Indexer.ReplaySafeIff` | indexer/src/index.ts:17-220 | reprocessing any suffix on the final tables changes nothing iff no update of a row precedes its creation without one of the same columns following it |
| `Indexer.CausalReplay` | indexer/src/index.ts:121-167 | a log in which each trigger, cancel and buy follows its purchase or listing is replay-safe |
| `Columns.RowIsFirstLog` | indexer/src/index.ts:17-139 | over every log the insert-time columns of a policy, trigger, bond or listing row are those of the first log with its key |
| `Columns.BondColumns` | indexer/src/index.ts:69-100 | over every log kind, owner, epoch, amounts and position of a bond row are its first log's, and for a month code the maturity is the first second of that month by the month-by-month Gregorian count |
| `Columns.MaturityIsFirstSecond` | indexer/src/index.ts:228-232 | for every epoch number, also one with month 0 or above 12, the maturity is the first second of the month Date.UTC carries it to |
| `Columns.PolicyIsLastTrigger` | indexer/src/index.ts:44-65 | over every log a policy is triggered iff a trigger follows its first purchase, with the last one's transaction and time |
| `Columns.ListingIsLastUpdate` | indexer/src/index.ts:121-167 | over every log a listing is active until a cancel or buy follows its first Listed log; the last of them decides the status, the last buy gives buyer, both fees, block and transaction |
| `Columns.TransfersAreFirstLogs` | indexer/src/index.ts:187-220 | over every log no transfer id occurs twice, each row is the first log or leg with its id column by column, and every transfer has its row |
| `Indexer.Handlers.OnPolicyPurchased` | indexer/src/index.ts:17-39 | inserts the row unless its id exists |
| `Indexer.Handlers.OnTriggerSubmitted` | indexer/src/index.ts:44-65 | inserts the trigger and flips an existing policy in place, else leaves policies alone |
| `Indexer.Handlers.OnBond` | indexer/src/index.ts:69-100 | inserts the row unless its id exists; its columns are pinned by Columns.BondColumns |
| `Indexer.Handlers.OnListed` | indexer/src/index.ts:121-139 | inserts an active listing unless its id exists |
| `Indexer.Handlers.OnCancelled` | indexer/src/index.ts:143-149 | sets only the status of an existing listing |
| `Indexer.Handlers.OnBought` | indexer/src/index.ts:154-167 | sets the status and fill columns of an existing listing |
| `Indexer.Handlers.OnTransferSingle` | indexer/src/index.ts:187-199 | appends the transfer unless its id exists |
| `Indexer.Handlers.OnTransferBatch` | indexer/src/index.ts:204-220 | the loop appends one row per leg whose id is new |
| `Ledger.TableIsLog` | indexer/src/index.ts:187-220 | for logs at distinct chain positions insert-if-absent drops nothing: the table is the log's movements in order, a batch being its single legs |
| `Ledger.HoldingsAreBalances` | src/routes/indexer.ts:148-169 | for every valid log, received − sent is the executed balance of each owner and epoch, and the answer lists exactly the positive ones |
| `Ledger.NetIsBalance` | src/routes/indexer.ts:154-155 | received − sent over rows equals executing them, so it is never negative |
| `Ledger.SupplyIsMintedMinusBurned` | indexer/src/index.ts:187-220 | at every point of a valid log the balances of an epoch sum to minted minus burned |
| `StreamViews.JoinUnique` | src/services/chainEvents.ts:86-93 | a trigger joins at most one policy row |
| `Notices.ShownIff` | src/services/chainEvents.ts:52-209 | over every log, what each stream shows and to whom: purchases to the buyer, triggers to the policy's buyer, bond logs to receiver or holder, listings to the seller, and the last buy of a listing that nothing follows to that seller; nothing else |
| `Notices.HeadBlocks` | src/services/chainEvents.ts:52-209 | the trigger head counts every trigger's block, joined or not; every other head the blocks of the rows shown |
| `StreamViews.EventIsRow` | src/services/chainEvents.ts:52-209 | one handler run adds to each stream exactly the row its event stands for, and changes no other |
| `StreamViews.BlockExtends` | src/services/chainEvents.ts:52-209 | a block only adds rows of its own block to every stream and to what its MAX ranges over |
| `StreamViews.BlockIsIndexStep` | src/services/chainEvents.ts:52-209 | handling a block is, per stream, the append step the emitter's guarantees assume |
| `OnChain.AlwaysSynced` | src/services/chainEvents.ts:46-50 | over every run each stream's rows and MAX are those of the indexed tables |
| `OnChain.OnChainEventOnce` | src/services/chainEvents.ts:211-230 | over every run a reported on-chain event has been handed to emit iff it names a wallet and its block is above the first cursor and at or below the highest head worked off, or a death left it behind; and not twice unless some step met the repeat guard |
| `OnChain.ReportedIff` | indexer/src/index.ts:17-167 | over logs at distinct chain positions insert-if-absent drops no reportable event: reported is every bond log, a trigger or fill whose purchase or listing came before, and the first purchase or listing of each key |
| `Pipeline.ChainToDeliveries` | src/services/webhooks.ts:54-79 | from the chain to delivery rows: on every undisturbed run a reported on-chain event that has passed the emitter is exactly one event row with exactly one delivery per subscription active and matching at its fan-out; one that has not has no row |
| `Pipeline.ChainToEvents` | src/services/chainEvents.ts:211-242 | over every run at all, a reported event has passed the emitter iff it has an event row or its insert threw |
| `Pipeline.NewsIsReported` | indexer/src/index.ts:17-167 | over every run with distinct chain positions the reported events are exactly the news of the log before them |
| `LogScan.WindowsTile` | src/services/bonds.ts:62-65 | the windows tile the range with no gap or overlap, each of 1 to 45,000 blocks |
| `LogScan.ScanRefinesQuery` | src/services/bonds.ts:51-98 | the scan is the one plain query, in order, minus exactly the logs of windows that failed three times |
| `LogScan.NoFailureNoLoss` | src/services/bonds.ts:51-98 | when no window fails three times the scan equals the plain query |
| `LogScan.MissingIffDead` | src/services/bonds.ts:67-89 | a log of the range is missing iff its own window failed three times |
| `LogScan.FetchWindow` | src/services/bonds.ts:69-89 | one to three attempts, stopping at the first answer, sleeping 1 s then 2 s |
| `LogScan.BuildWindows` | src/services/bonds.ts:62-65 | the loop builds exactly the tiling |
| `LogScan.RunAll` | src/services/bonds.ts:91-96 | batches of six windows, the last of at most six, in order, together exactly the windows given |
| `LogScan.PaginatedQueryFilter` | src/services/bonds.ts:51-98 | the whole scan returns the surviving logs, in batches of six (the last of at most six) that make up the tiling |
| `Marketplace.ListingAccepted` | src/services/marketplace.ts:43-144 | accepted iff the receipt is a successful marketplace call by the seller whose first Listed log says, digit for digit, what the body says, with amount > 0 and total ≥ floor·amount (1,000,000 per unit when unread); the row has that log's id, epoch, amount and price, and the body's seller and transaction |
| `Marketplace.LeadingZeroRefused` | src/services/marketplace.ts:95-103 | a body number with a leading zero passes the schema and is refused, because texts are compared |
| `Marketplace.FloorByDivision` | src/services/marketplace.ts:117-118 | the truncating-division check is exactly total ≥ floor·amount |
| `Marketplace.BuyAccepted` | src/services/marketplace.ts:187-275 | accepted iff the first Bought log names, in the body's own texts, the listing, buyer, recorded seller and price plus buyer fee, and the amount is the listing's; the purchase has that log's id, buyer and seller, and its price plus buyer fee |
| `Marketplace.ListingsConsistent` | src/routes/marketplace.ts:185-307 | over every interleaving a listing is executed iff exactly one purchase references it and active iff none does, ids and hashes are unique, and every listing met its floor |
| `Marketplace.PurchasesConsistent` | src/routes/marketplace.ts:247-307 | each purchase sells an executed listing with that listing's seller, bond and amount, and its hash is unique |
| `Marketplace.StatusOnlyAdvances` | src/db/database.ts:761-798 | any step moves status at most from active to executed, edits nothing else, and a request not answered ok leaves no row |
| `MarketplaceHistory.ListingsHaveReceipts` | src/routes/marketplace.ts:195-208 | over every interleaving each stored listing was recorded by a /list from the first Listed log of its receipt: id, bond, amount and total are that log's, seller and transaction the body's, above the floor read then |
| `MarketplaceHistory.PurchasesHaveReceipts` | src/routes/marketplace.ts:272-296 | over every interleaving each stored purchase was recorded by a /buy from the first Bought log of its receipt: listing, buyer, seller and price plus buyer fee |
| `MarketplaceHistory.CommittedIsFindable` | src/routes/marketplace.ts:199-260 | over every interleaving, after a /list answered ok the first Listed log's id stays stored, and a /buy of it never hears listing_not_found |
| `MarketplaceHistory.ListFinds` | src/routes/marketplace.ts:190-195 | over every interleaving /list is turned away before its await iff its transaction is stored |
| `MarketplaceHistory.BuyFinds` | src/routes/marketplace.ts:252-272 | over every interleaving /buy hears duplicate_purchase for a stored transaction, listing_not_found iff no stored id reads as the body's, listing_not_active for an executed one, and else goes on with that row |
| `MarketplaceHistory.ListingCodes` | src/services/marketplace.ts:83-131 | which code refuses a listing, by the first check its first Listed log fails |
| `MarketplaceHistory.ListingCodesBefore` | src/services/marketplace.ts:46-81 | the codes before that, each iff its own condition; event_missing iff no Listed log is there |
| `MarketplaceHistory.BuyCodes` | src/services/marketplace.ts:227-257 | which code refuses a buy, by the first check its first Bought log fails |
| `MarketplaceHistory.BuyCodesBefore` | src/services/marketplace.ts:190-225 | the codes before that, each iff its own condition |
| `MarketplaceHistory.ListStep` | src/routes/marketplace.ts:195-216 | a /list commit appends the verified row, or answers duplicate_listing iff its id or transaction is stored |
| `MarketplaceHistory.BuyEnds` | src/routes/marketplace.ts:272-307 | a /buy commit is ok iff the transaction is new and the listing active; then it appends the purchase and executes that listing alone |
| `Marketplace.Store.RecordListing` | src/db/database.ts:616-635 | appends the row, or changes nothing when the id or hash is taken |
| `Marketplace.Store.RecordPurchaseAndFinalizeListing` | src/db/database.ts:761-798 | both writes or neither, with the error of the constraint that failed |
| `Marketplace.FindListed` | src/services/marketplace.ts:72-81 | the loop finds the first Listed log of the marketplace |
| `Marketplace.FindBought` | src/services/marketplace.ts:216-225 | the loop finds the first Bought log of the marketplace |
| `MarketplaceRoutes.VerifyList` | src/services/marketplace.ts:43-144 | the checks in their order, each with its error code, and the row an accepted listing becomes; codes and row are pinned by MarketplaceHistory.ListingCodes and Marketplace.ListingAccepted |
| `MarketplaceRoutes.VerifyPurchase` | src/services/marketplace.ts:187-275 | the checks in their order, each with its error code, and the row an accepted buy becomes |
| `MarketplaceRoutes.Routes.ListBegin` | src/routes/marketplace.ts:190-195 | performs the machine's step before the await and answers early iff the hash is registered |
| `MarketplaceRoutes.Routes.ListEnd` | src/routes/marketplace.ts:195-216 | performs the machine's commit step and answers with its code |
| `MarketplaceRoutes.Routes.BuyBegin` | src/routes/marketplace.ts:252-272 | performs the machine's step before the await; either an early error or the listing row carried over it |
| `MarketplaceRoutes.Routes.BuyEnd` | src/routes/marketplace.ts:272-307 | performs the machine's commit step on the carried row and answers with its code |
| `Paging.OneAnswer` | src/services/bonds.ts:303-304 | an order that tells all rows apart allows one arrangement only, so separate queries page through the same one |
| `Paging.SortAnswers` | src/services/bonds.ts:303-304 | such an arrangement exists and sorting finds it |
| `Paging.WalkIsLossless` | src/services/bonds.ts:306-318 | following hasMore ends, reads exactly the rows from the offset on in order, each once, with every page but the last full |
| `Bonds.LoadAllBondsForWallet` | src/services/bonds.ts:208-263 | exactly the enumerated epochs with a positive balance and readable existing metadata, strictly increasing, none redeemed; a reverting batch falls back to single reads, failed ones reading as zero |
| `Bonds.ViewIsExact` | src/services/bonds.ts:289-301 | a status view holds exactly the bonds the status selects, in epoch order: redeemed ones for redeemed, else unredeemed ones, unmatured for active and matured for matured |
| `Bonds.ViewsPartition` | src/services/bonds.ts:289-301 | active and matured partition the default view, which is everything loaded; redeemed is empty |
| `Bonds.BondPagesAreLossless` | src/services/bonds.ts:303-319 | walking a view's pages yields each of its bonds exactly once, epochs strictly falling |
| `Bonds.CacheKeyInjective` | src/services/bonds.ts:266-267 | no two wallets share a cache entry |
| `Bonds.Service.Lookup` | src/services/bonds.ts:270-274 | a hit is the result of a load of this wallet stored less than 60 s ago |
| `Bonds.Service.Load` | src/services/bonds.ts:275-285 | stores this wallet's load under its own key and leaves other keys alone |
| `Bonds.Service.Present` | src/services/bonds.ts:287-319 | the page, total and hasMore of the only newest-first arrangement of the view; redeemed is always empty |
| `ListingPages.MatchingIsExact` | src/db/database.ts:717-719 | exactly the active rows within the price, each once |
| `ListingPages.ListActiveListings` | src/db/database.ts:691-736 | the page is cut from the one answer ORDER BY allows, and total counts every match |
| `ListingPages.ListingPagesAreLossless` | src/db/database.ts:691-736 | under every order the pages concatenate to all matches, each once, in strict order |
| `ListingPages.AnswersAreSorted` | src/db/database.ts:699-705 | price-asc prices never fall, price-desc prices never rise, createdAt-desc times never rise; ties by id, rising only for price-asc |
| `ListingPages.ActiveWithinPrice` | src/db/database.ts:717-719 | a row matches iff it is active and not dearer than the bound |
| `ListingPages.PagesAgree` | src/db/database.ts:699-709 | two queries over one snapshot answer the same arrangement, so pages neither overlap nor leave gaps |
| `TtlCache.LatestMeans` | src/utils/cache.ts:42-47 | the call-history function picks the last set of a key since the last reset, if any |
| `TtlCache.Cache.Get` | src/utils/cache.ts:36-41 | returns v iff the last set of the key with no later set or reset stored v and now < its time + ttl; pruning loses nothing |
| `TtlCache.Cache.Set` | src/utils/cache.ts:42-44 | extends the history by this set and keeps the cache consistent with it |
| `TtlCache.Cache.Reset` | src/utils/cache.ts:45-47 | extends the history by a reset and keeps the cache consistent with it |
| `TtlCache.CachedQuery.Serve` | src/services/marketplace.ts:333-371 | a hit is the query's answer over the database as it was at some instant t with t ≤ read < t + ttl, a miss over the database as it is, and only a miss is stored; keys must be injective |
| `TtlCache.CachedQuery.Write` | src/utils/cache.ts:33-49 | a change of the database extends its version history and leaves the cached answers those of their own instants |
| `MarketplaceViews.HistoryKeyInjective` | src/services/marketplace.ts:416 | no two history pages share a cache entry |
| `MarketplaceViews.HistoryIsLossless` | src/services/marketplace.ts:421-428 | a history page is cut from the one arrangement ORDER BY allows: instants (executed, else created) never rise, ties by falling id; pages of one snapshot concatenate to all trades |
| `MarketplaceViews.Floor` | src/services/marketplace.ts:339-343 | the least total of an active listing, none iff none is active |
| `MarketplaceViews.ActivePlusSold` | src/services/marketplace.ts:344-346 | over every marketplace run the active listings the stats count plus the purchases are all listings |
| `MarketplaceViews.VolumeShrinks` | src/services/marketplace.ts:347-361 | the 24-hour volume is part of the total and shrinks as the window moves on over unchanged trades |
| `MarketplaceViews.TradeCounts` | src/services/marketplace.ts:347-361 | one more trade adds its price to the total, and to the 24-hour volume iff it was executed (else stored) at most 86,400,000 ms ago; no trades, no volume |
| `MarketplaceViews.ListingsCount` | src/services/marketplace.ts:339-346 | totalListings is the number of active listings, the floor their least total, 0 with none |
| `MarketplaceViews.Views.GetMarketplaceStats` | src/services/marketplace.ts:333-371 | served stats are those of the database as it is, or at some instant within the last 30 s |
| `MarketplaceViews.Views.GetMarketplaceHistory` | src/services/marketplace.ts:412-448 | a served page is that page of the database as it is, or at some instant within the last 30 s |
| `Idempotency.RowsOnlySwept` | src/db/database.ts:35-43 | a stored row is never overwritten, and goes exactly in a sweep that finds it older than 7 days |
| `Idempotency.RowSurvives` | src/db/database.ts:35-43 | a row survives unchanged every run that stays within 7 days of it |
| `Idempotency.UntilSwept` | src/routes/policies.ts:98-160 | over every run that keeps the row, its agent's requests with the key get its body and submit nothing, another agent's are not served it and submit, and no save replaces it |
| `Idempotency.ServedIsOwn` | src/routes/policies.ts:98-104 | over every run whatever an agent is served under a key is the response of a purchase that agent completed under it |
| `Idempotency.RetryResubmitsIff` | src/routes/policies.ts:98-160 | after a purchase completed under a key, until a sweep, the same agent's next request submits again iff another agent's row already held the key when it completed; else it is answered from the row |
| `Idempotency.AnswersAreOwn` | src/routes/policies.ts:98-160 | over every run an answered request got the response of a purchase completed by a request of its own agent under its own key, and so did every stored row |
| `Idempotency.KeptSevenDays` | src/db/database.ts:35-43 | a row is stamped within a second of its response; while the clock stays within 604,799,000 ms of it a retry gets it and submits nothing, sweeps included, and a sweep after 604,800,000 ms removes it |
| `Idempotency.RecordedOnce` | src/routes/policies.ts:147-155 | after a purchase completed, another request reporting the same product and policy id fails and saves nothing, whatever happened in between |
| `Idempotency.InFlightNotDeduplicated` | src/routes/policies.ts:98-160 | two requests in flight together under one key without a row both submit |
| `Idempotency.RefusedPolicyNotDeduplicated` | src/routes/policies.ts:147-160 | when recording the policy is refused no row is saved, and a retry submits again |
| `Idempotency.DeathNotDeduplicated` | src/routes/policies.ts:140-160 | when the process dies before the save the request is dropped, nothing is stored, and a retry submits again |
| `Idempotency.RejectedStoresNothing` | src/routes/policies.ts:140-145 | a purchase that throws is answered as failed, stores nothing, and lets a retry submit |
| `Idempotency.Table.FindIdempotency` | src/db/database.ts:545-551 | a body iff the row of this key belongs to this agent |
| `Idempotency.Table.SaveIdempotency` | src/db/database.ts:553-558 | inserts the row or leaves the existing one as it is |
| `Idempotency.Table.SweepIdempotency` | src/db/database.ts:35-43 | removes exactly the rows older than 7 days and counts them |
| `Idempotency.PolicyRoute.Begin` | src/routes/policies.ts:98-145 | performs the machine's step up to the purchase: the stored body, or a submission |
| `Idempotency.PolicyRoute.End` | src/routes/policies.ts:147-160 | performs the machine's step after the purchase: record the policy, or fail, and then save the body |

## Left out

- RPC nodes, Postgres, SQLite, fetch, Express, zod and logging: their answers are arbitrary inputs, and one SQL statement is atomic.
- SHA-256, HMAC, EIP-712 and EIP-191 signatures, keccak ids and address checks: hashes and addresses are opaque strings, already lower-cased.
- `RelayerRuns.NoncesNeverCollide`: assumes that every send, by the faucet's bare wallet or through `NonceManager`, reads one past the last mined nonce. The mempool's share of the pending count and the count `NonceManager` keeps itself are not modelled. A send whose `wait()` rejected may still be mined later, but until then it does not move the nonce the next send reads.
- `RelayerRuns.NonceReuseIff`: under the same assumption.
- `RelayerRuns.NoncesConsecutive`: under the same assumption.
- The Solidity contracts. `StreamViews.Plausible` states what is used of them: one policy is not purchased after its trigger, and a filled listing is not cancelled or bought again.
- Chain reorganisations in the indexer: blocks are handled whole and in increasing order.
- SQLite's 64-bit casts and JavaScript number precision: amounts, prices and blocks are unbounded naturals.
- `Columns.MaturityIsFirstSecond`: years above 275,760, for which Date.UTC is not a number and the handler throws, get the calendar's answer.
- `Columns.TransfersAreFirstLogs`: the operator column, which no query reads.
- `MarketplaceHistory.ListingsHaveReceipts`: the block number, submitter and creation time columns of a listing.
- `MarketplaceHistory.PurchasesHaveReceipts`: the block number and submitter columns of a purchase; its instants are inputs of `MarketplaceViews`.
- The burn and vesting handlers: append-only like the bond handlers, and read by no modelled query.
- The `first_acquired_at` column of the by-owner answer and the display columns of bonds (face value, dates, previews).
- `Bonds.Service.Load`: the chain answers of one load are taken together as one `Chain` value, although the code awaits between them.
- `Bonds.Service.Present`: JavaScript's sort algorithm is not modelled; any conforming sort answers the same arrangement (`Paging.OneAnswer`).
- `Lock.StepsTerminate`: fairness is outside the model; it says no schedule of finitely many calls is infinite, not which waiter wins.
- The receipt log scan after a relayer purchase, the policy status of a wallet's policies and the decoding of revert messages: expressions over one input.
- Requests refused by validation before any of the modelled state is touched (schemas, unknown product, unresolved asset).
- Products, sandbox, oracle, authentication, API keys, rate-limit middleware, the webhook host block-list and the feedback bot.
