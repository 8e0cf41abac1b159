# Cashback: redemption, issuance, storage, amounts and prices

A Dafny model of the cashback loop: a payment in USDT is indexed, a coupon is issued for it, its owner is
linked, and a claim pays UTL from the treasury - plus the app's secure storage, the decimal converters on both
sides, the two transports of transfer events, and the price caches.

`dafny verify dfyconfig.toml` checks the whole project.

## How it is built

- `Coupons`, `Issuance`: the coupon collection under its two unique indexes, and what any sequence of jobs makes of it.
- `Payout`: the claim protocol as a machine of atomic steps. Any number of instances and claims; a coupon table,
  the Redis lock with its expiry, a clock, and the pool of accepted transactions. Environment steps are crashes,
  Redis, database and RPC errors, and lost replies of SET, of every write and of the send.
- `PayoutSafety`, `PayoutConservation`, `PayoutOutcomes`, `PayoutRetry`, `PayoutRequests`, `PayoutReports`, `TreasuryLock`,
  `TreasuryQueue`: what holds over every run.
- `NonceRace`: the exact moment at which the lock's time to live stops protecting the nonce, and the runs from there.
- `ClaimProgram`: the code of a claim in the service's own form (loops, nested try/finally), against a deployment in
  which anything else may happen at every `await`; its history is by invariant a run of the machine. What remote
  services answer the claim is an argument, so its outcome is stated by their replies.
- `Linking`, `Backend`: users, wallets and orphaned coupons, with database steps interleaved and as whole operations.
- `WholeSystem`: claims and linking over one coupon collection, interleaved in any way.
- `SecureStorage`, `StorageCrash`: the chunking adapter, its refinement of a map, stops in mid-operation, and calls that overlap.
- `DecimalText`, `Balance`: numerals, the two converters and the three formatters.
- `GroupedTransaction`, `StreamAdapter`, `PollingWindow`: the wire format and the two transports.
- `PriceCache`, `Downsample`: single-flight caches and the thinning of a series.

## What is assumed

- A database write is atomic. For its caller it may be acknowledged, stored with the reply lost, or not stored.
- Whether a transaction entered the pool is decided at the send, and an accepted one stays visible. A "not found" on the
  last of three probes is truthful; earlier answers may be anything.
- A lock token is drawn once by each claim, so the claim's identity stands for it. Coupon codes are fresh where a lemma
  says so. Transaction hashes are not assumed to be fresh: a hash that the pool knows is not accepted twice.
- Only this service sends from the treasury. The pending count is the first nonce without a transaction.
- Code between two awaits of one process runs without interruption.
- Where a claim is shown to finish, its process stays up and remote calls return, with whatever answer.

## What turned out false

- The comment above the listing of redeemed coupons: `RedeemedWithoutHash`, and for good: `WithoutHashForGood`. It
  holds exactly as `ListableIffNotJustSwapped` says.
- A unique violation does not always mean a repeated payment: `CouponlessIffCodeCollides`, `CollidingCodeCostsACoupon`.
- A transaction with two eligible transfers earns cashback on the first only: `SecondTransferEarnsNothing`. Every payment
  earns, and the order of delivery does not matter, exactly as `EveryPaymentEarnsIff` and `OrderFreeIff` say.
- Nonces are serialized only while claims meet the lock's time to live: `LockOpensIffLeaseIsOver`, `ExpiryDoublesTheNonce`.
- A hash reported as paid need not be that of the claim's own transaction: `CollisionPaysOnce`. When it is: `ToldTheTruth`;
  always, while leases are kept: `TimelyPaymentsAreOwn`.
- Registering once does not clear a racing orphan: `LateInsertRuns`; a wallet has one exactly as
  `OrphanIffLastInsertUnlinked` says. Registering again does clear it: `RepeatedRegistrationSettles`.
- Header-last is not enough over a chunked value: `AtomicIffHarmless`; nor for calls that overlap:
  `OverlapSafeIffHarmless`, `ReaderSafeIffHarmless`.
- The header prefix can collide with a short value: `ReadsBackIff`, `ReadsBackIffStorable`.
- The app accepts a comma, blanks around, and nothing before the separator; the backend's reader does not:
  `ConvertersAgree`.
- De-duplication depends on the order of the API's list. It works exactly under `Keeps` (`NextRepeatsNothingIff`,
  `EmittedOnceIff`), which newest-first lists can fail: `NewestFirstEmitsTwice`.
- The coupon entity's comment fixes the cashback at 5%; the code takes the rate from the configuration: `FivePercentIff`.

## Model

| member | source | states |
|---|---|---|
| PayoutSafety.SinglePayout | apps/backend/src/coupons/coupons.service.ts:97-127 | over every run of any number of claims on any number of instances, with crashes, lock expiry, failed sends and lost replies: no coupon has two transactions in the pool, and each pooled transaction is for a redeemed coupon that stores exactly its hash, with that amount and owner |
| PayoutSafety.OneOwnerPerCoupon | apps/backend/src/coupons/coupons.service.ts:97-105 | in every reachable state at most one claim may still write a coupon, the coupon is then redeemed, and an unredeemed coupon has no `redeemedAt` and no hash |
| PayoutSafety.RunKeeps | apps/backend/src/coupons/coupons.service.ts:81-244 | the ownership invariant is kept by every step of every run |
| PayoutSafety.OwnWriteKeeps | apps/backend/src/coupons/coupons.service.ts:196-207 | a write by `_id` without an ownership check is safe when its claim owns the coupon and the coupon has nothing in the pool |
| PayoutSafety.SwapKeeps | apps/backend/src/coupons/coupons.service.ts:101-104 | a stored compare-and-swap gives an owner to a coupon that had none, and nothing of it is in the pool |
| PayoutSafety.DisprovedMeansUnsent | apps/backend/src/coupons/coupons.service.ts:251-277 | a truthful "not found" on the last probe means that no transaction of this coupon is in the pool, even if hashes repeat |
| PayoutSafety.OnlyTheOwnerWrites | apps/backend/src/coupons/coupons.service.ts:101-122 | the redemption fields change only by a winning swap on an unredeemed coupon or by the owning claim, never while it waits for the chain |
| PayoutSafety.RollbackIsLast | apps/backend/src/coupons/coupons.service.ts:194-202 | a claim rolls back only when nothing of its coupon is in the pool, and after that it never swaps, writes or sends again |
| PayoutSafety.PaidForever | apps/backend/src/coupons/coupons.service.ts:209-232 | once a transaction is in the pool its coupon stays redeemed with that hash in every continuation |
| PayoutSafety.IssuedForever | apps/backend/src/coupons/entities/coupon.entity.ts:10-42 | no run changes an issued coupon's amounts, payer, merchant or code, nor an owner once set |
| PayoutSafety.CodesStayUnique | apps/backend/src/coupons/entities/coupon.entity.ts:10-11 | in every run a code is that of one coupon, so a read by code is unambiguous |
| PayoutSafety.ListableIffHashed | apps/backend/src/coupons/coupons.service.ts:383-393 | of a coupon that a claim owns, the guarantee stated above the listing (redeemed implies date and hash) holds exactly from the hash write onward |
| PayoutSafety.ListableAfter | apps/backend/src/coupons/coupons.service.ts:101-207 | after any step a coupon meets that guarantee exactly as before, but for a stored swap, which breaks it, and a stored hash write or rollback, which restores it |
| PayoutSafety.ListableIffNotJustSwapped | apps/backend/src/coupons/coupons.service.ts:383-393 | over every run and for every coupon, owned or not: the guarantee fails exactly when the last write stored for the coupon is the swap |
| PayoutSafety.UnownedForever | apps/backend/src/coupons/coupons.service.ts:97-105 | a redeemed coupon that no claim owns any more keeps its redemption fields in every continuation |
| PayoutSafety.WithoutHashForGood | apps/backend/src/coupons/coupons.service.ts:101-105 | a concrete run - the reply to the swap is lost - after which the hash of a redeemed coupon is null whatever happens |
| PayoutSafety.RedeemedAtTheSwap | apps/backend/src/coupons/coupons.service.ts:101-104 | over every run, `redeemedAt` of a redeemed coupon is the time of the last swap that was stored for it |
| PayoutRequests.CodeAskedForIsPaid | apps/backend/src/coupons/coupons.service.ts:92-95 | over every run, the coupon that a claim has picked or owns, and the coupon of every pooled transaction, has the code that the claim asked for; and the transaction pays it in full, for its owner, to the claim's wallet |
| PayoutRequests.SelectIff | apps/backend/src/coupons/coupons.service.ts:92-95 | a coupon is picked exactly when it has the code asked for, is the user's and is not redeemed; and a claim is refused at the read exactly when every coupon of the code is redeemed or not the user's |
| PayoutRequests.RunWorthy | apps/backend/src/modules/indexer/processors/transfer.processor.ts:36-42 | over every run no coupon is for a payment below the floor or to anybody but a merchant |
| PayoutRequests.CrashKills | apps/backend/src/coupons/coupons.service.ts:283-288 | once a process has crashed, none of its claims takes a step again |
| PayoutReports.WhatAnswersMean | apps/backend/src/coupons/coupons.service.ts:81-244 | over every run each answer means exactly what the claim was told: paid iff the receipt said so, unconfirmed iff it did not or a failed send was found, unverified iff the third probe got no answer, "please retry" and "busy" iff a rollback was acknowledged with and without the lock, refused iff there was nothing to claim or the swap was lost, a fault iff a read or write was not acknowledged; and a rollback was tried iff the lock was busy 120 times or failed, nothing was built, or the third probe denied the transaction |
| PayoutSafety.RedeemedWithoutHash | apps/backend/src/coupons/coupons.service.ts:385 | a concrete run in which a coupon is redeemed and its hash is null, so the comment at line 385 is not true in general |
| PayoutConservation.Conservation | apps/backend/src/modules/indexer/processors/transfer.processor.ts:43-60 | over every run with fresh codes: the pool pays exactly the cashback of the coupons with a pooled transaction, all coupons together are worth bps * 10^8 times the USDT of the eligible payments with each hash counted once, and the pool never pays more |
| PayoutConservation.PoolTotalIsSum | apps/backend/src/coupons/coupons.service.ts:165-211 | what the pool pays is the sum of `utlAmountRaw` over the coupons that have a transaction in it |
| PayoutConservation.RunAccounts | apps/backend/src/modules/indexer/processors/transfer.processor.ts:29-74 | after any run the USDT of the coupons equals the USDT of the first eligible event of every hash |
| PayoutOutcomes.ToldTheTruth | apps/backend/src/coupons/coupons.service.ts:209-243 | over every run: a finished claim that reported a hash as sent has it in the pool; all that it has there is for its own coupon, amount and recipient under the hash it reported, and nothing when it reported none; and a reported hash is that of its own transaction exactly when its send was accepted with a hash that the chain did not know - for a payment, exactly when the hash was not known at the send |
| PayoutOutcomes.SentAndOwn | apps/backend/src/coupons/coupons.service.ts:204-211 | what a claim says it has sent it has sent, at a definite step of the run, and owns what that step added |
| PayoutOutcomes.ReachableIsAttributed | apps/backend/src/coupons/coupons.service.ts:165-168 | every pooled transaction is what its claim signed: that coupon, amount, recipient and user |
| PayoutOutcomes.NotSentByUnknownHash | apps/backend/src/coupons/coupons.service.ts:225-232 | when the chain does not know the hash, the claim has sent nothing |
| PayoutRetry.RunAccounts | apps/backend/src/coupons/coupons.service.ts:97-127 | over every run, a coupon is redeemed only while a claim still owns it or has reported a payment, a doubt or a database fault |
| PayoutRetry.RetryIsPossible | apps/backend/src/coupons/coupons.service.ts:194-232 | after claims that ended in "busy", "please retry" or a refusal only, the coupon is as before any claim and can be claimed |
| TreasuryLock.LostOnlyToHolderOrExpiry | apps/backend/src/coupons/coupons.service.ts:291-294 | a held lock is lost only to its expiry or to the compare-and-delete of the claim whose token it is |
| TreasuryLock.LostIff | apps/backend/src/coupons/coupons.service.ts:291-294 | a held lock is lost exactly by its holder's release or the end of its time |
| TreasuryLock.ReleaseLetsNextIn | apps/backend/src/coupons/coupons.service.ts:347-354 | after the holder's release any waiting claim of a running process can have the lock |
| TreasuryLock.LeaseOfTwoMinutes | apps/backend/src/coupons/coupons.service.ts:288 | a lock that was obtained is held for exactly 120 000 ms unless released |
| TreasuryLock.HoldsOnlyBySet | apps/backend/src/coupons/coupons.service.ts:323-331 | a claim comes to hold the lock by a SET of its own only |
| TreasuryLock.LeaseLasts | apps/backend/src/coupons/coupons.service.ts:291-345 | over any run that stays within the lease, the key is the holder's unless the holder itself gives it up |
| TreasuryLock.NothingSentWithoutLock | apps/backend/src/coupons/coupons.service.ts:308-310 | in every run, a claim that reads the nonce, signs, records or sends has had a SET of its own answered OK before |
| TreasuryLock.NonceSerialization | apps/backend/src/coupons/coupons.service.ts:172-211 | over every run in which claims send or give up within the TTL of their own SET, no two are between lock and send together and pooled nonces are consecutive, with no gap or duplicate |
| TreasuryLock.PendingIsNext | apps/backend/src/coupons/coupons.service.ts:173 | with consecutive nonces in the pool the pending count is the next one |
| NonceRace.LockOpensIffLeaseIsOver | apps/backend/src/coupons/coupons.service.ts:283-288 | while a claim is between lock and send, another can take the lock exactly from the end of the first one's lease on, and then both are inside |
| NonceRace.ExpiryDoublesTheNonce | apps/backend/src/coupons/coupons.service.ts:283-288 | from any such race, two hashes that the chain does not know put the same nonce in the pool twice |
| NonceRace.CollisionPaysOnce | apps/backend/src/coupons/coupons.service.ts:184-191 | from any such race in which both sign to one hash, the second claim reports a confirmed payment and has no transaction of its own |
| NonceRace.BothRacesHappen | apps/backend/src/coupons/coupons.service.ts:283-288 | both runs exist from the empty system on, so the TTL hypothesis is needed for the nonces and for the answers |
| NonceRace.TimelyPaymentsAreOwn | apps/backend/src/coupons/coupons.service.ts:209-211 | over every run in which claims keep to their leases and a hash binds its nonce, whoever reports a payment has a transaction of its own in the pool |
| TreasuryQueue.FirstInFirstOut | apps/backend/src/coupons/coupons.service.ts:300-317 | in every reachable state a claim past the wait finds every earlier arrival of its instance through the section, and two claims of one instance are never in it together |
| TreasuryQueue.ClaimIsBounded | apps/backend/src/coupons/coupons.service.ts:251-345 | in any run a claim takes at most 135 steps, tries the lock at most 120 times and probes the chain at most 3 times |
| TreasuryQueue.PendingCountIs | apps/backend/src/coupons/coupons.service.ts:173 | the pending count always exists and is unique, whatever the pool |
| TreasuryQueue.ForwardIsOpen | apps/backend/src/coupons/coupons.service.ts:81-244 | a claim of a running process that does not wait and is not done can take the step of an unhindered claim: its question answered, and truthfully |
| TreasuryQueue.SomeoneCanAct | apps/backend/src/coupons/coupons.service.ts:301-316 | behind any unfinished arrival there is one, no later in the queue, that can go on in this way |
| TreasuryQueue.QueueCannotStall | apps/backend/src/coupons/coupons.service.ts:300-345 | however a run goes on and whatever claims are answered, a queued claim and those before it take at most their total rank of steps, and until it is done one of them can take the next |
| TreasuryQueue.EveryQueuedClaimFinishes | apps/backend/src/coupons/coupons.service.ts:300-317 | a queued claim of a running process finishes, by steps of itself and of earlier arrivals alone, no more than the sum of their ranks |
| TreasuryQueue.ReachableQueueFinishes | apps/backend/src/coupons/coupons.service.ts:300-317 | and so from every reachable state, within 135 steps for each arrival up to it |
| TreasuryQueue.QuietMeansDone | apps/backend/src/coupons/coupons.service.ts:307-316 | no deadlock: when no claim of a running instance can act, all of them are done |
| ClaimProgram.Deployment.constructor | apps/backend/src/coupons/coupons.service.ts:38-63 | an empty deployment is a reachable state |
| ClaimProgram.Deployment.Yield | apps/backend/src/coupons/coupons.service.ts:306 | at an `await` others take any number of steps; the claim keeps its place and the history stays a run of the machine |
| ClaimProgram.Deployment.Start | apps/backend/src/coupons/coupons.service.ts:85-90 | a claim begins with its user and wallet read |
| ClaimProgram.Deployment.Step | apps/backend/src/coupons/coupons.service.ts:101-210 | a step of the code is a step of the machine, and then others run |
| ClaimProgram.SetNx | apps/backend/src/coupons/coupons.service.ts:323-337 | fails when Redis fails, otherwise answers nil exactly when the lock is held; and where each answer leaves the claim |
| ClaimProgram.GetTransaction | apps/backend/src/coupons/coupons.service.ts:255-267 | a probe tells the truth about a known hash that is found and an unknown one that is missing, and where each answer leaves the claim |
| ClaimProgram.SendTransaction | apps/backend/src/coupons/coupons.service.ts:210 | a reply means accepted: if the hash was not known before, the claim's own transaction is in the pool; an error decides nothing |
| ClaimProgram.WasTransactionBroadcast | apps/backend/src/coupons/coupons.service.ts:251-277 | the retry loop says true only when the chain knows the hash, false only on the last probe's word, null otherwise |
| ClaimProgram.RollBack | apps/backend/src/coupons/coupons.service.ts:119-122 | the rollback write and, by its reply, what is thrown after it |
| ClaimProgram.BuildAndSign | apps/backend/src/coupons/coupons.service.ts:163-202 | signed under the pending count exactly when the node counts and the account signs; otherwise rolled back, with "please retry" or the database's error by the reply |
| ClaimProgram.SettleFailedSend | apps/backend/src/coupons/coupons.service.ts:212-243 | the catch block ends in exactly one of: found, unverified - under the hash that was sent -, or rolled back |
| ClaimProgram.BuildSignAndBroadcast | apps/backend/src/coupons/coupons.service.ts:149-244 | record, send and settle: at the lock's release with the outcome that the replies of the node and the database determine |
| ClaimProgram.AcquireDistributedTreasuryLock | apps/backend/src/coupons/coupons.service.ts:319-345 | at most 120 attempts, none failing before the last; gives up only on a failure or after the 120th, with nothing signed |
| ClaimProgram.WakeUp | apps/backend/src/coupons/coupons.service.ts:306 | each time a claim still has to wait, some earlier arrival goes on with whatever answer, and the steps left to those before it get fewer |
| ClaimProgram.AwaitPrevious | apps/backend/src/coupons/coupons.service.ts:301-306 | the wait for the previous promise ends, at the first attempt on the lock |
| ClaimProgram.RunLocked | apps/backend/src/coupons/coupons.service.ts:310-316 | the section and its two `finally` blocks: when the release script runs the lock is not this claim's any more, and the local queue is released |
| ClaimProgram.WithTreasuryLock | apps/backend/src/coupons/coupons.service.ts:300-317 | always returns: without the lock past the local release, or with the section's outcome past both releases, no longer holding the lock when the script ran |
| ClaimProgram.ReadCoupon | apps/backend/src/coupons/coupons.service.ts:92-95 | a fault exactly when the read fails; otherwise refused exactly when no unredeemed coupon with the claim's code and user is there; otherwise the coupon read is such a one, with its amount |
| ClaimProgram.SwapRedeemed | apps/backend/src/coupons/coupons.service.ts:101-105 | a fault exactly when the write is not acknowledged; otherwise won exactly when the coupon was not redeemed |
| ClaimProgram.TakeCoupon | apps/backend/src/coupons/coupons.service.ts:92-105 | the reads and the swap: won with a coupon that the user could claim; refused, database faults aside, exactly because there was none at the read or because the swap was lost, and it says which |
| ClaimProgram.Conclude | apps/backend/src/coupons/coupons.service.ts:111-146 | without the lock: rolled back, and "busy" or the database's error by the reply; after a send: paid exactly when the receipt succeeded, else unconfirmed; any other outcome is passed on |
| ClaimProgram.ClaimCoupon | apps/backend/src/coupons/coupons.service.ts:81-147 | whatever interleaves, the code ends done in a reachable deployment; a hash reported as sent is in the pool and is the one signed; paid takes acceptance, reply and receipt; and all that the claim has in the pool is under the hash it reported, for the coupon of the code it was given, in full, to that coupon's owner and the wallet it was given |
| WholeSystem.EveryInterleavingIsSafe | apps/backend/src/coupons/coupons.service.ts:85-95 | with registrations, issuance, claims, crashes and the clock interleaved in any way: both sides agree on the coupons, users stay unique, no coupon is paid twice, and each payment is for the coupon's amount to the wallet that the coupon's owner had registered when that very claim began by asking for the coupon's code |
| WholeSystem.ClaimHasBegun | apps/backend/src/coupons/coupons.service.ts:85-90 | every claim of a run goes back to a read of its user's document that had its recipient as the registered wallet |
| WholeSystem.ActProjects | apps/backend/src/coupons/coupons.service.ts:101-122 | a claim changes nothing of a coupon but its redemption fields |
| Coupons.CashbackExact | apps/backend/src/modules/indexer/processors/transfer.processor.ts:101-103 | the division by 10000 is exact: the cashback is usdt * bps * 10^8 |
| Coupons.CashbackAdditive | apps/backend/src/modules/indexer/processors/transfer.processor.ts:101-103 | splitting a payment loses nothing |
| Coupons.FivePercentIff | apps/backend/src/coupons/entities/coupon.entity.ts:23 | the cashback is the 5% of the entity's comment exactly at 500 basis points, or for nothing |
| Coupons.InsertsIff | apps/backend/src/modules/indexer/processors/transfer.processor.ts:36-60 | a job inserts exactly when the recipient is a merchant, the amount is at least the floor, and hash and code are new; the document is the event's, and no other coupon changes |
| Coupons.FloorWitnesses | apps/backend/src/modules/indexer/processors/transfer.processor.ts:38 | at the floor a payment earns, one unit below it and to somebody else it does not |
| Coupons.LowerIffSameButCase | apps/backend/src/modules/indexer/processors/transfer.processor.ts:36 | two texts have one lower-case form exactly when they differ in letter case at most |
| Issuance.IssuanceIdempotent | apps/backend/src/modules/indexer/processors/transfer.processor.ts:29-74 | for any order, duplication or retry of events, one coupon per lower-cased hash of an eligible event, made from the first such event, and none else |
| Issuance.OnlyWorthyCoupons | apps/backend/src/modules/indexer/processors/transfer.processor.ts:36-42 | over every run of jobs each coupon is for at least the floor and to a merchant |
| Issuance.SameEventsSameHashes | apps/backend/src/coupons/entities/coupon.entity.ts:13-16 | which hashes have a coupon depends only on the set of events |
| Issuance.EveryPaymentEarnsIff | apps/backend/src/modules/indexer/processors/transfer.processor.ts:56-70 | for fresh codes: every eligible transfer that was delivered has a coupon of its own amount, payer and merchant exactly when no payment hash carries two eligible transfers that differ in these |
| Issuance.PaymentEarnsIff | apps/backend/src/modules/indexer/processors/transfer.processor.ts:46-70 | one job: afterwards the transfer has its coupon iff the hash had a coupon of just this payment, or had none and the code was new |
| Issuance.SecondTransferEarnsNothing | apps/backend/src/modules/indexer/processors/transfer.processor.ts:65-70 | a witness: one transaction with two eligible transfers, and the second payer's earns nothing |
| Issuance.OrderFreeIff | apps/backend/src/modules/indexer/processors/transfer.processor.ts:29-74 | the amounts, payers and merchants of the coupons are the same for every order and repetition of the same events exactly under that condition |
| Issuance.CouponlessIffCodeCollides | apps/backend/src/modules/indexer/processors/transfer.processor.ts:65-70 | the catch takes any unique violation for a repeat: an eligible event ends with a coupon exactly when its hash had one or its code was new |
| Issuance.CollidingCodeCostsACoupon | apps/backend/src/modules/indexer/processors/transfer.processor.ts:65-70 | a witness: two payments that draw one code, and the second gets no coupon |
| Linking.OwnersAreSetOnce | apps/backend/src/coupons/coupons.service.ts:364-369 | in every run of interleaved database steps the unique indexes hold and an owner, once set, never changes |
| Linking.StepKeepsUsers | apps/backend/src/users/entities/user.entity.ts:33-36 | subject, email and set wallet addresses stay unique |
| Linking.RegistersItsOwnUser | apps/backend/src/wallets/wallets.service.ts:33-41 | over every run a registration works on the user of its own subject |
| Linking.UpsertRefusedIff | apps/backend/src/users/users.service.ts:33-47 | the upsert refuses exactly a new subject with a taken email |
| Linking.LinkGivesTheRegistrant | apps/backend/src/wallets/wallets.service.ts:33-41 | a link gives the wallet's orphans to the user of the registration's subject, and changes no other coupon |
| Linking.JobGivesWhomItFound | apps/backend/src/modules/indexer/processors/transfer.processor.ts:46-60 | a job's coupon is for the user that its look-up found by the payer's wallet, or for nobody when there was none |
| Linking.AddressRefusedIff | apps/backend/src/users/users.service.ts:57-70 | the address is refused exactly when it is the wallet of another subject |
| Linking.RepeatedRegistrationSettles | apps/backend/src/wallets/wallets.service.ts:30-41 | a registration that links when no stale job is left leaves the wallet without orphans for as long as it stays registered |
| Linking.OrphanIffStale | apps/backend/src/modules/indexer/processors/transfer.processor.ts:46-60 | from any state in which a wallet has no orphan, a step gives it one exactly when it is the insert of a job that looked the payer up too early, for an eligible payment that is no duplicate |
| Linking.OrphanStaysIffNotLinked | apps/backend/src/coupons/coupons.service.ts:364-369 | from any state in which a wallet has an orphan, a step rids it of all of them exactly when it is a link of that wallet |
| Linking.OrphanIffLastInsertUnlinked | apps/backend/src/wallets/wallets.service.ts:30-41 | over every run: a wallet has an orphan in the end exactly when such an insert was not followed by a link of that wallet |
| Linking.LateInsertRuns | apps/backend/src/wallets/wallets.service.ts:30-41 | a seven-step run from empty collections that leaves a registered wallet with an orphan |
| Backend.Services.constructor | apps/backend/src/modules/indexer/processors/transfer.processor.ts:15-27 | empty collections |
| Backend.Services.FindByWalletAddress | apps/backend/src/users/users.service.ts:53-55 | a user with that wallet, or none exists |
| Backend.Services.Handle | apps/backend/src/modules/indexer/processors/transfer.processor.ts:29-74 | as a whole operation: a new coupon exactly for a merchant, at least the floor, a new hash and a new code; the issued collection, with no registered wallet left an orphan |
| Backend.Services.FindOrCreate | apps/backend/src/users/users.service.ts:29-47 | finds by subject, else inserts, and refuses exactly when the email belongs to another account |
| Backend.Services.UpdateWalletAddress | apps/backend/src/users/users.service.ts:57-70 | refuses exactly when another user has the address; otherwise sets it in lower case and nothing else |
| Backend.Services.LinkOrphanedCoupons | apps/backend/src/coupons/coupons.service.ts:364-369 | no coupon appears or goes, none changes but in its owner, exactly the wallet's coupons without an owner get this one, and none of the wallet is left without |
| Backend.Services.RegisterAddress | apps/backend/src/wallets/wallets.service.ts:33-41 | refused exactly for a new subject with a taken email, or for a wallet of another subject; otherwise the wallet is the user's and every coupon of it has an owner; a refusal changes no coupon |
| SecureStorage.Adapter.constructor | apps/rn-wdk-exercise/stores/secureStorage.ts:18-19 | an empty store |
| SecureStorage.Adapter.GetItem | apps/rn-wdk-exercise/stores/secureStorage.ts:20-32 | returns what the store reads as, missing chunks included |
| SecureStorage.Adapter.Split | apps/rn-wdk-exercise/stores/secureStorage.ts:38-41 | the slices of the value |
| SecureStorage.Adapter.WriteChunks | apps/rn-wdk-exercise/stores/secureStorage.ts:42 | all chunks written, in any order, and nothing else |
| SecureStorage.Adapter.SetItem | apps/rn-wdk-exercise/stores/secureStorage.ts:33-46 | a short value under its name, or all chunks and then the header |
| SecureStorage.Adapter.RemoveItem | apps/rn-wdk-exercise/stores/secureStorage.ts:47-56 | the head and the chunks it counted are gone, and nothing else |
| SecureStorage.RemoveUndoesSet | apps/rn-wdk-exercise/stores/secureStorage.ts:33-56 | a value stored under a clean name and removed again leaves the store as it was, with no chunk behind |
| SecureStorage.ReadsAbsentIff | apps/rn-wdk-exercise/stores/secureStorage.ts:21-29 | a name reads as absent exactly when it has no entry, or a header that counts a missing chunk |
| SecureStorage.EntriesFit | apps/rn-wdk-exercise/stores/secureStorage.ts:12-16 | no chunk has more than 1800 characters, a value of up to 1800 is one entry, and the head of a longer one counts its chunks |
| SecureStorage.ChunkKeysDiffer | apps/rn-wdk-exercise/stores/secureStorage.ts:26 | a chunk key determines its name and its index |
| SecureStorage.ChunksShape | apps/rn-wdk-exercise/stores/secureStorage.ts:38-41 | chunks join to the value; all but the last are full |
| SecureStorage.ReadBack | apps/rn-wdk-exercise/stores/secureStorage.ts:20-46 | a value that is stored reads back whatever the store held before, stale chunks included |
| SecureStorage.ReadsBackIff | apps/rn-wdk-exercise/stores/secureStorage.ts:14-16 | over any store, a value reads back exactly when it is long or does not start like a header, or stale chunks happen to spell it |
| SecureStorage.ReadsBackIffStorable | apps/rn-wdk-exercise/stores/secureStorage.ts:14-16 | over a name without chunks, the values that do not read back are exactly the short ones that start like a header |
| SecureStorage.StorageRefinesMap | apps/rn-wdk-exercise/stores/secureStorage.ts:18-58 | over every sequence of operations on independent names, completed or stopped half-way, reading agrees with a plain map |
| StorageCrash.AtomicOverUnchunked | apps/rn-wdk-exercise/stores/secureStorage.ts:42-45 | over an absent or unchunked name, stopping after any subset of chunk writes leaves the old value |
| StorageCrash.AtomicIffHarmless | apps/rn-wdk-exercise/stores/secureStorage.ts:42-45 | over a chunked value, every stop leaves the old or the new value exactly when no chunk differs, or one does and the counts agree |
| StorageCrash.OverlapReadsMixed | apps/rn-wdk-exercise/stores/secureStorage.ts:38-45 | after two overlapping `setItem` calls of long values the reader gets the chunks of the one whose header came last, some replaced by the other's |
| StorageCrash.OverlapSafeIffHarmless | apps/rn-wdk-exercise/stores/secureStorage.ts:38-45 | overlapping writes of two long values leave one of the two in every order exactly when no chunk differs, or one does and the counts agree |
| StorageCrash.ReaderBeforeHeader | apps/rn-wdk-exercise/stores/secureStorage.ts:21-31 | a `getItem` that found the old header while a `setItem` runs gets the old chunks, those replaced by the new ones that were written when it came to them |
| StorageCrash.ReaderOverUnchunked | apps/rn-wdk-exercise/stores/secureStorage.ts:21-45 | over an absent or unchunked name, a `getItem` at any time during a `setItem` gets the old value or the new one |
| StorageCrash.ReaderSafeIffHarmless | apps/rn-wdk-exercise/stores/secureStorage.ts:21-45 | over a chunked value that holds exactly when no chunk differs, or one does and the counts agree |
| DecimalText.QuotIsDivision | apps/rn-wdk-exercise/utils/balance.ts:9-11 | the digit-wise quotient and rest are the BigInt division by a power of ten |
| DecimalText.StrippedIsDigits | apps/rn-wdk-exercise/utils/balance.ts:34 | stripping leading zeros, or "0", is the canonical numeral |
| Balance.HumanAmountIsFloored | apps/rn-wdk-exercise/utils/balance.ts:30-35 | every amount that the send form accepts is floored to the token's digits and written canonically |
| Balance.AcceptedSplits | apps/rn-wdk-exercise/app/(wallet)/send/index.tsx:76-81 | digits with at most one separator, comma or dot, and blanks around them, split into the same two parts |
| Balance.TrimStrips | apps/rn-wdk-exercise/utils/balance.ts:31 | an amount with any blanks around it is trimmed to the amount |
| Balance.NegativeMirrors | apps/backend/src/modules/indexer/adapters/grouped-transaction.util.ts:62-70 | a minus sign negates what is read, and zero has no sign |
| Balance.ConvertersAgree | apps/backend/src/modules/indexer/adapters/grouped-transaction.util.ts:62-70 | on accepted amounts the backend's reader returns the app's string exactly when there is no comma, something stands before the separator and there are no blanks around, and otherwise nothing |
| Balance.BalanceRoundTrip | apps/rn-wdk-exercise/utils/balance.ts:1-35 | formatting a raw balance and reading it back gives its canonical numeral |
| Balance.FixedIsFloor | apps/rn-wdk-exercise/utils/balance.ts:60-74 | the fixed display has exactly f digits and reads as floor(raw * 10^f / 10^d) |
| Balance.DisplayIsTight | apps/rn-wdk-exercise/utils/balance.ts:60-74 | no display exceeds the true amount or falls short by a unit of its last digit |
| Balance.DisplaysAgree | apps/rn-wdk-exercise/utils/balance.ts:23-28 | trailing zeros aside, the fixed display and the trimmed balance are the same text |
| Balance.TrimIsFloor | apps/rn-wdk-exercise/utils/balance.ts:23-28 | a trimmed balance shows at most f digits, no trailing zero, and the floor of the amount |
| Balance.BalanceIffGiven | apps/rn-wdk-exercise/utils/balance.ts:1-6 | nothing is formatted exactly when there is no raw balance |
| GroupedTransaction.SplitJoin | apps/backend/src/modules/indexer/adapters/grouped-transaction.util.ts:26-35 | splitting undoes joining of separator-free parts |
| GroupedTransaction.LineIsPositional | apps/backend/src/modules/indexer/adapters/grouped-transaction.util.ts:34-55 | a line of comma-free fields is a record exactly from twelve on, field by field, with the rest as metadata |
| GroupedTransaction.LineRoundTrip | apps/backend/src/modules/indexer/adapters/grouped-transaction.util.ts:34-55 | a record survives its line, with commas in the metadata and no metadata kept apart from empty |
| GroupedTransaction.WireRoundTrip | apps/backend/src/modules/indexer/adapters/grouped-transaction.util.ts:26-32 | every list of printable records comes back in order |
| GroupedTransaction.ParseConcat | apps/backend/src/modules/indexer/adapters/grouped-transaction.util.ts:26-32 | parsing distributes over newline concatenation, malformed lines included |
| StreamAdapter.FlatFieldsToRecord | apps/backend/src/modules/indexer/adapters/redis-stream-transfer.adapter.ts:142-148 | the record of a flat list: the last value of a key, an odd last field dropped |
| StreamAdapter.RecordIsLastValue | apps/backend/src/modules/indexer/adapters/redis-stream-transfer.adapter.ts:142-148 | a key is there iff it stands at some even position with a field after it, and maps to the field after the last such position |
| StreamAdapter.ToTransferEvents | apps/backend/src/modules/indexer/adapters/redis-stream-transfer.adapter.ts:100-140 | the events of a message |
| StreamAdapter.Read | apps/backend/src/modules/indexer/adapters/redis-stream-transfer.adapter.ts:82-96 | the events of all messages, all of them for merchants, and every message acknowledged |
| StreamAdapter.AllEventsConcat | apps/backend/src/modules/indexer/adapters/redis-stream-transfer.adapter.ts:84-90 | the events of messages come in the order of the messages |
| StreamAdapter.OtherMessagesDeliverNothing | apps/backend/src/modules/indexer/adapters/redis-stream-transfer.adapter.ts:103-106 | only messages of type "grouped_transaction" with a text deliver anything |
| StreamAdapter.SelectedExactly | apps/backend/src/modules/indexer/adapters/redis-stream-transfer.adapter.ts:108-139 | an event is delivered exactly when some record with payer, recipient, amount and hash, bound for a merchant, has that payer, recipient, hash and token, its amount in units of 10^-6, and its chain or "ethereum" |
| StreamAdapter.PrintedMessageDelivers | apps/backend/src/modules/indexer/adapters/redis-stream-transfer.adapter.ts:100-140 | a message printed from records delivers exactly the merchant-bound ones, in order |
| StreamAdapter.GroupsDeliverAlone | apps/backend/src/modules/indexer/adapters/redis-stream-transfer.adapter.ts:108-139 | groups of lines deliver what they would deliver alone |
| StreamAdapter.PaymentReachesItsCoupon | apps/backend/src/modules/indexer/processors/transfer.processor.ts:29-60 | from the wire to the coupon: a merchant payment in a printed message is delivered, and its job makes, at or above the floor and with hash and code new, a coupon for that payer, merchant and amount |
| PollingWindow.Adapter.constructor | apps/backend/src/modules/indexer/adapters/wdk-indexer-transfer.adapter.ts:59-60 | nothing seen yet |
| PollingWindow.Adapter.ReadForMerchant | apps/backend/src/modules/indexer/adapters/wdk-indexer-transfer.adapter.ts:51-83 | emits the unseen hashes in order and stores the list, no longer than the window when something is new; a failed call changes nothing |
| PollingWindow.PollEmits | apps/backend/src/modules/indexer/adapters/wdk-indexer-transfer.adapter.ts:66-71 | the next window emits exactly the hashes beyond the last one |
| PollingWindow.PollStores | apps/backend/src/modules/indexer/adapters/wdk-indexer-transfer.adapter.ts:73-80 | the stored list is again a stretch of the history that ends with the window and covers it |
| PollingWindow.EachEmittedOnce | apps/backend/src/modules/indexer/adapters/wdk-indexer-transfer.adapter.ts:51-83 | over every run of forward-moving overlapping windows, oldest first, each hash is emitted exactly once and in order, malformed items notwithstanding |
| PollingWindow.NextRepeatsNothingIff | apps/backend/src/modules/indexer/adapters/wdk-indexer-transfer.adapter.ts:59-80 | for any two lists in a row and any stored hashes, the second poll emits no hash of the first list exactly when nothing was new in the first, or every hash seen before and listed by both is among the latest that the new ones leave room for |
| PollingWindow.RepeatIsQuietIff | apps/backend/src/modules/indexer/adapters/wdk-indexer-transfer.adapter.ts:59-80 | in particular for a list that has not changed: the next poll emits nothing exactly under that condition |
| PollingWindow.EmittedOnceIff | apps/backend/src/modules/indexer/adapters/wdk-indexer-transfer.adapter.ts:51-83 | for any run of polls, in any order of the lists, in which a hash that left does not come back: no hash is emitted twice exactly when no list has a new hash twice and each two lists in a row meet that condition |
| PollingWindow.NewestFirstEmitsTwice | apps/backend/src/modules/indexer/adapters/wdk-indexer-transfer.adapter.ts:74 | a witness: with the newest transfer first, three polls drop a hash that is still in the window and emit it again |
| PriceCache.OneCallPerKey | apps/backend/src/prices/prices.service.ts:85-87 | in every interleaving a key has at most one upstream call, and its in-flight entry is that call |
| PriceCache.EntryIffUncleared | apps/backend/src/prices/prices.service.ts:120-126 | an in-flight entry is there exactly from the start of its call to the end of its `finally` |
| PriceCache.FinallySingleFlight | apps/backend/src/prices/prices.service.ts:122-124 | removing by key removes the entry of the very call that ended |
| PriceCache.AnswersAreGenuine | apps/backend/src/prices/prices.service.ts:128-139 | every answer is a snapshot of a completed call for that key; a stale one or none takes a failed call |
| PriceCache.AnsweredAtOnceIff | apps/backend/src/prices/prices.service.ts:83 | a request is answered at once, with the cached snapshot, exactly when the key is cached and its expiry is still to come |
| PriceCache.AtOnceIffYoung | apps/backend/src/prices/prices.service.ts:114-118 | over every run: exactly when the last answer for the key is younger than its time to live |
| PriceCache.WaitsForOneCall | apps/backend/src/prices/prices.service.ts:85-87 | otherwise it waits for the call in flight, or for the one it starts |
| PriceCache.BurstStartsOneCall | apps/backend/src/prices/prices.service.ts:114-126 | however many requests come for a key that has expired or was never cached, exactly one call starts and all of them await it |
| PriceCache.ResumedAnswer | apps/backend/src/prices/prices.service.ts:89-101 | after the call: what it brought, or after a failure the cached snapshot, or "unavailable" when there is none |
| PriceCache.NeverUnavailableOnceCached | apps/backend/src/prices/prices.service.ts:92-97 | once a key has been cached, no request for it is ever answered "unavailable", whatever fails |
| PriceCache.ExpiredOnlyAfterFailure | apps/backend/src/prices/prices.service.ts:82-101 | an answer given at once is the cached one before its expiry; any other is the awaited call's own or follows its failure |
| PriceCache.NoCallWithinTtl | apps/backend/src/prices/prices.service.ts:114-165 | from an upstream answer until its time to live is over, in every interleaving, no call for the key starts and a request is answered at once with that snapshot |
| Downsample.DownsampleIsSubsequence | apps/backend/src/prices/prices.service.ts:61-66 | a longer series becomes exactly max points: a subsequence in order with both ends, gaps of at most the rounded-up stride, and each index the nearest to its multiple of the stride |
| Downsample.ShortIsKept | apps/backend/src/prices/prices.service.ts:62 | a series that is short enough is left as it is |
| Downsample.IndexStep | apps/backend/src/prices/prices.service.ts:65 | neighbouring indices differ by at least one and at most the rounded-up stride |

## Left out

- Payout machine: replacement or dropping of an accepted transaction; the pool lists what was ever accepted.
- Payout machine: database writes and sends that take effect after their error has been reported.
- Fees, gas, chain id and calldata of a transaction, and its receipt beyond success or failure.
- Deployment: modelled on one state value that the methods reassign; the fields of the service and the documents are inside it.
- Payout machine: a claim without a user or a registered wallet is refused before its first step, so it never begins.
- Transfer jobs whose amount is no integer: they fail before any write. The amount is an integer from there on.
- ToLower: maps ASCII letters only, which is all that hashes and addresses hold.
- Soft deletion of users, the backup collection, and read-only listings.
- SecureStorage: a header followed by other text than a numeral counts no chunks, because only headers written by the adapter carry a count; the grammar of `Number` is not modelled.
- Adapter.RemoveItem: reads the head and deletes it in one step; nothing else writes in between.
- FormatBalanceFromRaw and FormatFixedFromRaw: raw amounts are numerals of naturals; signs, blanks and hexadecimal literals that BigInt would take are not modelled.
- Trim: strips space, tab and line breaks, not every Unicode blank.
- ToNumber: reads numerals exactly, without the loss of precision above 2^53; other texts are carried along uninterpreted.
- Field mapping of the polling transport and class validation: an item is a hash or malformed.
- PollingWindow: one merchant at a time; the polls of several merchants are independent.
- Delays between attempts on the lock and between probes: other steps may come in between, for any time.
- PriceCache: the time to live of an answer is given with it; which range has which is left out.
- PriceCache: modelled as a machine over values, because a request is cut into parts by its awaits; prices themselves are opaque.
- Downsample: rounding is exact; the rounding of floating-point products is not modelled.
- Fiat values, locale formatting, screens, hooks, encryption of the seed, authentication, controllers and deployment.
- Delivery between the stream's acknowledgement and the job queue: events are taken from delivered jobs on.
