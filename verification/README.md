# NKN node: a verified model

This project models the parts of the NKN full node whose correctness is hardest to see from the
code, and proves what they promise. It is written in Dafny 4.11; `dafny verify dfyconfig.toml`
checks all of it.

* **Ledger.** A candidate block is checked transaction by transaction against a fixed ledger, with
  staged changes that are committed or reset (`BlockValidation`, `ValidationState`, `BlockCheck`,
  `BlockChecker`). It is then executed (`Execution`, `StateDatabase`, `ExpiryTables`,
  `StateTables`). A proposer builds blocks from pool lists (`Collector`, `Mining`). Proved: exactly
  which blocks are accepted, said of each transaction and the ones before it (`Acceptance`); after
  every accepted chain balances, assets, channels and subscriptions are exactly what a plain reading of
  its blocks gives (`LedgerHistory`, `AssetHistory`, `ExpiryHistory`); a validated block executes, exactly under a condition on the coinbase fee; a proposer gets a block
  exactly when it should, the block passes every check of the validator, and nothing is left out of
  it without a reason; NKN is conserved over every chain, and the chain never gets stuck, as long
  as no legacy registration fee is out of range; every ordinary transaction runs at its own nonce; the
  expiry indexes of payment channels and subscriptions stay
  exact; the validation state's sums (`BvsExactness`) and sets (`BvsMarks`) stay exact under commit,
  reset and clean; the subscription limit holds where a topic is spelt one way (`SubscriptionLimit`).
* **Proof of relay.** A message goes out hop by hop, each hop caching an element under the hash it
  forwards; later the elements come back and form a signature chain (`SigChains`, `RelayProtocol`,
  `RelayRuns`, `RelayServer`). Chains are scored (`SigHash`), their routes bounded (`SigChainPath`),
  and the best one per height kept in a small heap (`SigChainPool`, `CandidateCache`). Proved: the
  round trip over a path of any length, amid other traffic, yields a chain the verifier accepts;
  nothing in an accepted chain can be changed while its signatures stay (`SigChainSoundness`), and the
  hash it is scored by stands for one chain; a server hands back only what it relayed; each element
  counts for eight bits of the score, up to a limit; the
  best candidate wins exactly when one of its offers met caches without its keys, and does not
  depend on arrival order.
* **Proposals.** Merkle roots bind transaction lists (`Merkle`), and a proposal fetched in full, by
  hashes or by short hashes from any neighbour matches its root (`Proposals`).
* **Pool.** The nonce-indexed list of an account (`TxLists`, `NonceLists`), in which a submitted
  transaction is found until it is replaced or leaves, and which follows the ledger however submissions, blocks and removals interleave (`PoolRuns`), and the XOR fingerprint of recent
  transactions (`Fingerprints`, `RecentTxns`).
* **Storage.** Saving blocks, reading them back and rolling them back (`Persistence`, `BlockStore`), for
  every accepted chain (`ChainOnDisk`), and the trie's key encoding (`TrieEncoding`).

## How it is built

State that the node updates in place is a class. Its methods are proved equal to functions on
values, and the theorems are about those functions: for example
`ValidationState.BlockValidationState` is proved against `BlockValidation`, and
`StateDatabase.StateDB` against `Execution`. Where a promise turns out false as stated, the code is
modelled as it is; a first lemma gives an input on which it fails, and a second the exact condition
under which it holds:

* a validated block can fail to execute when its coinbase carries a fee, on a chain that starts from
  genesis (`Counterexamples.FeeHeavyCoinbaseExists`, `BlockExecution.ValidatedExecutes`);
* below height 7500 the registration fee of a name may be any int64, and at every such height one
  accepted block can leave the donation account in debt and the chain without a successor
  (`LegacyNames.RegistrationStopsChain`), and a validated block with a free coinbase can fail to execute
  (`LegacyNames.ValidatedFails`); from height 7500 on no validated block has a registration fee out of
  range (`ChainRuns.LateBlockIsOrderly`), and blocks without one execute, conserve NKN and can be followed
  (`BlockExecution.ValidatedExecutes`, `BlockExecution.ExecutionConserves`,
  `ChainProgress.ChainNeverStuck`);
* for the same reason the validation state can accept a registration it cannot take back
  (`LegacyNames.HiddenFeeIsInconsistent`, `BvsExactness.TakenBackIffPayable`);
* below the height at which nano-pay fees are charged, such fees are paid out without being taken
  from anyone (`Counterexamples.UnchargedFeeBreaksSupply`, `ChainRuns.SupplyConserved`);
* the validation state forgets a registered name when a transfer of it is cleaned
  (`BvsMarks.TransferForgetsName`, `BvsMarks.CleanKeepsMarksIff`);
* subscribers are limited by topic as written and stored by lower-cased topic, so that two spellings
  exceed the limit (`SubscriptionLimit.SpellingsExceedLimit`, `SubscriptionLimit.LimitHolds`);
* `SetNanoPay` loses the index entry of a channel that was not read before
  (`ExpiryTables.UnreadSetLeavesEntry`, `ExpiryTables.SetNanoPayAgrees`); the executor always reads it
  (`ExpiryTables.ClaimAgrees`);
* the Merkle padding makes different lists collide, unless lists with duplicates are refused
  (`Merkle.PaddingCollides`, `Merkle.RootBinds`);
* a colliding short hash can cost the best candidate its place
  (`SigChainPool.ShortHashCollisionLosesBest`, `SigChainPool.BestWinsIffUnseen`);
* the nonce list goes out of order past the largest nonce (`TxLists.WrapBreaksOrder`,
  `TxLists.SubmittedKeeps`), and removal stops working at 65536 entries
  (`TxLists.FullPopRemovesNothing`, `TxLists.RemovedIsExact`);
* pools with the same transactions can show different fingerprints
  (`Fingerprints.EmptiedIsNotFresh`, `Fingerprints.SameSetSameFingerprint`);
* an expired entry can be kept (`Fingerprints.ClockBackKeepsExpired`, `Fingerprints.ExpiryIsExact`);
* not every byte string survives as a compact trie key (`TrieEncoding.PaddingIsLost`,
  `TrieEncoding.CompactRoundTrip`).

Assumptions. Hashes, addresses and public keys are identifiers or uninterpreted byte strings; SHA-256,
signatures and verifiable random functions are parameters, and injectivity or the matching of a
private and a public key is a hypothesis wherever a result needs it. `txvalidator` is not part of
this model: what the ledger needs of it is the predicate `Transactions.Sane`, the rest is a parameter
(`BlockCheck.Rules`). `Sane` takes for granted that only a coinbase has the donation address as sender,
since nobody holds a key for it. A nano-pay's claim is an unbounded difference, because a channel's
balance is never negative. Wrap-around is written out where it can happen: int64 balances, fees and the
sums the validation state forms of them, uint64 nonces, uint32 heights, uint16 pop counts.

## Model

| member | source | states |
|---|---|---|
| `BlockExecution.ValidatedExecutes` | chain/store/stateGenerator.go:18-176 | A block that passed the structural, in-block, ledger and nonce checks executes only if the donation account can pay the coinbase's fee on top of the donation; if no registration fee is out of range that is also enough, and every other subtraction succeeds |
| `BlockExecution.ZeroFeeCoinbaseExecutes` | chain/store/stateGenerator.go:35-78 | With the zero-fee coinbase nodes create, every validated block without a registration fee out of range executes |
| `BlockExecution.FeeHeavyCoinbaseFails` | chain/store/stateGenerator.go:35-78 | On any store where a donation is due and covered by an account of at most 10^9 coins, a validated coinbase-only block exists that fails to execute |
| `Counterexamples.FeeHeavyCoinbaseExists` | chain/store/store.go:842-864 | Such a store is reachable: from genesis an accepted chain of blocks with free coinbases leads to it |
| `Counterexamples.UnchargedFeeBreaksSupply` | chain/store/stateGenerator.go:29-45 | Below the height at which nano-pay fees are charged, one accepted block after genesis leaves more in circulation than was issued |
| `BlockExecution.ExecutionConserves` | chain/store/stateGenerator.go:285-316 | Executing a validated block without a registration fee out of range changes the sum of all NKN balances by exactly the mining reward plus the fees paid out uncharged, keeps balances non-negative, and adds the reward to the recorded supply |
| `LegacyNames.RegistrationStopsChain` | chain/txvalidator/txvalidator.go:129-152 | At every height below 7500 there is a chain from genesis and an accepted block whose negative registration fee leaves the donation account in debt, after which no block is accepted |
| `LegacyNames.ValidatedFails` | chain/bvs.go:339-343 | At every height below 7500 there is a chain from genesis and a validated block with a free coinbase that cannot be executed: its two fees overflow and are not checked |
| `ChainRuns.LateBlockIsOrderly` | config/config.go:155-158 | From height 7500 on no validated block holds a registration fee out of range |
| `BlockExecution.UnchargedIsNanoPay` | chain/store/stateGenerator.go:29-45 | The fees paid out equal the fees charged if and only if nano-pay fees are charged at the height or are all zero |
| `BlockExecution.TotalFeeIsExact` | chain/store/stateGenerator.go:285-288 | The int64 fee total of a block is the mathematical sum while the fees stay in range |
| `BlockExecution.FeesWithinHoldings` | chain/store/stateGenerator.go:285-288 | All fees of a validated block without a registration fee out of range are together covered by what accounts hold |
| `SpendFacts.CoinbaseEffect` | chain/store/stateGenerator.go:57-78 | A coinbase takes fee and donation from its sender and pays reward, donation and all fees of the block to its recipient |
| `SpendFacts.TxnFacts` | chain/store/stateGenerator.go:18-191 | A covered transaction succeeds, takes exactly the charged fee out of circulation and changes every NKN balance as it should: the sender pays fee and amount, the payee receives the amount, nobody else notices |
| `BlockExecution.TxnExecutes` | chain/store/stateGenerator.go:18-191 | Every transaction of a validated block but the coinbase executes, with exactly that effect on balances and assets |
| `BlockExecution.AloneExecutes` | chain/blockvalidator.go:503-704 | A transaction that passes the checks against the ledger executes on it alone; a registration from height 980000 on |
| `SpendFacts.CoinbaseFacts` | chain/store/stateGenerator.go:57-78 | A coinbase succeeds exactly when its sender covers fee and donation, and raises circulation and recorded supply accordingly |
| `ChainRuns.SupplyStep` | chain/store/stateGenerator.go:285-316 | One accepted block without a registration fee out of range keeps circulation and recorded supply in step if and only if it charges every fee it pays out |
| `ChainRuns.GenesisSupply` | chain/store/stateGenerator.go:210-294 | The genesis block succeeds and leaves the initial issue as both circulation and recorded supply |
| `ChainRuns.SupplyConserved` | chain/store/stateGenerator.go:285-316 | Over every accepted chain without a registration fee out of range the sum of balances is the initial issue plus all rewards plus the nano-pay fees paid out uncharged, and equals the recorded supply if and only if every fee was charged |
| `ChainRuns.ChainExtends` | chain/blockvalidator.go:59-194 | On a chain with amounts in range, exactly which blocks are accepted and saved next |
| `ChainRuns.HeightsCount` | chain/blockvalidator.go:59-194 | Block i of an accepted chain has height i + 1, and the store the height of the last one |
| `LedgerHistory.BalancesAddUp` | chain/store/stateGenerator.go:18-191 | After every accepted chain with amounts in range each account holds exactly the initial issue and what a plain reading of the blocks moves: amounts, registration fees, claims beyond what a channel had paid, fees, rewards and donations |
| `LedgerHistory.BlockFlows` | chain/store/stateGenerator.go:198-330 | The same for one accepted block |
| `AssetHistory.IssuesStand` | chain/store/stateGenerator.go:179-187 | After every accepted chain each issued asset is recorded with the supply its transaction names, its issuer holds all of it, and nobody holds anything else |
| `AssetHistory.SuppliesNonNegative` | chain/txvalidator/txvalidator.go:270-272 | No supply ever issued is negative |
| `ChainRuns.ChargedSupply` | chain/store/stateGenerator.go:285-316 | Such chains that charge their fees never hold more than 10^9 coins, and no balance is negative |
| `ChainRuns.BalancesStayInRange` | chain/store/account.go:342-359 | On such a chain no balance is negative or above the initial issue, the rewards and the uncharged fees together |
| `ChainProgress.ChainNeverStuck` | chain/blockvalidator.go:59-194 | Every accepted chain with free coinbases, charged fees and registration fees in range can be extended by a block that passes the whole check, saves, and leaves the chain in the same good order |
| `ChainProgress.DonatesShare` | chain/store/store.go:842-849 | From height 3030000 on a block is paid 11/25000000 of the donation account, rounded down |
| `ChainProgress.RecordsYearlyShare` | chain/store/store.go:866-892 | Before, over every accepted chain, each multiple of 1576800 records half the account as it was before that block, divided by 1576800 |
| `ChainProgress.DonatesRecorded` | chain/store/store.go:850-864 | And every block of the following 1576800 is paid the amount recorded |
| `ChainProgress.HealthyChains` | chain/store/store.go:566-572 | There are such chains of every length |
| `ChainProgress.DonationsStayCovered` | chain/store/store.go:842-892 | While donations are delayed the donation account always holds what the rest of the interval draws and two donations more |
| `ChainProgress.OnlyDonationDrawn` | chain/store/stateGenerator.go:57-68 | A block with a free coinbase and registration fees in range takes no more than the donation from the donation account |
| `ChainProgress.CoverStep` | chain/store/store.go:866-892 | Such a block keeps the donations covered, across the boundary where the next share is recorded too |
| `ChainProgress.EmptyBlockIsAccepted` | chain/mining.go:212-238 | A block of one coinbase is accepted and saved wherever the donation is known, covered and recordable |
| `BlockExecution.CoinbaseBlockIsValidated` | chain/bvs.go:155-164 | A block of one coinbase with the right amount passes every check before execution |
| `Rewards.InitMiningRewards` | chain/reward.go:13-17 | The reward table built at start-up holds the reduced reward of each of the 25 intervals and nothing else |
| `Rewards.GetRewardByHeight` | chain/reward.go:19-31 | Looking a height up in that table gives the reward schedule, zero after the last interval |
| `Rewards.MinedIsCapped` | chain/reward.go:19-31 | However long the chain, the rewards never add up to more than 300 million coins |
| `NonceRuns.ExecutesAtItsNonce` | chain/blockvalidator.go:136-156 | In an accepted block every ordinary transaction executes when the sender's stored nonce is its own |
| `NonceRuns.NonceDiscipline` | chain/store/account.go:361-367 | Over every accepted chain the k-th ordinary transaction of an account has nonce k modulo 2^64 and the stored nonce counts them |
| `NonceRuns.DonationNonce` | chain/store/stateGenerator.go:47-54 | The nonce of the donation account, which sends no ordinary transactions, counts the coinbases |
| `NonceRuns.NoReplay` | chain/blockvalidator.go:136-156 | Two executions of one account with the same nonce are at least 2^64 transactions apart |
| `NonceRuns.SpendNonces` | chain/store/stateGenerator.go:47-54 | A transaction raises exactly the nonce it must: nano-pays and signature chain transactions none, all others their sender's |
| `ExpiryTables.SetNanoPayAgrees` | chain/store/nanopay.go:207-231 | Setting a channel keeps the index exact if and only if the channel was loaded, had no record, or keeps its expiry |
| `ExpiryTables.UnreadSetLeavesEntry` | chain/store/nanopay.go:207-231 | A committed channel set without being read leaves its old index entry behind |
| `ExpiryTables.ClaimAgrees` | chain/store/stateGenerator.go:158-178 | Reading the channel and then setting it always keeps the index exact and changes no other channel |
| `ExpiryTables.SubscribeAgrees` | chain/store/pubsub.go:189-212 | Subscribing or renewing moves the index entry along with the expiry |
| `ExpiryTables.UnsubscribeAgrees` | chain/store/pubsub.go:214-230 | Unsubscribing removes record and index entry together |
| `ExpiryTables.CleanupAgrees` | chain/store/nanopay.go:233-244 | The end-of-block cleanup removes exactly the records that expire at the height |
| `ExpiryTables.FinalizeKeeps` | chain/store/nanopay.go:246-285 | Committing changes neither the live records nor the index |
| `ExpiryTables.FlushInAnyOrder` | chain/store/pubsub.go:408-447 | Flushing an overlay key by key gives the same trie in whatever order the map is walked |
| `ExpiryRuns.ExpiryIndexAgrees` | chain/store/stateGenerator.go:318-324 | After every block of an accepted chain none of whose subscription expiries wraps, for channels and subscriptions alike, an id is live with expiry e exactly when it is in the cleanup set of e, and e is above the height |
| `ExpiryHistory.TablesShowHistory` | chain/store/pubsub.go:189-230 | After every accepted chain the overlays, tries and cleanup indexes hold exactly the subscriptions and channel claims that a plain reading of the blocks leaves alive, with subscriber, identifier, latest meta data, amount and expiry |
| `ExpiryHistory.CountsLiveSubscribers` | chain/store/pubsub.go:317-339 | The subscribers counted against the limit are the live ones of the lower-cased topic and the bucket |
| `SubscriptionLimit.LimitHolds` | chain/bvs.go:225-262 | On every accepted chain whose blocks spell a topic one way, and subscribe to its first bucket, no more than the limit are subscribed to it |
| `SubscriptionLimit.DeltaCounts` | chain/bvs.go:225-262 | Then the change counted for a topic is the change of its live subscriptions |
| `SubscriptionLimit.SpellingsExceedLimit` | chain/bvs.go:225-262 | Two spellings of one topic in a block pass a limit of one together |
| `ExpiryRuns.ShortChainsFit` | chain/store/stateGenerator.go:124-128 | No expiry wraps in a validated block below the last 400000 heights |
| `ExpiryRuns.ExpiryIsLater` | chain/store/stateGenerator.go:124-128 | The uint32 expiry of a subscription is after its block exactly when the sum does not wrap |
| `StateTables.StateTable.SetNanoPay` | chain/store/nanopay.go:207-231 | The overlay after setting a channel, index moves included |
| `StateTables.StateTable.Unsubscribe` | chain/store/pubsub.go:214-230 | The overlay after unsubscribing |
| `StateTables.SubscribeIn` | chain/store/pubsub.go:189-212 | The overlay after subscribing |
| `StateTables.StateTable.Get` | chain/store/nanopay.go:66-90 | Reads through the overlay to the trie and caches the record |
| `StateTables.StateTable.GetCleanup` | chain/store/nanopay.go:92-124 | Reads the cleanup set of a height through the overlay |
| `StateTables.StateTable.CleanupAtHeight` | chain/store/nanopay.go:187-194 | Adds an id to a height's cleanup set |
| `StateTables.StateTable.CancelCleanupAtHeight` | chain/store/nanopay.go:196-205 | Takes an id out of a height's cleanup set |
| `StateTables.StateTable.CleanupExpired` | chain/store/nanopay.go:233-244 | Marks every id due at a height, and its cleanup set, as deleted |
| `StateTables.StateTable.FlushRecords` | chain/store/nanopay.go:246-265 | Writes kept records to the trie and removes deleted or empty ones |
| `StateTables.StateTable.FlushCleanup` | chain/store/nanopay.go:267-285 | Writes kept cleanup sets and removes deleted or empty ones |
| `StateTables.StateTable.FinalizeCommit` | chain/store/nanopay.go:246-285 | Commits both overlays and empties them |
| `StateDatabase.StateDB.AddBalance` | chain/store/account.go:342-359 | The account map after a credit, as int64 |
| `StateDatabase.StateDB.SubtractBalance` | chain/store/account.go:342-359 | The account map after a debit, or the error, no balance changed and the account there, empty if it was new |
| `StateDatabase.StateDB.Transfer` | chain/store/stateGenerator.go:79-87 | Debit, then credit; on failure the error, and no balance has changed |
| `StateDatabase.StateDB.IncreaseSupply` | chain/store/asset.go:102-115 | The recorded supply after adding, or no change and the error: unknown asset, or a supply that is not positive |
| `StateDatabase.StateDB.PayCoinbase` | chain/store/stateGenerator.go:57-78 | Donation, payment with all fees and supply increase, or exactly the first error |
| `StateDatabase.StateDB.SpendNanoPay` | chain/store/stateGenerator.go:158-178 | The claim beyond the channel's balance moves, and the channel is set |
| `StateDatabase.StateDB.SpendTransaction` | chain/store/stateGenerator.go:18-191 | The whole state after one transaction equals the model's, or the error does |
| `StateDatabase.StateDB.GenerateStateRoot` | chain/store/stateGenerator.go:285-342 | Executing a block over the state equals the model's block execution, or fails with the model's error |
| `BlockValidation.VerifyCommit` | chain/bvs.go:89-102 | Verifying from a clean state and committing books exactly that transaction |
| `BlockValidation.VerifyReset` | chain/bvs.go:99-102 | Verifying, failing and resetting leaves no trace, the staged topic count included |
| `BvsExactness.CommitExact` | chain/bvs.go:339-353 | A committed payable transaction adds exactly its amount, fee, claim and subscription to the sums; the int64 sums do not wrap |
| `BvsExactness.CleanExact` | chain/bvs.go:358-475 | With the ledger unchanged, cleaning never reports inconsistency and leaves the sums of what remains |
| `BvsExactness.RunIsExact` | chain/bvs.go:89-102 | After any sequence of verify-commit, verify-reset and clean steps the money and subscription sums are those of the transactions still committed, and no sender's total exceeds its balance |
| `BvsMarks.RunMarksExact` | chain/bvs.go:358-475 | After any run that transfers no name, hashes, names, registrants, IDs, subscriptions and channels are marked exactly if a transaction still committed leaves them, and no two leave the same |
| `BvsMarks.CleanKeepsMarksIff` | chain/bvs.go:358-475 | A clean leaves the marks exact if and only if no transaction that stays shares one with a transaction that goes |
| `BvsMarks.TransferForgetsName` | chain/bvs.go:191-201 | Cleaning the transfer of a name forgets it although its registration is still committed, and a second registration is then accepted |
| `BvsExactness.RunIsAffordable` | chain/bvs.go:339-353 | On a ledger without debts, the transactions still committed after any run take from nobody more than they have |
| `BvsExactness.TakenBackIffPayable` | chain/bvs.go:442-452 | A transaction an empty state accepts can be committed and cleaned again without a trace in the sums if and only if it is payable: its fee is in range, and its amount neither overflows nor hides the fee |
| `BvsExactness.OrderlyIsPayable` | chain/txvalidator/txvalidator.go:56-66 | Everything that passes the transaction checks with a registration fee in range is payable |
| `LegacyNames.HiddenFeeIsInconsistent` | chain/bvs.go:442-452 | A negative registration fee that outweighs the transaction fee is accepted, and cleaning it reports inconsistency |
| `ValidationState.BlockValidationState.VerifyTransactionWithBlock` | chain/bvs.go:127-356 | Error and staged changes of one transaction, exactly as the model's |
| `ValidationState.BlockValidationState.VerifyPayload` | chain/bvs.go:154-337 | The payload switch: its first error, or what the payload takes from the sender and the topic count it stages |
| `ValidationState.BlockValidationState.RunChange` | chain/bvs.go:146-352 | What one transaction's staged closures do to every field |
| `ValidationState.BlockValidationState.CommitCounts` | chain/bvs.go:93-95 | Staged topic counts are added, in whatever order the map is walked |
| `ValidationState.BlockValidationState.Commit` | chain/bvs.go:89-97 | The state after commit |
| `ValidationState.BlockValidationState.Reset` | chain/bvs.go:99-102 | The state after reset |
| `ValidationState.BlockValidationState.CleanTxn` | chain/bvs.go:359-452 | The state after cleaning one transaction, or the model's error |
| `ValidationState.BlockValidationState.RebuildClaims` | chain/bvs.go:454-472 | Nano-pay sums recomputed from the payloads left, in whatever order the map is walked |
| `ValidationState.BlockValidationState.CleanSubmittedTransactions` | chain/bvs.go:358-475 | The state after cleaning a list, or the model's error |
| `BlockChecker.CheckTransactions` | chain/blockvalidator.go:59-194 | Without fast sync, returns exactly the model's first error and sets the checked flag exactly on success; a checked block is not checked again |
| `Acceptance.LoopIsSimple` | chain/blockvalidator.go:111-157 | The loop's running sets, sums and nonces decide exactly what comparing every transaction with the ones before it decides; without the hypotheses on amounts, everything but the money |
| `Acceptance.AcceptedExactly` | chain/blockvalidator.go:59-194 | With registration fees and balances in range a block is accepted if and only if it has 1 to 4096 transactions of at most 1 MiB under their root with a coinbase in front, each transaction fits the ledger and the ones before it, the winner is known, and it executes to the root it names |
| `Acceptance.AcceptedGuarantees` | chain/blockvalidator.go:59-194 | What acceptance guarantees of every block: the root is that of its distinct transactions, the limits, one coinbase and that in front, a winner hash that is zero, in the block or on the chain, and every transaction fitting |
| `Acceptance.OneRootOneBlock` | chain/blockvalidator.go:92-98 | Two accepted blocks with one transactions root, on whatever chains, hold the same hashes in the same order |
| `Acceptance.NanoPayFits` | chain/txvalidator/txvalidator.go:228-247 | An accepted nano-pay is in time, its channel lasts at least as long as it may be used, and it claims a positive amount within the supply |
| `Acceptance.PrefixTracks` | chain/bvs.go:127-356 | After a passed prefix the state marks exactly the hashes, names, registrants, IDs, subscriptions and channels of its transactions, counts its new subscribers and expects the nonce that follows them |
| `BlockChecker.CheckLoop` | chain/blockvalidator.go:113-157 | The loop with its validation state and nonce map finds an error exactly when the model does |
| `BlockFacts.PrefixFacts` | chain/blockvalidator.go:113-157 | What a passed loop prefix guarantees: checked transactions, distinct hashes and channels, one coinbase; and without a registration fee out of range every sender's total is exact and within its balance |
| `Collector.TxnCollection.constructor` | chain/collector.go:65-78 | Every list offers its first transaction, best first, and nothing else is offered |
| `Collector.TxnCollection.Peek` | chain/collector.go:80-85 | None exactly when every account has run out or been given up; otherwise the next transaction of such an account, and no other's next is better |
| `Collector.TxnCollection.Update` | chain/collector.go:87-100 | The offer taken counts as used and its sender's next transaction, if any, is offered in its place |
| `Collector.TxnCollection.Pop` | chain/collector.go:102-109 | The first offer goes, its sender is given up, and every other offer stays |
| `Mining.Consider` | chain/mining.go:100-145 | One round of the loop: an offer that passes the three checks is taken and booked, one that fails a check costs its sender the rest of the list and leaves no trace in the validation state |
| `Mining.FillBlock` | chain/mining.go:93-146 | The loop terminates with the validator's state following the builder's, having given up accounts only at a refused transaction, and stopped only when nothing was left or the best offer did not fit |
| `Mining.PickTxns` | chain/mining.go:86-148 | The picked transactions are a prefix of each account's list, within count and size limits, pass the validator's loop after the coinbase and the signature chain transaction, and leave nothing behind without a reason |
| `Mining.BuildBlock` | chain/mining.go:57-198 | A returned block passes the whole block check, takes a prefix of every list, and leaves nothing behind without a reason, whatever the fee order; none is returned if the winning transaction is missing or the donation is not covered, and, from height 7500 on or with registration fees in range, only then |
| `Mining.AssembledIsAccepted` | chain/blockvalidator.go:59-194 | A list that passes the loop, with computed roots, makes an accepted block |
| `Mining.AssembledExecutes` | chain/store/stateGenerator.go:285-316 | Such a list, without a registration fee out of range, executes as soon as the donation is covered |
| `Mining.BuiltIsOrderly` | chain/mining.go:86-148 | What is picked from lists with registration fees in range, or at height 7500 and above from any lists, has no registration fee out of range |
| `Mining.BuilderStep` | chain/mining.go:114-145 | A transaction the builder accepts is accepted by the validator, whose state has the coinbase and signature chain transaction in addition |
| `Merkle.NewMerkleTree` | crypto/merkleTree.go:40-58 | None exactly for no hashes; otherwise the tree's root and depth |
| `Merkle.LevelUpNodes` | crypto/merkleTree.go:73-101 | One level up pairs neighbours and pairs an odd last node with itself |
| `Merkle.ComputeRoot` | crypto/merkleTree.go:103-112 | The root of the hashes, or the error for none |
| `Merkle.HasDuplicateHash` | crypto/merkleTree.go:131-140 | Exactly whether two hashes are equal |
| `Merkle.VerifyRoot` | crypto/merkleTree.go:114-129 | Accepts exactly the non-empty duplicate-free lists with the root |
| `Merkle.RootBinds` | crypto/merkleTree.go:73-140 | With an injective pair hash and leaves that are no pair hashes, two accepted lists of any lengths with one root are equal |
| `Merkle.RootFromTop` | crypto/merkleTree.go:40-97 | Hashing level by level gives the root of the tree read from the top, whose left halves are full and whose odd parts stand on both sides |
| `Merkle.LevelsAreLeast` | crypto/merkleTree.go:40-59 | The tree has the least depth its leaves fit in |
| `Merkle.PaddingCollides` | crypto/merkleTree.go:73-101 | Every odd list of more than one hash has the root of a longer list with a duplicate |
| `Proposals.MergeTxns` | consensus/proposal.go:502-544 | Merges two lists by a hash list, or fails; a success has the listed hash at every position |
| `Proposals.MergeRestores` | consensus/proposal.go:418-468 | Splitting a hash list into found and missing and merging the two restores it, for any list |
| `Proposals.AsksForMissing` | consensus/proposal.go:413-449 | Exactly what neither the reply nor the local pools hold is asked for again |
| `Proposals.SplitTxns` | consensus/proposal.go:413-449 | The transactions found and the hashes missing, in order |
| `Proposals.RequestProposalTransactions` | consensus/proposal.go:546-595 | Accepts a reply exactly when every transaction has the requested hash |
| `Proposals.CompleteTxns` | consensus/proposal.go:453-468 | A completed list has the listed hashes; a neighbour that supplies what is asked is never refused |
| `Proposals.FetchByHash` | consensus/proposal.go:400-429 | A list fetched by hashes matches the root |
| `Proposals.RequestProposal` | consensus/proposal.go:323-486 | Any proposal returned, in any mode and from any neighbour, has the requested hash and height and a duplicate-free list matching its root; short hashes fall back to hashes at most once; a neighbour that holds an acceptable proposal is never turned down |
| `Proposals.SameProposal` | consensus/proposal.go:323-486 | Proposals accepted for one block hash have the same header and the same transaction hashes in the same order, hence the same transactions if a hash stands for one transaction |
| `SigChains.VerifySigChainSignatures` | por/sigchain.go:92-148 | Accepts exactly the chains whose every element is signed, or hashed, with the key and hash the element before it fixes, and whose VRF proofs verify |
| `SigChainSoundness.VerifiedIsAttested` | por/sigchain.go:92-148 | Accepts exactly the chains that a walk from the source attests: at every element the key named before is good, has signed the digest over everything before, or the element repeats it, and the VRF value is proven |
| `SigChainSoundness.ChainIsBound` | por/sigchain.go:92-148 | With injective hashes and signatures that fit one message, two accepted chains of one source key with the same signatures agree on the metadata and every ID, next key, mining flag and VRF value |
| `SigChainSoundness.TamperedIsRefused` | por/sigchain.go:113-129 | Then changing the ID, next key, mining flag or VRF value of any element of an accepted chain makes the verifier refuse it |
| `SigChainSoundness.TamperedMetaIsRefused` | por/sigchain.go:94-100 | So does changing the metadata other than the source key |
| `SigChainSoundness.VrfIsForced` | por/sigchain.go:131-136 | With a VRF that has one provable value, a relay's value is the one its key gives for the chain's block |
| `SigChainSoundness.BadProofIsRefused` | por/sigchain.go:131-136 | A chain with a VRF value whose proof does not verify is refused |
| `SigChains.LastRelayHash` | pb/sigchain.go:270-297 | The hash the last relay signed, or an error exactly for an incomplete chain |
| `RelayProtocol.RoundTrip` | lnode/relay.go:218-261 | For a path of any length, with anything happening in between that leaves the journey's records alone: forwarding and then backtracking gives a complete chain of one element per hop and two ends that verifies, and its last relay hash is the hash the last hop forwarded |
| `RelayProtocol.ForwardLeavesTrail` | por/porserver.go:200-239 | When the message arrives every hop holds its record and the source chain is cached |
| `RelayProtocol.ReturnsAll` | por/porserver.go:610-655 | Elements come back in order, each reply naming the hop and hash before it |
| `RelayProtocol.WholeVerifies` | por/sigchain.go:92-148 | The assembled chain passes the verifier |
| `RelayProtocol.RetracesHashes` | pb/sigchain.go:270-297 | Walking the assembled chain gives the hashes the message carried |
| `RelayRuns.BusyRoundTrip` | lnode/relay.go:218-261 | The same with every server taking any other steps in between, as long as none hands back a record of this journey or pops its source chain; the first hop completes exactly the chain that verifies |
| `RelayRuns.ActionUndisturbs` | por/porserver.go:200-691 | Every step of any server that does not do so leaves the journey's records and source chain alone |
| `RelayRuns.BacktracksOnce` | por/porserver.go:610-665 | Over any run of a server, once a hash has been handed back every later attempt on it stops and changes nothing, whoever asks |
| `RelayRuns.CompletesOnce` | por/porserver.go:668-685 | Over any run a server completes a chain once: before it completes one with the same signature again a client has opened it again |
| `RelayRuns.HandsBackItsOwn` | por/porserver.go:610-657 | Over any run from empty caches a server hands back only what it relayed itself, to the neighbour it relayed to, once the block is final, as an element its own key vouches for, and completes only chains a client opened with it |
| `RelayRuns.ConnectingOpens` | por/porserver.go:241-261 | A client's chain is cached from the moment it connects, unless its signature was seen before |
| `RelayServer.PorServer.CreateSigChainForClient` | por/porserver.go:241-261 | The source chain, cached under its signature unless one is there |
| `RelayServer.PorServer.UpdateRelayMessage` | por/porserver.go:200-239 | The record cached and the message passed on |
| `RelayServer.PorServer.BacktrackSigChain` | por/porserver.go:610-655 | The reply, or the error of the first failed check |
| `RelayServer.PorServer.BacktrackSigChainSuccess` | por/porserver.go:659-665 | Marks the record and nothing else |
| `RelayServer.PorServer.PopSrcSigChainFromCache` | por/porserver.go:668-685 | Returns and removes the source chain |
| `RelayServer.PorServer.FinalizeBlock` | por/porserver.go:687-691 | The finalizing step of the server runs, after which no record of the block is refused because the block is not final |
| `RelayServer.PorServer.BacktrackHop` | lnode/relay.go:218-261 | Passes the elements on or completes the chain; the record is marked only on success, and a source chain leaves the cache either way |
| `SigHash.RightShiftBytes` | pb/sigchain.go:336-361 | The bytes left in place by any shift, right or left |
| `SigHash.ShiftedRightValue` | pb/sigchain.go:336-346 | A right shift by n is floor division of the big-endian number by 2^n |
| `SigHash.ShiftedLeftValue` | pb/sigchain.go:347-360 | A left shift multiplies by the largest power of two, up to the one asked for, that loses no bit |
| `SigHash.ShiftedIsMonotone` | pb/sigchain.go:336-361 | Shifting further right never gives a larger number, across zero too |
| `SigHash.LexIsValueOrder` | por/porserver.go:130-130 | Byte strings of one length compare as the numbers they are |
| `SigHash.ComputeSignatureHash` | pb/sigchain.go:325-334 | The score of a digest, chain length, height and penalty |
| `SigHash.ScoreIsMonotone` | pb/sigchain.go:325-334 | A longer chain never scores worse and a larger penalty never better; past the limit length stops counting |
| `SigHash.NextElement` | pb/sigchain.go:325-334 | While the shift is to the right each further element divides the score by 256, by 16 before height 2651000, and by nothing from 18, 16 or 14 elements on at heights 2651000, 2633000 and 2543000 |
| `SigHash.NoElements` | pb/sigchain.go:325-334 | Without elements and penalty the score is the digest |
| `SigHash.PenaltyHalves` | pb/sigchain.go:333-333 | While the shift is to the right the score at one bit of penalty less is the score halved |
| `SigHash.LongerWins` | pb/sigchain.go:325-334 | Below the limit a longer chain on one digest has a smaller signature hash, unless the shorter one's is already zero |
| `SigChainPath.VerifySigChainMeta` | por/sigchain.go:32-89 | Accepts exactly the chains with proper ends, VRF placement and signature algorithm |
| `SigChainPath.VerifySigChainPath` | por/sigchain.go:150-164 | Accepts exactly the routes on which every hop at least halves the distance left |
| `SigChainPath.PathIsShort` | por/sigchain.go:150-164 | An accepted route has at most 257 relays, all different |
| `SigChainPath.LongestPath` | por/sigchain.go:150-164 | The bound is reached |
| `SigChainPath.AcceptedChainIsShort` | por/sigchain.go:32-35 | A chain passing both checks has 3 to 259 elements and no relay twice |
| `SigChainPath.AcceptedEnds` | por/sigchain.go:32-90 | In a chain that passes, only relays mine or carry a VRF value, and the ends belong to source and destination and not to their neighbours |
| `SigChainPath.ScoreStandsForChain` | pb/sigchain.go:270-297 | From height 1200000 on, accepted chains of one source and length with the same last relay hash agree on the metadata, the source's element and every relay |
| `SigChainPath.HashBindsRelays` | pb/sigchain.go:270-297 | The hash before an element determines every relay before it and the source's signature |
| `SigChainPath.JourneyPassesMeta` | por/sigchain.go:32-90 | The chain a journey brings back passes, when its hops sign as they do for a block of that height |
| `CandidateCache.Up` | por/porserver.go:455-461 | The heap after moving an element up to its place |
| `CandidateCache.PorCache.ShouldAddSigChain` | por/porserver.go:371-390 | Exactly the offers in the height window that beat the last slot |
| `CandidateCache.PorCache.Place` | por/porserver.go:451-469 | Pushes, overwrites the last slot of a full heap, or starts a heap |
| `CandidateCache.PorCache.AddSigChainFromTx` | por/porserver.go:413-477 | The caches after an offer, keys kept by a failed one included |
| `CandidateCache.PorCache.GetMiningSigChainTxnHash` | por/porserver.go:263-321 | The first cached transaction of the heap, or zero |
| `SigChainPool.InsertedFacts` | por/porserver.go:451-469 | Insertion keeps heap order and size 8, invents no member, and leaves the smaller of old root and newcomer on top |
| `SigChainPool.InsertedHolds` | por/porserver.go:451-469 | A heap with a newcomer holds all it held and the newcomer, which replaces the last of eight |
| `SigChainPool.RunKeysUnique` | por/porserver.go:436-469 | Over any run, whatever collides, no two candidates kept share a transaction, signature or short hash |
| `SigChainPool.WindowIsThree` | por/porserver.go:371-390 | Until heights wrap, a chain is cached exactly for the third to fifth block from the current one |
| `SigChainPool.RunIsOk` | por/porserver.go:413-477 | After any sequence of offers without colliding keys every heap is ordered, holds 1 to 8 candidates of its height, and its root is no worse than any candidate ever offered |
| `SigChainPool.WinnerIsBest` | por/porserver.go:263-321 | The winner is a candidate with the least signature hash of all, rejected and evicted ones included |
| `SigChainPool.NoCandidateNoWinner` | por/porserver.go:263-321 | No candidate, no winner |
| `SigChainPool.RootIsBestUnseen` | por/porserver.go:413-477 | Whatever collides, the winner has the least signature hash of all candidates that ever met caches without their keys, and is one of them |
| `SigChainPool.BestWinsIffUnseen` | por/porserver.go:436-449 | The strictly best candidate of a height is in the heap and wins if and only if one of its offers met caches that held none of its three keys |
| `SigChainPool.WinnerIgnoresOrder` | por/porserver.go:263-321 | Nodes that saw the same candidates in any order name the same winner when signature hashes differ |
| `SigChainPool.ShortHashCollisionLosesBest` | por/porserver.go:436-449 | With a colliding short hash the strictly best candidate can lose |
| `TxLists.OffsetIsSearch` | chain/pool/txlist.go:175-190 | Looking up by nonce difference finds exactly what a linear search finds |
| `TxLists.SubmittedKeeps` | chain/pool/txpool.go:344-377 | A submission keeps hashes distinct and nonces consecutive exactly when it does not append past the largest nonce |
| `TxLists.SubmittedIsFound` | chain/pool/txpool.go:344-377 | After a success the nonce finds the submitted transaction, every other nonce what it found before, and the list is longer exactly if the nonce was new |
| `TxLists.SubmittedOutcome` | chain/pool/txpool.go:344-377 | When a submission succeeds, and which error it gets otherwise |
| `TxLists.SubmittedStays` | chain/pool/txpool.go:344-377 | Over any run a submitted transaction stays findable until its nonce is submitted again or cleaned, or it is dropped |
| `TxLists.RemovedKeepsLater` | chain/pool/txlist.go:90-112 | Removing up to a nonce leaves every later one in place |
| `TxLists.DroppedIsLast` | chain/pool/txlist.go:114-132 | A drop that names the last transaction, or none, takes exactly that one; any other takes nothing |
| `TxLists.RemovedIsExact` | chain/pool/txpool.go:595-609 | After removal only later nonces remain exactly when fewer than 65536 entries had to go |
| `TxLists.FullPopRemovesNothing` | chain/pool/txpool.go:595-609 | When 65536 entries have to go, none goes |
| `TxLists.AfterKeeps` | chain/pool/txlist.go:76-190 | A submission, removal or drop keeps the list within capacity, and in order exactly when it does not append after the largest nonce |
| `TxLists.RunIsOrdered` | chain/pool/txlist.go:76-190 | After any sequence of such operations none of which appends after the largest nonce, the list is ordered, within capacity, and lookups equal searches |
| `TxLists.RunBelowTopIsOrdered` | chain/pool/txlist.go:76-190 | So it is after any sequence of operations that does not submit the largest nonce |
| `PoolRuns.PoolFollowsLedger` | chain/pool/txpool.go:288-377 | However submissions, drops, saved blocks and the removal of their transactions one by one interleave, whenever the pool has been told of every saved block an account's pending nonces run consecutively from the ledger's nonce, as a proposer needs |
| `PoolRuns.StaysAligned` | chain/pool/txpool.go:572-639 | At any moment of such a run the list is within capacity and starts at the nonce of a transaction not yet removed, or right after the last |
| `PoolRuns.NoncesStayInRange` | chain/store/account.go:361-367 | On every accepted chain every stored nonce is a uint64 |
| `TxLists.WrapBreaksOrder` | chain/pool/txpool.go:353-367 | At the largest nonce the expected nonce wraps and the list goes out of order |
| `NonceLists.NonceSortedTxs.Push` | chain/pool/txlist.go:76-88 | Appends to index and map; they stay in step exactly when the hash is new |
| `NonceLists.NonceSortedTxs.PopN` | chain/pool/txlist.go:90-112 | Returns and removes exactly the first n |
| `NonceLists.NonceSortedTxs.Drop` | chain/pool/txlist.go:114-132 | Removes exactly the last transaction, if it is the one named |
| `NonceLists.NonceSortedTxs.GetByNonce` | chain/pool/txlist.go:175-190 | Returns what a linear search returns |
| `NonceLists.NonceSortedTxs.Replace` | chain/pool/txlist.go:154-173 | Replaces exactly the transaction with the nonce, or nothing; index and map stay in step exactly when no other entry has the new hash |
| `NonceLists.NonceSortedTxs.Submit` | chain/pool/txpool.go:344-377 | Rejects, replaces or appends as the model does, and keeps the list in order exactly unless it appends past the largest nonce |
| `NonceLists.NonceSortedTxs.RemoveUpTo` | chain/pool/txpool.go:595-609 | Pops the prefix up to a nonce, count cut to 16 bits |
| `Fingerprints.RunIsOk` | chain/pool/txwithtime.go:35-148 | After any sequence of operations the count is the number of entries and the fingerprint, if any, the XOR of their hashes |
| `Fingerprints.AfterHolds` | chain/pool/txwithtime.go:35-99 | Which transactions are held after each operation |
| `Fingerprints.XorIgnoresOrder` | chain/pool/txwithtime.go:22-44 | The XOR depends on the hashes present only |
| `Fingerprints.SameSetSameFingerprint` | chain/pool/txwithtime.go:206-214 | Pools with the same transactions, however they came by them, show the same count, and the same fingerprint if and only if both or neither ever inserted |
| `Fingerprints.FingerprintIffInserted` | chain/pool/txwithtime.go:35-98 | A pool shows a fingerprint exactly when something was ever appended or replaced |
| `Fingerprints.EmptiedIsNotFresh` | chain/pool/txwithtime.go:35-44 | An emptied map shows zeros where a fresh one shows nothing |
| `Fingerprints.ExpiryIsExact` | chain/pool/txwithtime.go:101-128 | Expiry drops only expired entries, and all of them exactly when they were all inserted first |
| `Fingerprints.ClockBackKeepsExpired` | chain/pool/txwithtime.go:101-128 | When the clock goes back between two appends, an expired entry is kept |
| `Fingerprints.RunInOrder` | chain/pool/txwithtime.go:47-70 | With a clock that never goes back, entries stay in order of arrival |
| `Fingerprints.ExpiryByClock` | chain/pool/txwithtime.go:101-128 | With such a clock expiry leaves exactly the entries that are not too old |
| `RecentTxns.XorBytes` | chain/pool/txwithtime.go:22-32 | XORs the second slice into the first, in place, or refuses slices of different lengths and changes nothing |
| `RecentTxns.RecentPool.UpdateTwtFingerprint` | chain/pool/txwithtime.go:35-44 | The fingerprint after one hash |
| `RecentTxns.RecentPool.AppendTwt` | chain/pool/txwithtime.go:47-70 | Adds an entry, count and hash unless the hash is there |
| `RecentTxns.RecentPool.RemoveTwt` | chain/pool/txwithtime.go:73-86 | Removes an entry, count and hash if it is there |
| `RecentTxns.RecentPool.ReplaceTwt` | chain/pool/txwithtime.go:89-98 | Removes one and appends another |
| `RecentTxns.RecentPool.RemoveFromTwtMap` | chain/pool/txwithtime.go:131-148 | Removes a list of hashes, counting once at the end |
| `RecentTxns.RecentPool.RemoveExpiredTwt` | chain/pool/txwithtime.go:101-128 | Removes and returns the expired prefix |
| `Persistence.RollbackUndoesSave` | chain/store/rollback.go:15-161 | Rolling back the block just saved restores database, tip and state root |
| `Persistence.SavedReadsBack` | chain/store/store.go:439-564 | What a save wrote is read back: header by height, every transaction with its height, the donation, tip and root |
| `Persistence.SavedKeepsReads` | chain/store/store.go:281-317 | Other heights, headers and donations read as before |
| `Persistence.SavedKeepsTxn` | chain/store/store.go:337-351 | So do other transactions |
| `Persistence.RollbackIsExact` | chain/store/rollback.go:15-161 | It does so if and only if the block's own entries are new and it extends the tip the database describes |
| `Persistence.SaveMovesTip` | chain/store/store.go:543-572 | A saved block is the tip the next one extends |
| `Persistence.RollbackUndoesRun` | chain/store/store.go:439-572 | Saving any number of linked blocks with new entries and rolling back newest first restores everything |
| `ChainOnDisk.SavesAlike` | chain/store/store.go:439-572 | An accepted block goes to disk if and only if the ledger takes it |
| `ChainOnDisk.AcceptedIsFresh` | chain/blockvalidator.go:503-510 | Every entry an accepted block writes is new, if its header hash is |
| `ChainOnDisk.ChainRollsBack` | chain/store/rollback.go:15-161 | Every accepted chain, from genesis and with distinct header hashes, goes to disk, ends at its last block's state root, and rolls back to exactly the disk after genesis |
| `ChainOnDisk.ChainReadsBack` | chain/store/store.go:281-371 | On the disk of every accepted chain each height leads to its block's hash and header, each of its transactions is stored with that height, and each recorded donation is found |
| `BlockStore.ChainStore.BatchCommit` | chain/store/store.go:552-555 | The database after a batch, in whatever order its keys are written |
| `BlockStore.ChainStore.SaveBlock` | chain/store/store.go:439-572 | The database and tip after saving, or the error and no change |
| `BlockStore.ChainStore.Rollback` | chain/store/rollback.go:15-77 | The database and tip after rolling back, or the error and no change |
| `TrieEncoding.DecodeNibbles` | chain/trie/encoding.go:26-30 | Packs nibble pairs into the tail of a buffer |
| `TrieEncoding.HexToCompact` | chain/trie/encoding.go:9-24 | The compact form of a nibble string |
| `TrieEncoding.CompactToHex` | chain/trie/encoding.go:32-40 | The nibble string of a compact form |
| `TrieEncoding.KeyBytesToHex` | chain/trie/encoding.go:42-51 | The nibbles of a key and the terminator |
| `TrieEncoding.HexToKeyBytes` | chain/trie/encoding.go:53-63 | The key of an even nibble string |
| `TrieEncoding.KeyRoundTrip` | chain/trie/encoding.go:42-63 | Every key survives |
| `TrieEncoding.KeysArePrefixFree` | chain/trie/encoding.go:42-52 | No key written as nibbles with the terminator begins another |
| `TrieEncoding.HexRoundTrip` | chain/trie/encoding.go:9-40 | Every nibble string survives, odd or even, with or without terminator |
| `TrieEncoding.CompactRoundTrip` | chain/trie/encoding.go:9-40 | Decoding and encoding again gives back exactly the well-formed compact keys |
| `TrieEncoding.PaddingIsLost` | chain/trie/encoding.go:32-40 | Padding that is not zero does not come back |

## Left out

- ExpiryRuns.ExpiryIndexAgrees: for chains none of whose subscriptions has an expiry height beyond the uint32 limit; one that has expires before its own block (`ExpiryRuns.ExpiryIsLater`).
- ChainRuns.SupplyConserved: for chains without a registration fee out of range whose uncharged nano-pay fees do not lift what is held above 8 * 10^9 coins; eleven times as much, which the donation is computed from, is still an int64.
- ChainRuns.BalancesStayInRange: for the same chains.
- BlockExecution.ValidatedExecutes: for blocks with a registration fee out of range only the necessary half is stated; `LegacyNames.ValidatedFails` shows that the other half fails at every height at which there are such blocks.
- LedgerHistory.BalancesAddUp: for the same chains, none of whose subscription expiries wraps.
- Acceptance.AcceptedExactly: for blocks and balances in range; `Acceptance.AcceptedGuarantees` states what holds of every accepted block.
- SubscriptionLimit.LimitHolds: the condition on spellings is sufficient; that a block with two spellings exceeds the limit depends on how many subscribe.
- BvsMarks.RunMarksExact: for runs in which no name is transferred; `BvsMarks.CleanKeepsMarksIff` is the exact condition step by step.
- SigChainSoundness.ChainIsBound: the hash functions are assumed injective and a signature to fit one message under a key, as they are only computationally.
- BvsExactness.RunIsExact: for payable transactions, which `BvsExactness.TakenBackIffPayable` shows to be the ones that can be taken back, and balances of at most 8 * 10^9 coins.
- ChainProgress.ChainNeverStuck: for chains whose coinbases carry no fee, as nodes create them, and whose registration fees are in range; with coinbase fees the donation account may hold less than the recorded donation, and `LegacyNames.RegistrationStopsChain` shows what other registration fees do.
- NonceRuns.NonceDiscipline: leaves out the donation address, which is the subject of `NonceRuns.DonationNonce`.
- Mining.BuildBlock: the coinbase, the signature chain transaction and the pool lists are inputs with the properties their makers give them, of which `PoolRuns.PoolFollowsLedger` proves the nonces; cancellation is not modelled.
- PoolRuns.PoolFollowsLedger: for one account and its ordinary transactions, while fewer than 2^64 of them wait to be removed; the re-verification of the pool after an inconsistency is not modelled.
- RelayProtocol.RoundTrip: the network may do anything between two steps that leaves this journey's records alone, which `RelayRuns.ActionUndisturbs` proves of every other step; cache expiry is not modelled.
- SigChainPool.WinnerIsBest: for runs without colliding keys, as are SigChainPool.RunIsOk and SigChainPool.WinnerIgnoresOrder; `SigChainPool.RootIsBestUnseen` and `SigChainPool.BestWinsIffUnseen` state what holds with collisions. Objections and cache expiry are not modelled.
- SigChainPath.VerifySigChainPath: the finger table range check after the loop is not modelled; it only rejects more.
- Proposals.RequestProposal: timestamp, signer and signature checks are one parameter, and the local pools are assumed to be keyed by the hashes they are asked for.
- Persistence.RollbackUndoesRun: header and signature chain caches, trie nodes and reference counts are not modelled; a batch is the map of its last writes.
- BlockStore.ChainStore.SaveBlock: fast sync and pruning are not modelled; what executing the block gives is an input, which `ChainOnDisk` takes from the ledger.
- StateDatabase.StateDB.SpendTransaction: names, node IDs and asset metadata are not part of the state; the account overlay and its trie are one map.
- Name registration and its expiry index, whose entries are added and cancelled under different keys.
- `RefreshBlockValidationState`, `DropTxns`, pool-wide counters and nano-pay replacement in the pool.
- Penalties themselves (`skipCount`, recent miners) and the choice of the miner within a chain; the score is proved as a function of the penalty.
- Voting, header checks, networking, serialisation, timers, locks and goroutines.
