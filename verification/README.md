# Gravity SDK: consensus, selection and execution hand-off

A Dafny model of the hard core of the Gravity node: how votes become certificates and
certificates become one chain, how transactions are selected and handed to execution,
and a handful of smaller state machines around them.

## What is modelled

- **Agreement.** `ConsensusTypes`, `Quorum`, `SafetyRules`, `PendingVotes`,
  `PendingOrderVotes` are the pieces of a validator. `Network` puts any number of them,
  with any weights, into one epoch together with faulty validators that sign anything.
  `Agreement` says what correct signatures imply, `NetworkRuns` that every run keeps it.
  The main theorem is `NetworkRuns.OneChain`: whatever was finalized anywhere, by the
  two-chain commit rule or by order votes, lies on one chain. That correct validators vote
  once per round and do not order-vote after timing out is derived from the safety rules.
- **One node's rules and tables.** `SafetyAnswers` says when the rules sign and what others
  then accept. `VoteRuns`, `VoteHistory` and the second half of `PendingOrderVotes` hold for
  every sequence of deliveries, with no assumption on who is faulty.
- **Transactions.** `Mempool` and `MempoolRuns` (budgeted selection over a cached iterator,
  one call and successive calls),
  `ExecutionCache` (the cache that selection fills and block pushing consumes), `Deduper`,
  `PayloadManager` (fetching batches with retries and overlapping callers).
- **Around them.** `BlockIndex` (index rebuild with early exit), `Whitelist` (sliding
  alert window), `Recovery` (descendants of the root in one pass), `Relayer` (oracle
  polling), `Ether` (decimal amounts).

Code that updates fields is a class whose methods are proved equal to a pure step; the
theorems about runs are lemmas over sequences of those steps.

## Assumptions and parameters

- Hashes are collision free and represented by the value hashed; the zero hash is not the
  hash of vote data. An author's signature verifies exactly when that author signed.
- Faulty power is at most `T - q` with `3q > 2T` (`Quorum.FaultBound`); for the standard
  threshold this is "less than a third" (`Quorum.StandardMeetsFaultBound`).
- Quorum and aggregate verification reject unknown authors and sets below the quorum;
  the validator verifier itself is not part of this model. Whether signature shares
  aggregate is the parameter `aggregates`.
- The block store supplies only the epoch's genesis as a round-zero block, timeout
  certificates of the epoch (`aptos-core/consensus/consensus-types/src/sync_info.rs:139-149`),
  and a highest ordered round that never falls.
- The proposer's signature and the timestamp, payload and failed-author checks of a proposal
  are the parameter `otherChecks`.
- Encoding, decoding, signer recovery and hashing of transactions are a `Codec`; decoding
  undoes encoding, the hash of a transaction is the hash of its encoding, and the pool
  yields transactions with their true sender.
- The rows of an epoch come from the database in key order. Clocks, the pool iterator, batch arrival, poll results, on-chain nonces, regular
  expressions and the number parser on non-decimal strings are parameters.

## Where code and comments differ

- The five-minute alert window compares whole seconds with 300, so a match counts until
  just before 301 seconds. A negative threshold other than -1 wraps to a large unsigned
  number (`bin/sentinel/src/whitelist.rs:146-160`).
- An empty selection also forgets the last nonces (`bin/gravity_node/src/mempool.rs:270-276`).
  A zero budget therefore drops an iterator that still holds items, and the next call starts
  over; `MempoolRuns.LosesNothingIff` gives the exact condition.
- `RecoveryData::new` sets an empty prune list and does not call `find_blocks_to_prune`
  (`aptos-core/consensus/src/persistent_liveness_storage.rs:363`); the pass is proved as written.
- The relayer remembers a poll before the committed-nonce guard is applied, so what it
  re-sends is the unguarded result; `Relayer.ResendIff` shows why that is still safe.
- The deduper documents no condition; it needs one, stated in `Deduper.FastFormIsNaiveIff`.

## Model

| member | source | states |
|---|---|---|
| `NetworkRuns.OneChain` | aptos-core/consensus/safety-rules/src/safety_rules_2chain.rs:54-205 | In every run, with faulty power at most T - q, any two blocks that quorums finalized (by the two-chain commit rule or by order votes) lie on one chain; in the same round they are the same block. |
| `NetworkRuns.OrderedCertificatesAgree` | aptos-core/consensus/src/round_manager.rs:1127-1204 | Ordered certificates formed by any two correct nodes name blocks on one chain, and for one round the same ledger info. |
| `NetworkRuns.NodesCertifyTheSame` | aptos-core/consensus/src/pending_votes.rs:108-214 | Quorum certificates that two correct nodes' own vote tables returned for one round carry the same ledger info and vote data, whatever the order, loss and repetition of messages. |
| `NetworkRuns.QuorumCertificatesAgree` | aptos-core/consensus/src/block_storage/block_tree.rs:361-376 | Any two certificates of the epoch and round that verify against the signatures of a run certify the same block; this is the invariant the block tree only asserts. |
| `NetworkRuns.RunKeepsInv` | aptos-core/consensus/safety-rules/src/safety_rules_2chain.rs:22-120 | The invariant behind the agreement results (correct signers keep the rules, tables hold only existing signatures, produced certificates verify) holds in every reachable state. |
| `NetworkRuns.StepKeepsHonesty` | aptos-core/consensus/safety-rules/src/safety_rules_2chain.rs:22-120 | Each vote, timeout, order vote, receipt, round change or forgery keeps: one vote per round, certified parents, justified rounds, and timeouts that admit to earlier votes and order votes. |
| `NetworkRuns.NewVoteKept` | aptos-core/consensus/safety-rules/src/safety_rules_2chain.rs:54-96 | A vote the safety rules newly sign has a parent that is the genesis or certified by a quorum, and a round that follows it directly or after a quorum of timeouts that saw nothing higher. |
| `NetworkRuns.SignVote` | aptos-core/consensus/safety-rules/src/safety_rules.rs:191-205 | Signing a vote above every earlier vote and timeout keeps the per-validator invariant. |
| `NetworkRuns.SignOneTimeout` | aptos-core/consensus/safety-rules/src/safety_rules_2chain.rs:22-52 | Signing a timeout whose certified round is at least the one-chain round keeps the per-validator invariant. |
| `NetworkRuns.SignOrderVote` | aptos-core/consensus/safety-rules/src/safety_rules_2chain.rs:98-120 | Signing an order vote above the highest timeout round keeps the per-validator invariant. |
| `NetworkRuns.VoteInserted` | aptos-core/consensus/src/pending_votes.rs:108-271 | Inserting a verified vote keeps every recorded signature backed by a real one, and the quorum or timeout certificate it returns verifies for any other node. |
| `NetworkRuns.OrderVoteInserted` | aptos-core/consensus/src/pending_order_votes.rs:56-129 | Inserting a verified order vote keeps the table backed by real signatures, and the certificate handed on carries a verified quorum. |
| `Agreement.FinalBlocksOnOneChain` | aptos-core/consensus/safety-rules/src/safety_rules_2chain.rs:181-205 | Of two final blocks the one in the later round extends the other. |
| `Agreement.CertifiedExtendsFinal` | aptos-core/consensus/safety-rules/src/safety_rules_2chain.rs:143-171 | Every block certified at or after the round of a final block extends it. |
| `Agreement.CertifiedExtendsOrdered` | aptos-core/consensus/safety-rules/src/safety_rules_2chain.rs:143-171 | Every block certified at or after the round of a block with a quorum of order votes extends that block. |
| `Agreement.CertifiedExtendsCommitted` | aptos-core/consensus/safety-rules/src/safety_rules_2chain.rs:143-162 | Every block certified at or after the round of a block committed by a child in the next round extends it. |
| `Agreement.OrderedIsAnchored` | aptos-core/consensus/safety-rules/src/safety_rules_2chain.rs:122-171 | After a quorum of order votes, every quorum of timeouts in that round or later admits to a certificate at least as high. |
| `Agreement.CommittedIsAnchored` | aptos-core/consensus/safety-rules/src/safety_rules_2chain.rs:122-141 | After a quorum of votes for a block, every quorum of timeouts in its round or later admits to a certificate at least as high as its parent. |
| `Agreement.CertifiedOncePerRound` | aptos-core/consensus/src/block_storage/block_tree.rs:361-376 | Two blocks certified in one round are equal. |
| `Agreement.VerifiedQcMeansCertified` | aptos-core/consensus/consensus-types/src/quorum_cert.rs:115-142 | A certificate past round zero that verifies means a quorum voted for exactly its block with exactly the ledger info correct voters sign. |
| `Agreement.VerifiedTcMeansTimeouts` | aptos-core/consensus/consensus-types/src/timeout_2chain.rs:130-168 | A timeout certificate that verifies means a quorum timed out in its round with certified rounds no higher than it states. |
| `SampleRun.OrderedAlone` | aptos-core/consensus/src/round_manager.rs:1087-1204 | The assumptions are satisfiable: a concrete run in which a block is voted for, certified, order-voted and ordered. |
| `SampleRun.VotedAfterTimeout` | aptos-core/consensus/safety-rules/src/safety_rules_2chain.rs:143-162 | A concrete run in which a validator times out and then votes, on the timeout certificate, for a block that skips the round. |
| `Quorum.QuorumsShareHonest` | aptos-core/consensus/src/pending_votes.rs:191-204 | Two sets that pass the quorum check share a correct validator. |
| `Quorum.HonestMember` | aptos-core/consensus/src/pending_votes.rs:255-264 | A set with more power than the faulty validators has a correct member. |
| `Quorum.Overlap` | aptos-core/consensus/src/pending_votes.rs:191-204 | The common power of two sets is at least the sum of their powers less the total, with weights. |
| `Quorum.PowerAddsUp` | aptos-core/consensus/src/pending_votes.rs:191-204 | Power is the sum of weights: with distinct authors, one more validator adds exactly its own. |
| `Quorum.PowerChecked` | aptos-core/consensus/src/pending_votes.rs:191-214 | The quorum check reports an unknown author, enough power or too little exactly then, with the exact power. |
| `SafetyRules.SafetyRules.ConstructAndSignVoteTwoChain` | aptos-core/consensus/safety-rules/src/safety_rules_2chain.rs:54-96 | Signs and records a vote, returns the recorded vote of the same round, or refuses with the matching error and unchanged data, as `VoteOn` says. |
| `SafetyRules.SafetyRules.SignTimeoutWithQc` | aptos-core/consensus/safety-rules/src/safety_rules_2chain.rs:22-52 | Signs a timeout and raises the last voted and highest timeout rounds, or refuses with unchanged data, as `TimeoutOn` says. |
| `SafetyRules.SafetyRules.ConstructAndSignOrderVote` | aptos-core/consensus/safety-rules/src/safety_rules_2chain.rs:98-120 | Signs an order vote and raises the one-chain data, or refuses with unchanged data, as `OrderVoteOn` says. |
| `SafetyAnswers.VoteSignedIff` | aptos-core/consensus/safety-rules/src/safety_rules_2chain.rs:54-96 | A vote is given if and only if the proposal and the timeout certificate verify and the round was voted in already, or lies above the last voted round and follows the parent, or the timeout certificate with a parent at least as high as it saw; 64-bit increments included. |
| `SafetyAnswers.VoteRefusals` | aptos-core/consensus/safety-rules/src/safety_rules_2chain.rs:54-162 | Which error each refused vote gives, in the fields of proposal, certificates and stored data. |
| `SafetyAnswers.VoteEffect` | aptos-core/consensus/safety-rules/src/safety_rules_2chain.rs:64-95 | A repeated vote changes nothing; a new one names block and parent, commits the parent exactly when the rounds are consecutive, and raises the stored rounds to those of block and certificate. |
| `SafetyAnswers.TimeoutSignedIff` | aptos-core/consensus/safety-rules/src/safety_rules_2chain.rs:22-52 | A timeout is signed if and only if it verifies, follows its certificate or the timeout certificate, admits to the one-chain round and is not below the last voted round; the stored rounds after it. |
| `SafetyAnswers.TimeoutRefusals` | aptos-core/consensus/safety-rules/src/safety_rules_2chain.rs:22-141 | Which error each refused timeout gives. |
| `SafetyAnswers.OrderVoteSignedIff` | aptos-core/consensus/safety-rules/src/safety_rules_2chain.rs:98-171 | An order vote is signed if and only if the block is of the epoch, the certificate is for it and verifies, and its round is above every round timed out in; the stored rounds after it and the errors. |
| `SafetyAnswers.SignedVoteVerifies` | aptos-core/consensus/consensus-types/src/vote.rs:131-155 | A vote the rules newly sign verifies for every node that has the signatures. |
| `SafetyAnswers.SignedTimeoutVerifies` | aptos-core/consensus/consensus-types/src/vote.rs:140-151 | A vote with the timeout its author signed for the same round verifies. |
| `SafetyAnswers.SignedOrderVoteVerifies` | aptos-core/consensus/consensus-types/src/order_vote.rs:70-80 | An order vote the rules sign names the block and verifies. |
| `PendingVotes.PendingVotes.InsertVote` | aptos-core/consensus/src/pending_votes.rs:108-271 | The mutable tables and the answer follow the pure step `Insert`, for every vote and every aggregation outcome. |
| `PendingVotes.PendingVotes.HandleAggregatedQc` | aptos-core/consensus/src/qc_aggregator.rs:44-58 | A certificate comes out exactly when the shares aggregate, for the vote and signers given; if the power seen is that of the signers, it passes quorum verification wherever their signatures do. |
| `PendingVotes.PendingVotes.ProcessDelayedQc` | aptos-core/consensus/src/pending_votes.rs:287-325 | A delayed certificate appears exactly when the table itself holds a quorum for the digest and aggregation succeeds; its signers come from the table. |
| `PendingVotes.PendingVotes.DrainVotes` | aptos-core/consensus/src/pending_votes.rs:327-353 | Hands over both tables, empties them, keeps the per-author votes. |
| `PendingVotes.InsertConsistent` | aptos-core/consensus/src/pending_votes.rs:108-271 | Every insertion keeps the signer sets and the per-author votes saying the same thing, and timeout signatures tied to stored timeout votes with the stored timeout the highest. |
| `VoteRuns.SignerSetsDisjoint` | aptos-core/consensus/src/pending_votes.rs:120-166 | Over every sequence of deliveries, with unlimited equivocation, no author is counted for two ledger infos. |
| `VoteRuns.AtMostOneQuorum` | aptos-core/consensus/src/pending_votes.rs:191-204 | When 2q > T at most one ledger info ever reaches a quorum at a node. |
| `VoteRuns.OneCertifiedLedgerInfo` | aptos-core/consensus/src/pending_votes.rs:191-204 | All certificates a node returns in a whole run of one round name one ledger info. |
| `VoteRuns.CertificateIsRecorded` | aptos-core/consensus/src/pending_votes.rs:271-285 | A returned certificate names the delivered ledger info and exactly the recorded signers, a quorum of validators. |
| `VoteRuns.CertifiedIffQuorum` | aptos-core/consensus/src/pending_votes.rs:148-214 | With validators as authors and successful aggregation, a run certifies a ledger info if and only if its recorded distinct signers weigh a quorum. |
| `VoteRuns.FirstCertificate` | aptos-core/consensus/src/pending_votes.rs:191-204 | Some delivery returned the certificate once the signers weigh a quorum. |
| `VoteRuns.AcknowledgedPower` | aptos-core/consensus/src/pending_votes.rs:191-271 | An acknowledgement reports the exact summed power recorded for the ledger info, always below a quorum. |
| `VoteRuns.DeliveryOrderIrrelevant` | aptos-core/consensus/src/pending_votes.rs:148-191 | Without equivocation the final signer table depends only on the set of delivered votes, not on order, repetition or aggregation outcomes. |
| `VoteRuns.SignersAreVoters` | aptos-core/consensus/src/pending_votes.rs:148-191 | Without equivocation the signers of each ledger info are exactly the authors whose votes for it were delivered. |
| `VoteRuns.TimeoutCertificateIsRecorded` | aptos-core/consensus/src/pending_votes.rs:220-245 | A timeout certificate has a quorum of validators, each with a stored timeout vote and the certified round it signed, and names the largest of those rounds. |
| `VoteRuns.EchoPower` | aptos-core/consensus/src/pending_votes.rs:255-264 | The echo reports the power of the timeout signers, between T - q + 1 and just below q, all with stored timeout votes. |
| `VoteRuns.EchoAtMostOnce` | aptos-core/consensus/src/pending_votes.rs:255-264 | The echo fires at most once in a run. |
| `VoteRuns.EchoSetIsHeard` | aptos-core/consensus/src/pending_votes.rs:255-264 | The set behind an echo meets every quorum and contains a correct validator. |
| `VoteHistory.RepeatAnswers` | aptos-core/consensus/src/pending_votes.rs:120-142 | In every run a vote is answered as equivocation if and only if its author first voted for something else, and as a duplicate if and only if it repeats the first choice and adds no timeout or a timeout came before. |
| `VoteHistory.RunRemembers` | aptos-core/consensus/src/pending_votes.rs:120-148 | In every run the per-author votes are the first choices, with a timeout once one was delivered for that choice. |
| `VoteHistory.SignersAreFirstVoters` | aptos-core/consensus/src/pending_votes.rs:150-191 | In every run, however much is equivocated, the signers of a ledger info are exactly the authors who voted for it first. |
| `VoteHistory.HeardAreTimedOut` | aptos-core/consensus/src/pending_votes.rs:124-132 | While no quorum certificate comes out, the timeout table holds exactly the authors who delivered a timeout for their first choice, also one added to an earlier vote. |
| `VoteHistory.TimedOutAreSenders` | aptos-core/consensus/src/pending_votes.rs:124-132 | Without equivocation those are exactly the authors of delivered votes with a timeout. |
| `VoteHistory.TimeoutCertifiedIff` | aptos-core/consensus/src/pending_votes.rs:220-245 | A timeout certificate is returned if and only if those authors weigh a quorum. |
| `VoteHistory.EchoedIff` | aptos-core/consensus/src/pending_votes.rs:255-264 | The echo fires if and only if at some moment those authors weigh at least T - q + 1 and less than q. |
| `VoteHistory.FreshAnswers` | aptos-core/consensus/src/pending_votes.rs:191-271 | Every answer to a vote that is not a repetition, by the signers and timeout signers then recorded, unknown authors and failed aggregation included. |
| `VoteHistory.TimeoutReplacedIff` | aptos-core/consensus/consensus-types/src/timeout_2chain.rs:223-246 | The timeout kept for the certificate is replaced only by one with a strictly higher certified round, and a signer keeps its first round. |
| `PendingOrderVotes.PendingOrderVotes.InsertOrderVote` | aptos-core/consensus/src/pending_order_votes.rs:56-129 | The mutable table and the answer follow the pure step `InsertOrder`, including completed entries and unknown authors. |
| `PendingOrderVotes.PendingOrderVotes.GarbageCollect` | aptos-core/consensus/src/pending_order_votes.rs:132-141 | Keeps exactly the entries above the highest ordered round, unchanged. |
| `PendingOrderVotes.RoundManager.ProcessOrderVoteMsg` | aptos-core/consensus/src/round_manager.rs:1148-1161 | Skips completed and old ledger infos, inserts the others, and hands a new certificate to the block store. |
| `PendingOrderVotes.RoundManager.ProcessNewRoundEvent` | aptos-core/consensus/src/round_manager.rs:408-409 | A new round collects garbage up to the highest ordered round. |
| `PendingOrderVotes.InsertedAtMostOnce` | aptos-core/consensus/src/round_manager.rs:1148-1161 | Each ledger info reaches the block store at most once in a whole run, although completed entries are forgotten. |
| `PendingOrderVotes.InsertedIffQuorum` | aptos-core/consensus/src/pending_order_votes.rs:56-129 | While its round is open, a ledger info has been handed on if and only if the distinct authors heard from weigh a quorum. |
| `PendingOrderVotes.GarbageIsGone` | aptos-core/consensus/src/round_manager.rs:408-409 | In every run a new round forgets exactly the entries at or below the highest ordered round. |
| `PendingOrderVotes.OrderAnswers` | aptos-core/consensus/src/pending_order_votes.rs:56-129 | Every answer to an order vote, by the authors recorded before it, with the table it leaves. |
| `Mempool.Mempool.BestTxns` | bin/gravity_node/src/mempool.rs:166-278 | The result carries, in order, encoding, sender and nonce of each transaction selected; cached iterator, nonces and transaction cache, with all clock readings, are those of one budgeted pass over the refreshed iterator. |
| `Mempool.Mempool.Fill` | bin/gravity_node/src/mempool.rs:219-267 | The selection loop computes the budgeted pass and files each selected transaction in the cache. |
| `Mempool.Mempool.Consider` | bin/gravity_node/src/mempool.rs:230-253 | The nonce moves for every item in order before the filter is asked, and an item is selected exactly when it is in order and accepted. |
| `Mempool.Mempool.FileTxn` | bin/gravity_node/src/mempool.rs:263-265 | A selected transaction is filed under its own hash with its own time. |
| `Mempool.FiledLast` | bin/gravity_node/src/mempool.rs:263-265 | Of the transactions filed under one hash the last stays, with its own time. |
| `Mempool.FiledElsewhere` | bin/gravity_node/src/mempool.rs:263-265 | Entries under other hashes are left alone. |
| `MempoolRuns.Serve` | bin/gravity_node/src/mempool.rs:166-278 | Calls made one after the other on a mempool leave the iterator of the run, and each batch carries encoding, sender and nonce of what its call pulls. |
| `MempoolRuns.ReturnedNoncesRise` | bin/gravity_node/src/mempool.rs:230-244 | In the batches returned by the calls of a stretch a sender's nonces strictly rise. |
| `MempoolRuns.ReturnedGapsRejected` | bin/gravity_node/src/mempool.rs:230-253 | A nonce missing between two returned transactions of a sender was pulled by a call whose filter, asked with its sender, nonce and hash, refused it. |
| `MempoolRuns.ReturnedPassedFilter` | bin/gravity_node/src/mempool.rs:248-253 | Every returned transaction passed the filter of its call, asked with its sender, nonce and hash. |
| `MempoolRuns.ReturnedDecodes` | bin/gravity_node/src/mempool.rs:166-179 | With a sound codec and genuine pool items, every returned transaction decodes to one with its nonce, from which its sender is recovered. |
| `MempoolRuns.StretchIsOnePass` | bin/gravity_node/src/mempool.rs:203-277 | For every stretch of calls on one iterator, each with its own filter, budgets and clock, the joined batches are one unbounded pass over the items consumed, and these with the items left are all the iterator yields. |
| `MempoolRuns.StretchEndsIff` | bin/gravity_node/src/mempool.rs:204-276 | A call starts a new iterator if and only if the old one has expired or the last batch was empty. |
| `MempoolRuns.WholePoolIff` | bin/gravity_node/src/mempool.rs:270-276 | When an empty batch ends a stretch, all the iterator yields has been offered if and only if nothing was left before that call or both its budgets were positive. |
| `MempoolRuns.LosesNothingIff` | bin/gravity_node/src/mempool.rs:222-276 | No run of calls with given budgets, whatever the pools, filters and clocks, drops an unfinished iterator on an empty batch if and only if every budget is positive. |
| `MempoolRuns.PositiveBudgetsLoseNothing` | bin/gravity_node/src/mempool.rs:203-277 | With positive budgets and no expiry, a new iterator starts only after the batches have become one pass over everything the old one yields. |
| `MempoolRuns.ZeroBudgetRestarts` | bin/gravity_node/src/mempool.rs:270-276 | A pool of two and budgets of one, zero and one: the calls return the first transaction, nothing, and the first again. |
| `MempoolRuns.BudgetsIrrelevant` | bin/gravity_node/src/mempool.rs:203-277 | Under one filter, two ways to split the same consumed items yield the same transactions. |
| `MempoolRuns.GapsWereRejected` | bin/gravity_node/src/mempool.rs:230-253 | Across the calls of a stretch, a nonce missing between two yields of a sender is an item in order between them that the filter of the call that pulled it rejected. |
| `MempoolRuns.StretchNoncesRise` | bin/gravity_node/src/mempool.rs:230-244 | Across the calls of a stretch the nonces yielded for a sender strictly rise. |
| `Mempool.DrainIsPass` | bin/gravity_node/src/mempool.rs:219-267 | One batch is the unbounded pass over exactly the prefix of items it consumed. |
| `Mempool.DrainBudgets` | bin/gravity_node/src/mempool.rs:219-262 | The count is respected, only the last transaction may cross the byte budget, and items are left only if a budget is spent. |
| `Mempool.EmptyBatchMeansDry` | bin/gravity_node/src/mempool.rs:269-276 | An empty batch leaves items behind if and only if there were items and a budget was zero. |
| `Mempool.NeverDiscardsIff` | bin/gravity_node/src/mempool.rs:222-276 | A call never drops an unfinished iterator, whatever it holds, if and only if both budgets are positive. |
| `Mempool.NeighboursConsecutive` | bin/gravity_node/src/mempool.rs:230-244 | Two neighbouring in-order items of a sender have consecutive nonces. |
| `Mempool.AnchoredIff` | bin/gravity_node/src/mempool.rs:230-244 | An item passes the nonce check if and only if its sender has passed none yet or its nonce is one above the last that passed. |
| `Mempool.MissingNonceRejected` | bin/gravity_node/src/mempool.rs:230-253 | A nonce strictly between two yields of a sender is an in-order item strictly between them, yielded between them or rejected by the filter it was offered to. |
| `Mempool.NoncesRise` | bin/gravity_node/src/mempool.rs:230-244 | The nonces yielded for a sender strictly rise. |
| `ExecutionCache.RethCli.PushOrderedBlock` | bin/gravity_node/src/reth_cli.rs:237-291 | With any accesses of others between its removals, senders and transactions, paired, are what each removal finds at its moment and decoding the misses gives. |
| `ExecutionCache.RethCli.TakeHits` | bin/gravity_node/src/reth_cli.rs:241-250 | Each slot holds what the shared map has under its hash at the moment of its removal. |
| `ExecutionCache.RethCli.Remove` | bin/gravity_node/src/reth_cli.rs:243-248 | One atomic removal returns the entry and takes it out. |
| `ExecutionCache.RethCli.DecodeMisses` | bin/gravity_node/src/reth_cli.rs:252-270 | Each empty slot is filled by decode and recover, or stays empty. |
| `ExecutionCache.RethCli.Sweep` | bin/gravity_node/src/mempool.rs:126-132 | Of the swept keys, all or a shard, keeps exactly the entries younger than the time to live, and all others. |
| `ExecutionCache.SelectionFiles` | bin/gravity_node/src/mempool.rs:255-266 | A selection changes the map as its single filings do, so others may act between them. |
| `ExecutionCache.CacheStaysSound` | bin/gravity_node/src/mempool.rs:255-266 | In every trace of single filings, clearings and removals, each entry is keyed by the hash of its own transaction and holds its recovered sender. |
| `ExecutionCache.CacheIsInvisible` | bin/gravity_node/src/reth_cli.rs:237-291 | In every such trace, with any number of pushes and anything between two removals of one block, what a block sends to execution is the in-order decode-and-recover filter of that block alone, with duplicates. |
| `ExecutionCache.HitEqualsDecode` | bin/gravity_node/src/reth_cli.rs:159-174 | A cache hit supplies what decoding and recovering the same bytes supplies. |
| `ExecutionCache.ReferenceJoins` | bin/gravity_node/src/reth_cli.rs:252-291 | What is sent keeps block order: of two parts of a block, first that of the first. |
| `ExecutionCache.ReferenceOfOne` | bin/gravity_node/src/reth_cli.rs:159-174 | A transaction is sent with its recovered signer exactly when it decodes and the signer is recoverable. |
| `ExecutionCache.SweptMeans` | bin/gravity_node/src/mempool.rs:126-132 | A sweep drops exactly the swept entries that are five minutes old or older. |
| `ExecutionCache.FiledIsServed` | bin/gravity_node/src/reth_cli.rs:241-250 | A filed transaction is served to the next removal of its hash unless it was filed again, taken or swept by age meanwhile. |
| `Deduper.Dedup` | aptos-core/consensus/src/txn_hash_and_authenticator_deduper.rs:39-94 | The three phases return everything but flagged transactions whose identity an earlier flagged one had. |
| `Deduper.MarkPossibleDuplicates` | aptos-core/consensus/src/txn_hash_and_authenticator_deduper.rs:41-56 | Marks exactly the transactions whose (sender, sequence number) occurs more than once. |
| `Deduper.DropSeen` | aptos-core/consensus/src/txn_hash_and_authenticator_deduper.rs:74-90 | Drops a hashed transaction exactly when an earlier hashed one had its hash and authenticator. |
| `Deduper.FastFormIsNaiveIff` | aptos-core/consensus/src/txn_hash_and_authenticator_deduper.rs:39-94 | The fast form equals keep-first deduplication by (hash, authenticator) on every input if and only if an equal identity implies an equal (sender, sequence number). |
| `Deduper.FastFormKeepsFirst` | aptos-core/consensus/src/txn_hash_and_authenticator_deduper.rs:39-94 | Under that condition the fast form keeps the first of each identity, in order. |
| `Deduper.KeepFirstMeans` | aptos-core/consensus/src/txn_hash_and_authenticator_deduper.rs:74-90 | Keep-first in the fields: in order, exactly the transactions before which none has the same hash and authenticator. |
| `Deduper.FlaggedMeans` | aptos-core/consensus/src/txn_hash_and_authenticator_deduper.rs:41-56 | Flagged means that another transaction has the same sender and the same sequence number. |
| `Deduper.TwoSlotsOneIdentity` | aptos-core/consensus/src/txn_hash_and_authenticator_deduper.rs:39-94 | Without the condition, two transactions on which the fast form keeps both and the naive form one. |
| `PayloadManager.RequestTransactions` | aptos-core/consensus/src/payload_manager.rs:121-146 | Requests exactly the unexpired batches, in order. |
| `PayloadManager.BatchPointer.Prefetch` | aptos-core/consensus/src/payload_manager.rs:217-231 | Does nothing when a status is stored; otherwise stores the request for the unexpired batches over whatever was stored meanwhile. |
| `PayloadManager.BatchPointer.ProcessPayload` | aptos-core/consensus/src/payload_manager.rs:460-525 | Answers from the cache, or awaits all receivers and caches, or re-requests everything and reports the first failure; an empty cell is an error. |
| `PayloadManager.EverySuccessIsPerfect` | aptos-core/consensus/src/payload_manager.rs:460-593 | Over every interleaving of two-step prefetches, overlapping callers, failures and retries, each success returns the in-order concatenation of the unexpired batches. |
| `PayloadManager.SuccessInOrder` | aptos-core/consensus/src/payload_manager.rs:121-146 | Every success holds, for each batch alive at the timestamp, its content right after the contents of the earlier such batches, and nothing else. |
| `PayloadManager.FailureIsFirst` | aptos-core/consensus/src/payload_manager.rs:484-517 | A wait fails exactly when an awaited batch does not arrive, and reports the first such one. |
| `PayloadManager.AlwaysOnTrack` | aptos-core/consensus/src/payload_manager.rs:460-593 | At all times each status, stored or held by a waiting caller, is the whole unexpired request or the perfect result. |
| `PayloadManager.DeliveryMeansSuccess` | aptos-core/consensus/src/payload_manager.rs:460-525 | When every awaited batch arrives the caller succeeds and the data is cached. |
| `BlockIndex.InitBlockIndex` | crates/api/src/bootstrap.rs:276-310 | With the early exit, every block number maps to what scanning all epochs gives: the greatest epoch that knows it and its first row, nothing outside the window, and genesis for zero. |
| `BlockIndex.EntryMeans` | crates/api/src/bootstrap.rs:276-310 | In the rows of the database: a number has an entry if and only if it is at most 256 behind the latest and is zero or known to an epoch; the entry is genesis, or the first row in the greatest epoch that knows it. |
| `BlockIndex.WindowMeans` | crates/api/src/bootstrap.rs:46 | The window is the latest block and the 256 before it. |
| `BlockIndex.ScanEpoch` | crates/api/src/bootstrap.rs:282-298 | One epoch adds the first row of each window number not yet known. |
| `BlockIndex.NewestIsGreatest` | crates/api/src/bootstrap.rs:282-298 | The reference entry is from the greatest epoch that knows the number. |
| `BlockIndex.WindowFull` | crates/api/src/bootstrap.rs:299-302 | When the index has as many entries as the window has numbers, every number of the window has one, so stopping loses nothing. |
| `Whitelist.Whitelist.Check` | bin/sentinel/src/whitelist.rs:130-169 | Queues and answer follow the pure step `CheckLine`, for any clock. |
| `Whitelist.DecisionFromHistory` | bin/sentinel/src/whitelist.rs:130-169 | With a monotone clock every decision equals the one computed from all past matches whose whole-second age is at most 300. |
| `Whitelist.AlertsIff` | bin/sentinel/src/whitelist.rs:130-164 | A matched line alerts if and only if its rule is not -1 and this line with the past ones of the same file and first rule, less than 301 seconds old, exceed the threshold as 32-bit numbers; the count and priority reported. |
| `Whitelist.AlwaysAlertsIff` | bin/sentinel/src/whitelist.rs:166-168 | A line always alerts if and only if no rule matches it. |
| `Whitelist.QueueShowsHistory` | bin/sentinel/src/whitelist.rs:144-154 | Each queue is sorted and shows the same recent matches as the full history, now and at any later time. |
| `Whitelist.OtherFilesIrrelevant` | bin/sentinel/src/whitelist.rs:138-142 | Without the events of other files the code decides the same, for any clock; with a monotone clock that is the decision from the events of the file alone. |
| `Whitelist.PopIsFilter` | bin/sentinel/src/whitelist.rs:144-151 | Popping expired entries from the front of a sorted queue is filtering it. |
| `Recovery.FindBlocksToPrune` | aptos-core/consensus/src/persistent_liveness_storage.rs:401-429 | The two retain passes and the report are the pure passes `Kept`, `KeptQcs` and `Dropped`. |
| `Recovery.PruneIsExact` | aptos-core/consensus/src/persistent_liveness_storage.rs:401-429 | Over sorted blocks the passes return, in order, exactly the blocks whose parent chain reaches the root and the certificates of the root and those blocks, and report exactly the ids of the other blocks and certificates. |
| `Filters.FilterJoins` | aptos-core/consensus/src/persistent_liveness_storage.rs:411-427 | Retaining keeps order: of two parts of a list, first what the first keeps. |
| `Recovery.KeptIffDescends` | aptos-core/consensus/src/persistent_liveness_storage.rs:411-420 | A block is kept if and only if a chain of stored blocks leads from the root to it. |
| `Recovery.TiesIrrelevant` | aptos-core/consensus/src/persistent_liveness_storage.rs:157-158 | How the (epoch, round) sort breaks ties changes neither the tree nor the report. |
| `Relayer.RelayerWrapper.GetLastState` | bin/gravity_node/src/relayer.rs:303-344 | Re-sends the cached result, or polls, remembers the result as polled and answers it guarded; a failed poll changes nothing. |
| `Relayer.TrackerIsLatestPoll` | bin/gravity_node/src/relayer.rs:79-89 | However calls interleave, the tracker holds exactly the latest successful poll of each provider. |
| `Relayer.ResendIff` | bin/gravity_node/src/relayer.rs:189-199 | A call re-sends the latest poll if and only if it was an update whose nonce is above the on-chain nonce read by the call; otherwise it polls. |
| `Relayer.NeverSurfacesCommitted` | bin/gravity_node/src/relayer.rs:201-230 | No reply marked updated, with both nonces known, carries a nonce at or below the on-chain nonce its call read. |
| `Relayer.NeverSuppressesNew` | bin/gravity_node/src/relayer.rs:208-230 | A polled observation is answered untouched if and only if it is not an update with both nonces known and its nonce at or below the on-chain one; otherwise only its mark changes. |
| `Relayer.UpdatePersists` | bin/gravity_node/src/relayer.rs:189-199 | Until a later poll of its provider completes, an observed update is re-sent to every caller that still reads a lower nonce on chain, and to no other. |
| `Relayer.CacheNeverMissing` | bin/gravity_node/src/relayer.rs:324-336 | The branch that reports a missing cached result is unreachable in every run. |
| `Ether.EtherRoundTrip` | bin/gravity_cli/src/util.rs:5-50 | Parsing a formatted amount gives it back, for every amount below 2^256. |
| `Ether.UnitsRoundTrip` | bin/gravity_cli/src/util.rs:5-50 | The same for any number of decimals and any limit. |
| `Ether.FormatMeans` | bin/gravity_cli/src/util.rs:5-14 | The printed string is an integer part, a point and at most the given decimals, which together denote the amount. |
| `Ether.ParseMeans` | bin/gravity_cli/src/util.rs:17-50 | A decimal string with or without a point is read as the amount it denotes, overflow and excess decimals are errors. |
| `Ether.EtherMeans` | bin/gravity_cli/src/util.rs:17-50 | With eighteen decimals: integers and fractions are read as the wei they denote. |
| `Ether.AmountOfEther` | bin/gravity_cli/src/util.rs:18 | One ether is 10^18 wei. |
| `Ether.EtherLimit` | bin/gravity_cli/src/util.rs:49 | Amounts from 2^256 on overflow. |
| `Ether.OtherParts` | bin/gravity_cli/src/util.rs:43-49 | Parts that are not decimal reach the number parser joined and padded. |
| `Ether.FormatShape` | bin/gravity_cli/src/util.rs:5-14 | The exact string: below one unit a zero and all decimals, from one unit on no leading and no trailing zero. |
| `Ether.EtherShape` | bin/gravity_cli/src/util.rs:5-14 | The same for ether, with eighteen decimals and 10^18 wei. |
| `Ether.ManyDotsRejected` | bin/gravity_cli/src/util.rs:29-32 | Two or more points are an error. |

## Left out

- Epoch changes, reconfiguration and waypoint initialization: the network is one epoch, with signatures of other epochs replayable by anyone.
- Commit votes, the execution pipeline, randomness and the DAG: separate protocols after ordering.
- Block store, round state and sync internals: represented by the assumptions above; a proposal may reference any block whose certificate verifies.
- Progress: no claim that a round ends or that a block is eventually ordered.
- BLS arithmetic, hashing, transaction codecs and the validator verifier: parameters or stated assumptions.
- 64-bit limits other than the round increment: powers, nonces and byte totals are unbounded naturals.
- Crash and restart of a validator: safety data is taken to be persistent and tables to survive within a round.
- Mempool.Mempool.BestTxns: the items an iterator will yield are one list, and it stays dry once it is dry, because live pool updates belong to the pool library; the method is stated for a call during which only it touches the transaction cache, and `ExecutionCache` has the interleavings.
- Payload variants and their composition (inline batches, proofs and optimistic batches together): each batch pointer is modelled alone.
- Root search before pruning: the position and removal of the root and the lookup of its certificate only add easy members.
- Recovery.FindBlocksToPrune: the order of the reported ids is a set, because the source collects a hash set.
- Ether.ParseMeans: lengths are counted in characters where the source counts bytes, which differ only for non-decimal input.
- Relayer registration, URI parsing and configuration files: input handling with no state.
- Metrics, logging, network plumbing, command line tools, probes and notifiers: no hard property.
