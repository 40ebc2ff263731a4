# Hathor node: a verified model

A Dafny model of the parts of the Hathor full node whose correctness depends on whole runs, with
proofs. `dafny verify dfyconfig.toml` covers the whole project.

* **Consensus.** `Dag` holds the graph of blocks and transactions, `BestChain` says what the
  metadata must be as a function of the graph alone, and `BlockConsensus` is the arrival procedure
  with its walks, reorganisations and cached tips, proved to keep that meaning. So two nodes with
  the same graph agree, whatever the order of arrival. `TxVoiding` does the same for the hashes in
  `voided_by` of transactions.
* **Tokens.** `TokenRules` is `verify_sum` and its exact meaning, `Rewards` the halving schedule,
  and `Ledger` runs both over all histories: conservation of HTR, deposits that cover every custom
  token, and authorities that never come back.
* **Formats and merged mining.** `BitcoinCodec` and `BitcoinReader` are the Bitcoin format and
  the decoder that edits its buffer, `Merkle` the trees, `MergedMining`, `MinerJobs` and
  `AuxPowCodec` the way from a coordinator's job to the proof of work, and `VertexCodec` and
  `VertexParser` Hathor's own wire format in both directions. `VertexLayout` and `BitcoinLayout`
  say which field is at which byte.
* **Indexes, wallet, queues, scripts.** `TipsIndex`, `TokensIndex`, `Wallet`, `PushQueue`,
  `Downloader`, `RateLimiter`, `Scripts` and `Interpreter` refine naive definitions: tips at a
  time, unspent outputs, who counts as a spender, topological order, request order, a bucket that
  leaks, and assignments of signatures to keys.

Where the source updates something in place the model does too, and each such method is tied to a
function of the state before it. Hash functions, signature checks and connections are parameters.

Some promises of the source's documentation do not hold for its code. The model follows the code
and states exactly when they hold:

* the cache of best tips misses the new block on a tie, and goes on missing it until a block wins
  (`BestChain.CacheIsCompleteUnlessTieStands`, `BestChain.TieHidesAHead`);
* a child need not carry its parent's own hash (`TxVoiding.InheritanceAllAlongIff`,
  `TxVoiding.FullInheritanceFails`), and a voided transaction with rivals need not carry its own
  (`TxVoiding.OwnHashesAllAlongIff`, `TxVoiding.OwnHashFails`);
* the proof of work is wrong once a coinbase had a witness commitment, because the witness list it
  appends to is shared by all later coinbases (`MinerJobs.ProofOfWorkIffNoCommitment`,
  `MinerJobs.CommitmentBreaksTheProof`);
* a Bitcoin transaction without inputs and witnesses does not decode (`BitcoinCodec.RoundTripIff`);
* 2^31-1 is accepted in eight bytes and rewritten in four (`VertexCodec.TransactionIsCanonicalIff`,
  `VertexCodec.WideTransaction`);
* an integer timelock that does not take four bytes locks for ever (`Scripts.SecondsPassed`);
* the evaluation of a MultiSig spend does not come to an end if the first pass accepts and, after
  whole pushes, the input has a byte that begins no push (`Interpreter.RunScriptEval`,
  `Scripts.EvaluationCanHang`);
* the wallet counts an output of a voided transaction after an arrival that meets an empty list of
  spenders, or after a win of a transaction that spends it (`Wallet.BooksAreRightIff`,
  `Wallet.LeftoverMisleads`, `Wallet.WinnerMisleads`);
* a dropped download can leave finished ones waiting (`Downloader.Downloader.Retry`,
  `Downloader.DropStrandsWhatFollows`);
* the first hit is not limited (`RateLimiter.BoundedIffFirstFits`).

## Model

| member | source | states |
|---|---|---|
| BestChain.Convergence | hathor/consensus.py:73-228 | Two nodes that hold the same graph and meet the invariant agree on every voided block, every score and every first block, whatever the order of arrival. |
| BestChain.ExecutedFormOneChain | hathor/consensus.py:73-228 | The non-voided blocks are one parent-closed chain from genesis: of any two, one is an ancestor of the other. |
| BestChain.ExecutedBlocksAfter | hathor/consensus.py:193-223 | Which blocks are non-voided after an arrival: unchanged for a lighter block, cut down to the common chain on a tie, exactly the new chain for a heavier block. |
| BestChain.HeaviestAfter | hathor/consensus.py:176-223 | Which blocks have the maximum score after an arrival, in terms of those before it. |
| BestChain.ShortcutIffExtendsTheHead | hathor/consensus.py:153-167 | The parent is non-voided and has no other child exactly when it was the one block of maximum score. |
| BestChain.OneHead | hathor/consensus.py:161-167 | If one block alone has the maximum score, it is the whole cache and the non-voided blocks are exactly its chain. |
| BestChain.NextTipsAreHeaviest | hathor/consensus.py:161-223 | Every cached best tip has the maximum score of all blocks, after every kind of arrival. |
| BestChain.TipsAreAllHeadsIff | hathor/consensus.py:214-228 | After an arrival the cache lists all blocks of maximum score exactly if the new block wins, or is lighter and the cache listed all before. |
| BestChain.CacheIsCompleteUnlessTieStands | hathor/consensus.py:161-228 | After every run of arrivals from genesis every cached tip has the maximum score, and the cache lists all such blocks, as the commented-out assertion of lines 227-228 demands, exactly unless some block tied and none has won since. |
| BestChain.TieHidesAHead | hathor/consensus.py:193-223 | A run of three blocks after which a block of maximum score is not cached: a tie, and then a lighter block. |
| BestChain.MarkerIsOldest | hathor/consensus.py:435-517 | A transaction's first block is the oldest non-voided block whose past cone holds it; it has none exactly when no non-voided block has it in its cone. |
| BestChain.MarkersAreUnique | hathor/consensus.py:435-517 | The first block of a transaction is decided by the non-voided chain alone. |
| BlockConsensus.BlockConsensusAlgorithm.constructor | hathor/consensus.py:42-61 | A node with the genesis block only meets the invariant. |
| BlockConsensus.BlockConsensusAlgorithm.OnNewTransaction | hathor/consensus.py:674-728 | A transaction without conflicts keeps the invariant of blocks, scores, first blocks and cached tips. |
| BlockConsensus.BlockConsensusAlgorithm.OnNewBlock | hathor/consensus.py:70-228 | Every block arrival keeps the invariant: non-voided blocks are the ancestors of all heaviest blocks, stored scores are the work of the whole past cone, first blocks and tips are right. |
| BlockConsensus.BlockConsensusAlgorithm.UpdateVoidedInfo | hathor/consensus.py:73-223 | The branch on the parent's voidance and children leads to the invariant and to the cache that the code writes. |
| BlockConsensus.BlockConsensusAlgorithm.ExtendTheHead | hathor/consensus.py:160-167 | The shortcut case keeps the invariant. |
| BlockConsensus.BlockConsensusAlgorithm.OtherCases | hathor/consensus.py:170-223 | Lighter, tied and heavier blocks keep the invariant. |
| BlockConsensus.BlockConsensusAlgorithm.Overtake | hathor/consensus.py:198-223 | A block that reaches the best score keeps the invariant, reorganisation included; at most one cached head is non-voided. |
| BlockConsensus.BlockConsensusAlgorithm.Win | hathor/consensus.py:214-221 | A heavier block has exactly its own chain non-voided and is the only cached tip. |
| BlockConsensus.BlockConsensusAlgorithm.MarkAsTheBestChain | hathor/consensus.py:289-337 | The chain of the block is scored, marked and un-voided; first blocks fit the new chain. |
| BlockConsensus.BlockConsensusAlgorithm.UnionVoidedByFromParents | hathor/consensus.py:230-252 | Without voided transactions no voidance comes from the parents: the hash of a voided parent block is not passed on. |
| BlockConsensus.BlockConsensusAlgorithm.AddVoidedByToMultipleChains | hathor/consensus.py:270-287 | Exactly what is non-voided above the fork is voided, whatever the number of heads; first blocks fit what is left. |
| BlockConsensus.BlockConsensusAlgorithm.VoidDownTo | hathor/consensus.py:277-287 | Voiding one head down to the fork leaves exactly the chain of the fork. |
| BlockConsensus.BlockConsensusAlgorithm.RemoveVoidedByFromChain | hathor/consensus.py:327-337 | The voided part of a chain becomes non-voided down to the fork. |
| BlockConsensus.BlockConsensusAlgorithm.FindFirstParentInBestChain | hathor/consensus.py:339-362 | Finds the newest strict ancestor that is not voided. |
| BlockConsensus.BlockConsensusAlgorithm.MarkAsVoided | hathor/consensus.py:364-370 | Voids a block and takes its markers away; first blocks fit the rest. |
| BlockConsensus.BlockConsensusAlgorithm.AddVoidedBy | hathor/consensus.py:372-401 | Adds exactly the block's own hash. |
| BlockConsensus.BlockConsensusAlgorithm.RemoveFirstBlockMarkers | hathor/consensus.py:435-454 | The walk clears exactly the markers that point to the block, although it stops at vertices marked otherwise. |
| BlockConsensus.BlockConsensusAlgorithm.WalkTransactions | hathor/consensus.py:478-502 | The walk adds up the work of exactly what is new and marks exactly that, although it skips marked and used vertices. |
| BlockConsensus.BlockConsensusAlgorithm.ScoreBlockDfs | hathor/consensus.py:456-517 | The incremental score is the work of the whole past cone, and the transactions above the fork get the right first block. |
| BlockConsensus.BlockConsensusAlgorithm.ScoreParentBlock | hathor/consensus.py:466-476 | The parent contributes its score, from the store at the fork and recursively above it. |
| BlockConsensus.BlockConsensusAlgorithm.WalkTransactionParents | hathor/consensus.py:468-502 | All transaction parents together contribute exactly the transactions not counted yet. |
| BlockConsensus.BlockConsensusAlgorithm.CalculateScore | hathor/consensus.py:519-538 | The score of a block is the total work of its past cone, for genesis its own work. |
| BlockConsensus.BlockConsensusAlgorithm.BestScore | hathor/consensus.py:176-187 | All cached heads have the same score. |
| BlockConsensus.AtMostOneValidHead | hathor/consensus.py:201-209 | At most one cached head is non-voided, so the assertion of line 209 holds. |
| BlockConsensus.CountedIsNew | hathor/consensus.py:466-502 | What the walks count is exactly the part of the cone that the parent does not have. |
| BlockConsensus.ScoreAddsUp | hathor/consensus.py:456-517 | The parent's score plus the block's work plus the counted work is the work of the cone. |
| Dag.ChainOutweighs | hathor/consensus.py:456-517 | A block weighs more than every other block on its chain. |
| TxVoiding.ArriveKeeps | hathor/consensus.py:674-714 | An arriving transaction keeps the carrier invariant: the carriers of a hash other than its owner are closed under children and spenders, and each has a parent or input that is the owner or carries the hash. |
| TxVoiding.VoidKeeps | hathor/consensus.py:854-895 | Voiding any transaction keeps the carrier invariant. |
| TxVoiding.WinKeeps | hathor/consensus.py:799-831 | Winning keeps the carrier invariant and nothing carries the winner's hash. |
| TxVoiding.NobodyCarries | hathor/consensus.py:854-880 | If a transaction does not carry its own hash nobody does, so the assertion of line 879 holds. |
| TxVoiding.CarriersAreReached | hathor/consensus.py:816-826 | Every carrier is reached through carriers, so a walk that stops at non-carriers misses none. |
| TxVoiding.ChildrenInherit | hathor/consensus.py:674-714 | A child or spender carries all that its source carries, except perhaps the source's own hash. |
| TxVoiding.VoidKeepsFullInheritanceIff | hathor/consensus.py:854-889 | The stronger rule of the class documentation, that a child carries everything, survives a voiding exactly if no strict descendant that has rivals and lacks its own hash has a child or spender. |
| TxVoiding.ArriveKeepsFullInheritance | hathor/consensus.py:674-714 | The stronger rule survives every arrival. |
| TxVoiding.WinKeepsFullInheritance | hathor/consensus.py:799-831 | The stronger rule survives every win. |
| TxVoiding.InheritanceAllAlongIff | hathor/consensus.py:29-31 | The stronger rule holds all along a run of arrivals, voidings and wins exactly if every voiding of the run meets that condition. |
| TxVoiding.FullInheritanceFails | hathor/consensus.py:29-31 | A run of five arrivals and a voiding after which the stronger rule fails. |
| TxVoiding.RunIsSound | hathor/consensus.py:674-895 | The carrier invariant holds after every run. |
| TxVoiding.TransactionConsensusAlgorithm.UpdateVoidedInfo | hathor/consensus.py:674-714 | The arriving transaction's `voided_by` is the union over parents and inputs, and its own hash if it has rivals; the invariant is kept. |
| TxVoiding.TransactionConsensusAlgorithm.UnionOfSources | hathor/consensus.py:680-693 | The loops over parents and inputs compute the union of what they carry. |
| TxVoiding.TransactionConsensusAlgorithm.MarkAsVoided | hathor/consensus.py:841-852 | A transaction that is not voided yet is voided with all its future; one that is voided stays as it is, and the assertion of line 850 holds exactly if it carries its own hash. |
| TxVoiding.ArriveKeepsOwnHashIff | hathor/consensus.py:702-709 | The own-hash rule, that every voided transaction with rivals carries its own hash as line 850 asserts, survives an arrival exactly if all that it conflicts with is executed or carries its own hash. |
| TxVoiding.WinKeepsOwnHashIff | hathor/consensus.py:789-797 | The own-hash rule survives a win exactly if the winner has no rivals or nothing else voids it. |
| TxVoiding.VoidKeepsOwnHash | hathor/consensus.py:854-890 | The own-hash rule survives every voiding. |
| TxVoiding.OwnHashesAllAlongIff | hathor/consensus.py:841-852 | The own-hash rule holds all along a run exactly if every arrival and every win of the run meets its condition. |
| TxVoiding.OwnHashFails | hathor/consensus.py:702-709 | A run of arrivals and a voiding, starting with a tie, after which a new rival breaks the own-hash rule. |
| TxVoiding.TransactionConsensusAlgorithm.MarkAsWinner | hathor/consensus.py:789-797 | The winner's hash is gone everywhere. |
| TxVoiding.TransactionConsensusAlgorithm.AddVoidedBy | hathor/consensus.py:854-895 | The walk in timestamp order adds the hash to exactly the future of the transaction, and own hashes to those with rivals. |
| TxVoiding.TransactionConsensusAlgorithm.RemoveVoidedBy | hathor/consensus.py:799-839 | The walk that stops at non-carriers erases the hash everywhere. |
| Rewards.GetMinedTokens | hathor/util.py:58-79 | The loop over past halvings returns the specified sum. |
| Rewards.RewardOfHalving | hathor/util.py:37-55 | The blocks after so many halvings mint the initial amount halved so many times, and never less than the minimum. |
| Rewards.DefaultRewards | hathor/util.py:37-55 | With the default settings blocks mint 64, 32, 16 and then 8 tokens, each for 1051200 blocks. |
| Rewards.MinedIsIssued | hathor/util.py:37-79 | For coherent settings the loop equals the sum of the per-block rewards at every height. |
| Rewards.MinedIsIssuedIffCoherent | hathor/util.py:37-79 | Loop and per-block rewards agree at all heights exactly if the initial reward is not below the minimum and one more halving than the maximum is not above it. |
| Rewards.FailsAfterLastHalving | hathor/util.py:50-51 | With a maximum number of halvings that does not fit the two amounts, loop and rewards differ at some height. |
| Rewards.DerivedHalvingsAreCoherent | hathor/conf/settings.py:33-57 | Settings whose maximum number of halvings is derived from the two amounts, as the source derives it, the initial one not below the minimum, are coherent. |
| Rewards.DefaultIsCoherent | hathor/conf/settings.py:33-57 | The default settings are coherent. |
| TokenRules.TokenInfoFromInputs | hathor/transaction/transaction.py:308-333 | The dictionary after the inputs holds minus the spent amounts and the spent authorities of every token. |
| TokenRules.UpdateTokenInfoFromOutputs | hathor/transaction/transaction.py:335-364 | Accepts exactly the outputs whose token is known and whose authorities are available, and adds their amounts. |
| TokenRules.CheckAuthoritiesAndDeposit | hathor/transaction/transaction.py:366-406 | Accepts exactly if every change of supply is covered by an authority and HTR pays deposits minus withdrawals. |
| TokenRules.BalancedIff | hathor/transaction/transaction.py:308-419 | The dictionary checks are equivalent to the rule stated on inputs and outputs alone. |
| TokenRules.SameFees | hathor/transaction/transaction.py:371-397 | The fees summed from the dictionary are those of the net changes. |
| Ledger.FeeCovers | hathor/transaction/transaction.py:371-397 | The fee is a hundredth of the change of supply rounded up, withdrawals negative: it covers the change and one less would not. |
| Ledger.AuthorityComesFromInputs | hathor/transaction/transaction.py:349-364 | Every authority handed out over an older token was spent. |
| Ledger.MintAuthorityIsNeverRecreated | hathor/transaction/transaction.py:320-397 | Once no unspent output can mint an existing token, no continuation of accepted events brings the authority back or raises the supply. |
| Ledger.NoMintNoGrowth | hathor/transaction/transaction.py:385-397 | Without a mint authority among the inputs the supply of an older token does not grow. |
| Ledger.TxIsSound | hathor/transaction/transaction.py:408-419 | An accepted transaction keeps the accounts: supplies, deposits and HTR. |
| TokenRules.DepositAmount | hathor/transaction/util.py:40-41 | A hundred times the deposit is at least what is minted, and less than a hundred above it. |
| TokenRules.WithdrawAmount | hathor/transaction/util.py:44-45 | A hundred times the withdrawal is at most what is melted, and less than a hundred below it. |
| TokenRules.AuthorityBits | hathor/transaction/base_transaction.py:990-1055 | The lowest bit of an authority is to mint, the next one to melt. |
| TokenRules.VerifySum | hathor/transaction/token_creation_tx.py:246-267 | Accepts exactly what the stated rule accepts, for transactions and for token creations, where the new token starts with both authorities and must be minted. |
| Ledger.AuthoritiesDescendFromCreation | hathor/transaction/token_creation_tx.py:246-267 | After every run from genesis, every authority over a custom token descends by spends from the token's creation. |
| Ledger.Conservation | hathor/manager.py:491-500 | After every run of accepted blocks and transactions, unspent HTR is genesis plus mined tokens minus net deposits, and 100 times the net deposit of every token is at least its supply, which is at least zero. |
| Ledger.BlockIsSound | hathor/manager.py:491-500 | A block that mints exactly the reward of its height keeps the accounts. |
| Ledger.RunIsSound | hathor/manager.py:491-500 | The accounts hold after every run. |
| BitcoinCodec.RoundTripIff | hathor/merged_mining/bitcoin.py:445-470 | Decoding the bytes of any in-range transaction gives it back, default witnesses filled in where the witness part is written, exactly unless it has no inputs and no witness part. |
| BitcoinCodec.PlainRoundTrip | hathor/merged_mining/bitcoin.py:445-459 | Without witnesses decoding returns the transaction itself. |
| BitcoinCodec.SegwitRoundTrip | hathor/merged_mining/bitcoin.py:674-708 | With the witness part decoding returns the filled transaction. |
| BitcoinCodec.FilledWritesTheSame | hathor/merged_mining/bitcoin.py:466-470 | The decoded transaction serialises to the same bytes, with and without the witness part. |
| BitcoinCodec.DecodedIsInRange | hathor/merged_mining/bitcoin.py:674-708 | Whatever is decoded fits its fields and can be written again. |
| BitcoinCodec.CutBack | hathor/merged_mining/bitcoin.py:868-891 | The look-ahead over inputs and outputs finds the witnesses, and deleting them from the middle leaves the rest side by side. |
| BitcoinCodec.WitnessPartBack | hathor/merged_mining/bitcoin.py:883-899 | The two-pass reader returns the inputs with their witnesses and leaves the outputs. |
| BitcoinCodec.VarintBack | hathor/merged_mining/bitcoin.py:736-746 | A varint reads back as written, and starts with zero only if it is zero. |
| BitcoinReader.ByteArray.ReadWitnesses | hathor/merged_mining/bitcoin.py:868-880 | Reads the witnesses behind an offset and deletes exactly their bytes from the middle of the buffer. |
| BitcoinReader.ByteArray.ReadInputs | hathor/merged_mining/bitcoin.py:883-899 | Consumes the inputs, with the look-ahead for witnesses if asked to. |
| BitcoinReader.ByteArray.SkipInputs | hathor/merged_mining/bitcoin.py:921-926 | The size and number of the inputs, with nothing consumed. |
| BitcoinReader.ByteArray.SkipOutputs | hathor/merged_mining/bitcoin.py:929-934 | The size and number of the outputs, with nothing consumed. |
| BitcoinReader.Decode | hathor/merged_mining/bitcoin.py:700-708 | The decoder that consumes a buffer computes the specified decoding and rejects extra bytes. |
| Merkle.CoinbasePathGivesRoot | hathor/merged_mining/bitcoin.py:118-204 | For any hash function, any coinbase and any leaves, folding the coinbase over the path found with the empty placeholder gives the root of the whole tree, odd levels included. |
| Merkle.PathIsSiblings | hathor/merged_mining/bitcoin.py:150-169 | The path does not depend on the first leaf. |
| Merkle.FoldIsRoot | hathor/merged_mining/bitcoin.py:172-204 | Folding over the siblings of the first leaf gives the root. |
| Merkle.RootOfTwo | hathor/merged_mining/bitcoin.py:112-115 | The root of two nodes hashes the left one and then the right one, each from its last byte to its first. |
| Merkle.RootOfHalves | hathor/merged_mining/bitcoin.py:172-204 | The root of two full trees of one height side by side hashes the left root and then the right one. |
| Merkle.RootOfOdd | hathor/merged_mining/bitcoin.py:172-204 | An odd level has the root of the level with its last node repeated. |
| Merkle.RootFromPath | hathor/merged_mining/bitcoin.py:235-243 | The loop that pops two and inserts one computes the fold. |
| BitcoinLayout.VarintBytes | hathor/merged_mining/bitcoin.py:736-746 | The bytes of a varint in each of its four sizes. |
| BitcoinLayout.InputLayout | hathor/merged_mining/bitcoin.py:287-304 | The fields of an input and their byte order. |
| BitcoinLayout.OutputLayout | hathor/merged_mining/bitcoin.py:363-378 | The fields of an output and their byte order. |
| BitcoinLayout.TransactionLayout | hathor/merged_mining/bitcoin.py:422-459 | The parts of a transaction of one input, one witness and one output, with and without the witness part. |
| BitcoinLayout.HeaderLayout | hathor/merged_mining/bitcoin.py:28-52 | Where each field of a header is in its eighty bytes. |
| Merkle.PathBindsCoinbase | hathor/merged_mining/bitcoin.py:207-243 | Two coinbases that fold to one root along one path exhibit a hash collision. |
| MergedMining.AuxPowIsTheHeaderHash | hathor/merged_mining/coordinator.py:225-235 | A proof of work that is built hashes to the header hash if the coinbase is written without witnesses, and otherwise only if the hash collides. |
| MergedMining.BothHashes | hathor/merged_mining/coordinator.py:205-235 | The proof hashes the header with the full coinbase at its root; the header has the transaction id there. |
| MinerJobs.ProofOfWorkIffNoCommitment | hathor/merged_mining/coordinator.py:1034-1084 | For the last of any run of jobs and every work of the reserved size whose coinbase holds the base hash once, job, header and proof exist, and the proof hashes to the header hash if no job so far had a witness commitment, and otherwise only if the hash collides. |
| MinerJobs.WorkCompletesTheCoinbase | hathor/merged_mining/coordinator.py:200-203 | The miner's bytes complete exactly the coinbase that the coordinator would write with that extra nonce, and it decodes. |
| MinerJobs.Layout | hathor/merged_mining/coordinator.py:951-994 | Front and back of the coinbase bytes around base hash and extra nonce do not depend on the extra nonce. |
| MinerJobs.FoundWhereItWasPut | hathor/merged_mining/coordinator.py:1057-1059 | A base hash that occurs once is found where it was put, by both splits. |
| MinerJobs.JobIsAlwaysMade | hathor/merged_mining/coordinator.py:1057-1060 | The split always succeeds and the two halves leave room for exactly the extra nonce, so the sanity assertion holds. |
| BitcoinLayout.BuiltHeader | hathor/merged_mining/coordinator.py:205-218 | The header of a work has the fields of the job, the nonce of the work, and its time if it gives one. |
| MinerJobs.HeightScriptIs | hathor/merged_mining/coordinator.py:963-963 | The height script is its length and the height, least significant byte first, without zeros at the end. |
| MinerJobs.DefaultGrowsWithCommitments | hathor/merged_mining/coordinator.py:976-979 | The witness list shared by all coinbase inputs is empty exactly as long as no job had a commitment. |
| MinerJobs.CommitmentBreaksTheProof | hathor/merged_mining/coordinator.py:976-979 | One job with a witness commitment and then one without, with ten bytes reserved: for every collision-free hash and every extra nonce without the marking byte, the proof of work of the second is not the hash of its Bitcoin header. |
| MinerJobs.Coordinator.MakeCoinbaseTransaction | hathor/merged_mining/coordinator.py:951-994 | The first output pays the value to the payback script, the second holds the commitment if there is one, and magic number, base hash and extra nonce follow the height script or make up the last output; a commitment appends to the shared default list of witnesses. |
| MinerJobs.Coordinator.NewSingleMinerJob | hathor/merged_mining/coordinator.py:1034-1084 | Builds the specified job. |
| AuxPowCodec.RoundTrip | hathor/transaction/aux_pow.py:84-126 | Reading the bytes of a proof of work gives it back, whatever follows them. |
| AuxPowCodec.Read | hathor/transaction/aux_pow.py:107-126 | The reader that consumes a buffer computes the specified parse. |
| BitcoinLayout.AuxPowLayout | hathor/transaction/aux_pow.py:84-104 | Where each field of a proof of work with short parts is in its bytes. |
| VertexLayout.OutputPlaced | hathor/transaction/base_transaction.py:1018-1028 | Where value, token data, script length and script of an output are: the value in four bytes, or negated in eight. |
| VertexLayout.InputPlaced | hathor/transaction/base_transaction.py:907-917 | Where id, index, data length and data of an input are. |
| VertexLayout.GraphPlaced | hathor/transaction/base_transaction.py:375-388 | Where weight, timestamp, number of parents and parents are. |
| VertexCodec.ValueBack | hathor/transaction/base_transaction.py:1131-1138 | Output values read back as written, in four or eight bytes. |
| VertexCodec.ValueWrote | hathor/transaction/base_transaction.py:1112-1128 | A value that was read is in range and is written as read, unless it is the largest four-byte value in eight bytes. |
| VertexCodec.GraphBack | hathor/transaction/base_transaction.py:379-388 | Graph fields read back as written. |
| VertexCodec.GraphWrote | hathor/transaction/base_transaction.py:356-373 | If anything is left behind the graph fields, no parent was cut short and they are written as read. |
| VertexCodec.OutputsWrote | hathor/transaction/base_transaction.py:1031-1039 | Outputs with anything left behind them are written as read, or shorter exactly if one holds the largest four-byte value in eight bytes. |
| VertexCodec.InputsWrote | hathor/transaction/base_transaction.py:934-943 | Inputs with anything left behind them are written as read. |
| VertexLayout.TransactionLayout | hathor/transaction/transaction.py:46-193 | Where each field of any in-range transaction is in its bytes: version, the numbers of tokens, inputs and outputs, each token, input and output with its own fields, the graph fields and the nonce, all big-endian. |
| VertexCodec.TransactionRoundTrip | hathor/transaction/transaction.py:129-193 | Parsing the bytes of any in-range transaction gives it back. |
| VertexCodec.TransactionIsCanonicalIff | hathor/transaction/transaction.py:129-193 | Any accepted bytes are those of an in-range transaction, and re-serialise to themselves exactly unless an output holds 2^31-1 in eight bytes. |
| VertexCodec.WideTransaction | hathor/transaction/transaction.py:130-143 | Bytes of a transaction that are accepted and are not what it serialises to. |
| VertexCodec.TruncatedTransactionIsRejected | hathor/transaction/transaction.py:130-143 | No accepted byte string is another one cut short. |
| VertexParser.ParseTransaction | hathor/transaction/transaction.py:130-143 | The parser that fills in fields computes the specified parse. |
| VertexLayout.BlockLayout | hathor/transaction/block.py:33-201 | Where each field of any in-range block is in its bytes. |
| VertexCodec.BlockRoundTrip | hathor/transaction/block.py:109-201 | Parsing the bytes of any in-range block gives it back. |
| VertexCodec.BlockIsCanonicalIff | hathor/transaction/block.py:109-201 | Any accepted bytes are those of an in-range block, and re-serialise to themselves exactly unless an output holds 2^31-1 in eight bytes. |
| VertexCodec.WideBlock | hathor/transaction/block.py:110-122 | Bytes of a block that are accepted and are not what it serialises to. |
| VertexCodec.TruncatedBlockIsRejected | hathor/transaction/block.py:110-122 | No accepted block is another one cut short. |
| VertexParser.ParseBlock | hathor/transaction/block.py:110-122 | The parser that fills in fields computes the specified parse. |
| TipsIndex.LookupGivesTips | hathor/indexes.py:213-214 | A lookup at t returns exactly the indexed vertices that exist at t and are not verified by an indexed vertex at t. |
| TipsIndex.StoreMayGrow | hathor/indexes.py:100-126 | New vertices in the store do not disturb the index. |
| TipsIndex.TipsIndex.Lookup | hathor/indexes.py:213-214 | The tree answers with the tips at the given time. |
| TipsIndex.TipsIndex.AddTx | hathor/indexes.py:128-162 | Every interval stays [timestamp, first indexed child), and exactly the new vertex joins. |
| TipsIndex.TipsIndex.DelTx | hathor/indexes.py:164-185 | Every interval stays right and exactly the vertex leaves; without the relaxed assertion the deletion stops exactly if an indexed vertex verifies it. |
| TipsIndex.TipsIndex.UpdateTx | hathor/indexes.py:187-211 | The interval of a parent is right again; a voided parent is passed over. |
| TokensIndex.AddThenDel | hathor/indexes.py:513-580 | Deleting a vertex that was just added leaves what the index says of every token, a missing entry read as blank, as it was. |
| TokensIndex.DelThenAdd | hathor/indexes.py:513-580 | Adding a vertex back that was just deleted does, too. |
| TokensIndex.NothingLeft | hathor/indexes.py:555-558 | When a token creation without indexed spenders is deleted, nothing of the token is left, so its entry can go. |
| TokensIndex.TokenDescends | hathor/indexes.py:545-558 | Every holder of a custom token comes after an indexed spender of the creation or is the creation. |
| TokensIndex.AddedTx | hathor/indexes.py:513-521 | The unspent outputs after an addition. |
| TokensIndex.DeletedTx | hathor/indexes.py:545-553 | After a deletion the same vertex may be added again. |
| TokensIndex.TokensIndex.AddTx | hathor/indexes.py:513-529 | Totals, mint and melt sets stay those of the unspent outputs. |
| TokensIndex.TokensIndex.DelTx | hathor/indexes.py:545-567 | Totals, mint and melt sets stay those of the unspent outputs; the entry of a deleted creation is deleted and made again, blank. |
| Wallet.NeverInTwoPlaces | hathor/wallet/base_wallet.py:484-782 | After every interleaving of arrivals, voidings, wins and moves between unspent and maybe-spent, each output is in at most one of unspent, maybe-spent and a non-empty spent list, and in none if it is not owned or not received. |
| Wallet.NewKeepsRightIff | hathor/wallet/base_wallet.py:484-550 | A new transaction leaves the books right exactly if, for no output of a voided transaction that it spends, an empty list of spenders is left. |
| Wallet.LeftoverMisleads | hathor/wallet/base_wallet.py:536-543 | A run of six events after which such a list makes an output of a voided transaction available. |
| Wallet.VoidedKeepsRight | hathor/wallet/base_wallet.py:552-668 | A voided transaction leaves the books right. |
| Wallet.WonKeepsRightIff | hathor/wallet/base_wallet.py:670-782 | A winner leaves the books right exactly if the owned outputs that it spends count and, if it was voided, nothing that counts spends it yet. |
| Wallet.WinnerMisleads | hathor/wallet/base_wallet.py:743-776 | A run of five events, without such a list, after which a winner that spent an output of a voided transaction makes it available. |
| Wallet.BooksAreRightIff | hathor/wallet/base_wallet.py:484-782 | The books are right all along a run exactly if no arrival meets a leftover list and every winner may win. |
| Wallet.AvailableIff | hathor/wallet/base_wallet.py:484-782 | What right books say: an output is available exactly if it is owned, its transaction counts and no transaction that counts spends it; the list of spenders holds exactly those that count. |
| Wallet.Wallet.OnNewTx | hathor/wallet/base_wallet.py:484-550 | Receives the owned outputs and records the spender of the owned inputs, and changes nothing else. |
| Wallet.Wallet.OnTxVoided | hathor/wallet/base_wallet.py:552-668 | Removes the owned outputs and frees the owned inputs without other spenders, and changes nothing else. |
| Wallet.Wallet.OnTxWinner | hathor/wallet/base_wallet.py:670-782 | Restores the owned outputs and records the spender of the owned inputs, and changes nothing else. |
| Wallet.Wallet.CheckUtxos | hathor/wallet/base_wallet.py:143-155 | Exactly the outputs set aside too long ago are available again. |
| Wallet.Wallet.ChooseInputs | hathor/wallet/base_wallet.py:456-472 | Distinct available outputs are chosen, and enough of them if there are enough. |
| Wallet.Wallet.GetInputsFromAmount | hathor/wallet/base_wallet.py:438-482 | Sets aside distinct unspent outputs of the token, each no authority, not newer than asked and with its timelock past, worth at least the amount; fails, with nothing changed, exactly if all such outputs together are worth less. |
| Wallet.Wallet.PrepareComputeInputs | hathor/wallet/base_wallet.py:339-366 | Sets aside exactly the inputs, which are distinct unspent outputs of wanted tokens, no authorities, older than the transaction and with their timelocks past, and balance outputs and change for every token; fails exactly if some token is short. |
| Wallet.Wallet.PrepareIncompleteInputs | hathor/wallet/base_wallet.py:272-320 | Accepts exactly distinct inputs that are in the books, or owned with force, and sets them aside. |
| Scripts.P2pkhSpend | hathor/transaction/scripts.py:221-256 | A P2PKH spend built for an address is accepted exactly if signature and key are not empty, the timelock is passed, the key hashes to the address, and key and signature are valid. |
| Scripts.OutputBytes | hathor/transaction/scripts.py:222-339 | The bytes of P2PKH and MultiSig outputs without a timelock. |
| Scripts.P2pkhAcceptsIff | hathor/transaction/scripts.py:690-697 | Any input that runs on its own spends a P2PKH output exactly if the timelock is passed and it leaves a well-formed key with the hash of the address and, below it, a valid signature on top of the stack. |
| Scripts.MultiSigAcceptsIff | hathor/transaction/scripts.py:690-704 | Any input of whole pushes spends a MultiSig output exactly if the timelock is passed, the last push hashes to the address and, run as a script on top of the other pushes, is satisfied. |
| Scripts.MultiSigSpend | hathor/transaction/scripts.py:320-357 | An M-of-N spend is accepted exactly if signatures and keys are not empty, the redeem script hashes to the address, the timelock is passed, and the last M signatures can be assigned in order among the last keys, from some place on, that are all well formed. |
| Scripts.SpendableIfWellFormed | hathor/transaction/scripts.py:1227-1246 | If all keys are well formed, that is: exactly if the signatures can be assigned in order. |
| Scripts.SecondPass | hathor/transaction/scripts.py:699-704 | The second pass accepts exactly signatures that can be assigned among well-formed keys at the end of the redeem script. |
| Scripts.FirstPass | hathor/transaction/scripts.py:690-697 | The first pass accepts exactly the right redeem script after the timelock. |
| Scripts.GreedyIsExact | hathor/transaction/scripts.py:1227-1246 | The greedy scan succeeds exactly if, among the first keys, up to some place, that are all well formed, there is an order-preserving assignment; it denies exactly if all keys are well formed and there is none; otherwise a malformed key stops it. |
| Scripts.GreedyStep | hathor/transaction/scripts.py:1228-1240 | Taking the first key that fits loses no assignment. |
| Scripts.CheckMultisigOf | hathor/transaction/scripts.py:1180-1246 | The operation on the reversed stack succeeds, denies or fails exactly as the scan, in terms of the original order. |
| Scripts.RunLock | hathor/transaction/scripts.py:845-862 | A timelock of four bytes lets later timestamps pass; one of another size never does. |
| Scripts.SecondsPassed | hathor/transaction/scripts.py:172-187 | A timelock given as an integer is ever passed only if it is zero or takes four bytes. |
| Scripts.RunPush | hathor/transaction/scripts.py:775-829 | Running pushed data puts it on the stack; pushing the empty string is rejected. |
| Scripts.UnpackedInput | hathor/transaction/scripts.py:381-410 | Unpacking the input data gives the signatures followed by the bare redeem script. |
| Scripts.UnpackedMeans | hathor/transaction/scripts.py:396-410 | Unpacking succeeds exactly on one or more whole pushes, and does not come to an end exactly if, after whole pushes, a byte begins none. |
| Scripts.P2pkhIsNotMultiSig | hathor/transaction/scripts.py:285-285 | No P2PKH output is taken for a MultiSig one. |
| Scripts.MultiSigIsRecognised | hathor/transaction/scripts.py:285-285 | A MultiSig output whose timelock is passed is taken for one. |
| Interpreter.CreateP2pkhOutput | hathor/transaction/scripts.py:222-243 | Builds the specified script. |
| Interpreter.CreateP2pkhInput | hathor/transaction/scripts.py:246-256 | Builds the specified input data. |
| Interpreter.CreateMultiSigOutput | hathor/transaction/scripts.py:320-339 | Builds the specified script. |
| Interpreter.CreateMultiSigInput | hathor/transaction/scripts.py:342-356 | Builds the specified input data. |
| Interpreter.ExecuteEval | hathor/transaction/scripts.py:618-672 | The loop over the script accepts exactly what the specification accepts. |
| Interpreter.GetMultisigData | hathor/transaction/scripts.py:382-410 | The loop unpacks the last push, fails, or is stuck, as specified. |
| Interpreter.RunScriptEval | hathor/transaction/scripts.py:675-704 | Both passes together accept as specified, and hang exactly if the first pass accepts, the output is a MultiSig one and the input has, after whole pushes, a byte that begins none. |
| Scripts.EvaluationCanHang | hathor/transaction/scripts.py:699-704 | For every redeem script of 1 to 255 bytes there is an input on which the evaluation against its MultiSig output does not come to an end. |
| Interpreter.Machine.FindKey | hathor/transaction/scripts.py:1230-1238 | The inner loop finds the first key that accepts the signature. |
| Interpreter.Machine.CheckAll | hathor/transaction/scripts.py:1228-1246 | The nested loops with their shrinking key list compute the greedy scan. |
| Interpreter.Machine.OpCheckMultisig | hathor/transaction/scripts.py:1180-1246 | Changes the stack as specified. |
| Interpreter.GenerateRedeemScript | hathor/wallet/util.py:16-36 | Builds the specified redeem script. |
| PushQueue.SentInOrder | hathor/p2p/node_sync.py:101-147 | Nothing is sent twice, no vertex before a dependency that was ever added, and what was added is exactly what was sent, is prioritised or is queued. |
| PushQueue.HeadIsReady | hathor/p2p/node_sync.py:137-139 | The head of the queue has nothing to wait for when the priority queue is empty. |
| PushQueue.SendDataPush.Add | hathor/p2p/node_sync.py:101-110 | A transaction goes to the end of the queue. A block goes to the end of the priority queue; exactly the queued vertices that it reaches through queued dependencies go there before it, and the others stay in their order. |
| PushQueue.Moved | hathor/p2p/node_sync.py:112-125 | What leaves the queue is what the block reaches through queued dependencies, what stays keeps its order, and what joins the priority queue is what left and the block. |
| PushQueue.SendDataPush.AddToPriority | hathor/p2p/node_sync.py:112-125 | The recursion terminates, moves every queued dependency ahead, and keeps the invariant. |
| PushQueue.SendDataPush.SendNext | hathor/p2p/node_sync.py:127-147 | Sends one vertex if there is one and does not change the overall order. |
| Downloader.GetConnection | hathor/p2p/downloader.py:65-94 | Terminates; every connection is used at most the set number of times and in order; a connection is returned exactly if one of those not used up is open, and it is the first such. |
| Downloader.InRequestOrder | hathor/p2p/downloader.py:220-247 | Results come in request order: before a delivered one, every earlier request was delivered or dropped. |
| Downloader.Downloader.GetTx | hathor/p2p/downloader.py:132-157 | Keeps the queues right; exactly a new identifier makes a new request, and a known one gets one more connection. |
| Downloader.Downloader.DownloadNextIfPossible | hathor/p2p/downloader.py:159-163 | Those that wait start in order until the window is full or nothing waits; exactly those that can be asked of nobody are dropped. |
| Downloader.Downloader.StartNextDownload | hathor/p2p/downloader.py:165-181 | The head of the waiting queue is downloading if some connection left to it is open, and dropped otherwise; it was not requested before. |
| Downloader.Downloader.OnNewTx | hathor/p2p/downloader.py:204-218 | Hands over exactly those at the head of the window that have arrived and gives their places to others; nothing that could be delivered is left. |
| Downloader.Downloader.CheckDownloadingQueue | hathor/p2p/downloader.py:220-247 | Delivers exactly from the head as long as it has arrived, and starts what waits if it delivered anything. |
| Downloader.Downloader.Retry | hathor/p2p/downloader.py:249-275 | Drops the vertex exactly if no connection left to it is open. It leaves something deliverable behind exactly if it drops the head and the next one has arrived, and the window open exactly if it drops something while others wait. |
| Downloader.DropStrandsWhatFollows | hathor/p2p/downloader.py:249-287 | A run of five events after which a vertex that has arrived is not handed over and another is not asked for. |
| RateLimiter.AllowedIsBounded | hathor/p2p/rate_limiter.py:51-91 | Over every run of hits the weight let through up to time t is at most a full bucket plus what leaked since the first hit. |
| RateLimiter.BoundedIffFirstFits | hathor/p2p/rate_limiter.py:60-63 | The bound holds all along a run exactly if the first weight fits the bucket: the first hit is let through unchecked. |
| RateLimiter.BucketInvariant | hathor/p2p/rate_limiter.py:51-91 | The level stays within the limit, the virtual time never passes the clock, and what was let through is in the bucket or has leaked. |
| RateLimiter.LeakMovesTime | hathor/p2p/rate_limiter.py:65-76 | Whole hits leak in whole steps of the virtual time, which never passes the clock. |
| RateLimiter.FitsIffRoom | hathor/p2p/rate_limiter.py:83-91 | Without time passing a hit is let through exactly if it fits into the bucket. |
| RateLimiter.WindowEmptiesBucket | hathor/p2p/rate_limiter.py:65-91 | A window after the counted time the bucket is empty: whatever fits it is let through. |
| RateLimiter.RateLimiter.Hit | hathor/p2p/rate_limiter.py:51-91 | Updates the bucket and decides as specified; fails exactly on a second hit with a limit of no hits. |

## Left out

- The conflict policy of `check_conflicts` and twins: which transaction is voided or wins is open in `TxVoiding`, and the repeated check after a walk is not modelled.
- BlockConsensus.BlockConsensusAlgorithm.OnNewBlock: runs have no conflicting transactions and no spent block rewards, so a block is voided by its own hash only; the fallback when a voided transaction makes a best chain invalid (lines 298-319) is not modelled, because no voidance comes from the parents then.
- BlockConsensus.BlockConsensusAlgorithm.UnionVoidedByFromParents: states the empty union only, for the same reason.
- BlockConsensus.BlockConsensusAlgorithm.WalkTransactions: visits what waits in any order, not by timestamp; the result does not depend on it.
- BlockConsensus.BlockConsensusAlgorithm.AddVoidedBy: passing a hash on to the spenders of block rewards (lines 396-400) is not modelled, for the same reason.
- Weights are exact amounts of work, so scores add up exactly and two different scores differ by more than the tolerance.
- Rewards.GetMinedTokens: the setting without halvings is not modelled.
- TokenRules.VerifySum: the one percent of deposits is the exact ratio 1/100, not a float.
- Ledger.Conservation: needs coherent settings, which are those with a derived number of halvings and an initial reward not below the minimum; voided transactions and reorganisations are not part of its runs.
- BitcoinReader.Decode: a failed read is one outcome, not the exception raised, and the buffer after it is not described.
- Merkle.CoinbasePathGivesRoot: the root is a function of the leaves; that `build_merkle_root` appends the repeated leaf to its caller's list is not modelled.
- MinerJobs.Coordinator.NewSingleMinerJob: the clone of the Hathor block and its payback script are represented by the base hash; the Stratum protocol is not part of the model.
- `MergeMinedBlock` and the name and symbol fields of token creations have wire formats that the model does not have.
- VertexCodec.TransactionRoundTrip: the weight is eight opaque bytes, and hash and storage fields are not part of the parsed value.
- Interpreter.RunScriptEval: where the source does not come to an end the model returns a verdict of its own.
- Scripts.P2pkhAcceptsIff: is about inputs that run on their own, as `MultiSigAcceptsIff` is about inputs of whole pushes; what is accepted when the last push of an input is cut short, so that it reads on into the output script, is not stated.
- Scripts.RunPush: the opcodes of nano contracts are rejected as unknown, and `parse_script` is not modelled; the regular expression for MultiSig outputs is written out as a predicate.
- TipsIndex.TipsIndex.UpdateTx: a voided parent is not in the index, with the relaxed assertion too.
- TipsIndex.TipsIndex.DelTx: the index holds vertices of one kind, and the parents of that kind are indexed exactly if they are not voided; the interval tree is a set.
- TokensIndex.TokensIndex.AddTx: name, symbol and the sorted list of transactions per token are not modelled; mint and melt bits are flags.
- Wallet.Wallet.OnNewTx: the dictionaries per token are one map, since the token of an output is fixed; voided lists for the history, addresses, keys and balances are not modelled, and the set of owned outputs does not change during a run.
- Wallet.Wallet.OnTxVoided: the voided lists for the history are not modelled, here and in `OnTxWinner`.
- Wallet.Wallet.ChooseInputs: outputs are tried in any order, and the test-mode flag is not modelled.
- PushQueue.SendDataPush.SendNext: the producer flags and the delayed call are not modelled.
- Downloader.Downloader.CheckDownloadingQueue: callbacks do not call back into the downloader; timeouts and requests to peers are the caller's events.
- RateLimiter.RateLimiter.Hit: time and leakage are exact reals.
- Downloader.Downloader.OnNewTx: only a vertex that is being downloaded is answered for, since only then a request is out.
- Difficulty, proof-of-work targets and mining loops: logarithms and rounding.
- Storage, peer discovery, HTTP and Stratum interfaces, metrics and command line: plumbing with easy members.
