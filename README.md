# PyBasicBlockchain ledgers in Dafny

This project models the two hash-linked ledgers of PyBasicBlockchain:

- the transfer ledger (`Block`, `Blockchain` in `Chain1/PyBasicBlockchain.py`):
  transfers wait in a pending list; mining seals them and a reward of 50 from
  `network` into a new block; balances are replayed from every transfer on
  the chain;
- the messaging ledger (`MessageBlock`, `MessagingBlockchain` in
  `Chain2/PyBasicBlockchain2.py`): the same scheme carrying messages, with a
  mined genesis block, a reward message `Mining reward: 1` from `Network`,
  and queries for the messages a user received and sent.

Files:

- `blocks.dfy` (module `Blocks`): the block class shared by both ledgers
  (`Block<P>`, generic in what a block carries), the digest function, the
  proof-of-work search and the chain validator.
- `transfer_ledger.dfy` (module `TransferLedger`): the transfer ledger class
  and the balance function with its laws.
- `messaging_ledger.dfy` (module `MessagingLedger`): the messaging ledger
  class, the message filter `Select` with its laws, and the user queries.
- `scenarios.dfy` (module `Scenarios`): the example runs of the two driver
  scripts (`Chain1/Blockchain.py`, `Chain2/Blockchain.py`), every transfer,
  message and mining round of each, replayed against the contracts alone
  under a digest function whose first attempt already meets the difficulty.

How the model reads the source:

- **Digest.** `compute_hash` is SHA-256 over the sorted-key JSON dump of the
  block's `__dict__`. It is modelled as a function value
  `Hasher<P> = (Header<P>, Option<string>) -> string`. It is passed to each
  ledger's constructor and kept as a constant. The second argument is the
  block's `hash` attribute if it exists when the dump is taken:
  - `None` in the block constructor, because `hash` is not yet assigned;
  - `Some(current hash)` in every later call, both in the mining loop and in
    the validator.
- **Stale digest.** Because of that second argument, a digest found by
  mining depends on the previous attempt's digest. The validator's recheck
  then hashes the block with the mined digest inside it. Nothing in the code
  makes the two agree, so the model does not claim that a mined chain passes
  `is_chain_valid`.
  - `Blocks.MinedBlockCanFailRecheck` exhibits a digest function under which
    the first attempt seals the block yet the recheck fails.
  - `ValidatorChecksDigestsOnly` shows that on a ledger keeping its
    invariant, the recheck is the only thing the validator can reject.
- **Mining search.** Mining is the source's `while` loop, over the block's
  `nonce` and `hash` fields. `AttemptAfter` names the k-th attempt, and
  `SearchEndsAt` says the loop stops at the first attempt that meets the
  difficulty. The search can run forever when no attempt succeeds.
  `SearchSucceeds` is the precondition that excludes that run.
- **Constants.** Difficulty 4, reward 50 and sender `network` (transfer
  ledger); difficulty 4, reward 1 and sender `Network` (messaging ledger).
  The source sets these once in `__init__` and never changes them, so they
  are module constants.
- **Clock.** `time()` readings are parameters:
  - `genesisTime` for the constructors;
  - `timestamp` for `MinePendingTransactions`;
  - `rewardTime` and `blockTime` for the two separate readings in
    `mine_pending_messages`.

## Model

| member | source | states |
|---|---|---|
| Blocks.RequiredPrefix | PyBasicBlockchain/Chain1/PyBasicBlockchain.py:24 | `'0' * difficulty`: exactly `difficulty` characters, all of them `'0'` |
| Blocks.MeetsDifficultyIsLeadingZeros | PyBasicBlockchain/Chain1/PyBasicBlockchain.py:24-25 | the mining exit test `hash.startswith('0' * d)` holds iff the digest has at least d characters and its first d are `'0'` |
| Blocks.AttemptAfter | PyBasicBlockchain/Chain1/PyBasicBlockchain.py:25-27 | the k-th turn of the mining loop has nonce equal to the starting nonce plus k |
| Blocks.NoneMeetsBeforeAt | PyBasicBlockchain/Chain1/PyBasicBlockchain.py:25-27 | when the loop has run k turns without stopping, each attempt j < k failed the difficulty test |
| Blocks.SearchStep | PyBasicBlockchain/Chain1/PyBasicBlockchain.py:25-27 | a turn taken while the search has not stopped keeps it on track: the next attempt is still at most the stopping one, and no earlier attempt met the difficulty |
| Blocks.SearchEndIsUnique | PyBasicBlockchain/Chain1/PyBasicBlockchain.py:25-27 | the mining loop has a single stopping point: two attempts that both end the search are equal |
| Blocks.Block.constructor | PyBasicBlockchain/Chain1/PyBasicBlockchain.py:11-17 | a new block holds the given index, timestamp, payloads and previous hash, nonce 0, and the digest of those attributes taken before `hash` exists |
| Blocks.Block.ComputeHash | PyBasicBlockchain/Chain1/PyBasicBlockchain.py:19-21 | the digest of every attribute the block has when it is called, the stored digest `hash` included |
| Blocks.Block.MineBlock | PyBasicBlockchain/Chain1/PyBasicBlockchain.py:23-27 | on return the digest starts with `difficulty` zeros, the nonce has not decreased, and (nonce, hash) is the first attempt of the search from the old state that meets the difficulty |
| Blocks.NewMinedBlock | PyBasicBlockchain/Chain1/PyBasicBlockchain.py:48-54 | building a block and mining it yields a fresh block with the given attributes whose (nonce, hash) ends the search, so its digest meets the difficulty; no existing object changes |
| Blocks.MinedFromAppend | PyBasicBlockchain/Chain1/PyBasicBlockchain.py:48-55 | appending a block at the next index that meets the difficulty and links to the last digest keeps every block mined, at its own index and linked |
| Blocks.EntriesAppend | PyBasicBlockchain/Chain1/PyBasicBlockchain.py:71-72 | walking blocks in chain order: the payloads of a chain with one more block are the old payloads followed by that block's |
| Blocks.IsChainValid | PyBasicBlockchain/Chain1/PyBasicBlockchain.py:58-67 | returns true iff every block from index 1 on has a stored digest equal to its recomputed digest and a previous hash equal to the previous block's digest |
| Blocks.FirstInvalidBlock | PyBasicBlockchain/Chain1/PyBasicBlockchain.py:59-66 | an invalid chain has a first failing block at index ≥ 1, and every block before it passes both checks |
| Blocks.ChainValidAppend | PyBasicBlockchain/Chain1/PyBasicBlockchain.py:58-67 | appending a block keeps the chain valid iff the old chain was valid, the new block passes the digest recheck and it links to the old last block |
| Blocks.MinedBlockCanFailRecheck | PyBasicBlockchain/Chain1/PyBasicBlockchain.py:17-27 | some digest function makes the first attempt end the search, yet rehashing the block with that digest inside gives a different digest, so the recheck fails |
| TransferLedger.BalanceAppend | PyBasicBlockchain/Chain1/PyBasicBlockchain.py:69-77 | replaying two runs of transfers one after the other adds their effects on any address |
| TransferLedger.BalanceOfUninvolvedAddress | PyBasicBlockchain/Chain1/PyBasicBlockchain.py:73-76 | an address that is neither sender nor recipient of any transfer has balance 0 |
| TransferLedger.SelfTransferIsNeutral | PyBasicBlockchain/Chain1/PyBasicBlockchain.py:73-76 | a transfer to oneself (subtracted, then added) leaves one's balance unchanged |
| TransferLedger.SealedBlockBalances | PyBasicBlockchain/Chain1/PyBasicBlockchain.py:69-77 | sealing pending transfers plus the reward raises a miner's balance (miner other than `network`) by its net in the pending transfers plus 50, and lowers `network`'s balance by 50 past its own net |
| TransferLedger.NetworkMinerBalance | PyBasicBlockchain/Chain1/PyBasicBlockchain.py:73-76 | when `network` mines, its reward is a transfer to itself and its balance moves only by its net in the pending transfers |
| TransferLedger.Blockchain.constructor | PyBasicBlockchain/Chain1/PyBasicBlockchain.py:30-39 | a new ledger holds exactly one unmined genesis block (index 0, no transfers, previous hash "0", nonce 0), no pending and no sealed transfers, keeps its invariant and passes the validator |
| TransferLedger.Blockchain.CreateGenesisBlock | PyBasicBlockchain/Chain1/PyBasicBlockchain.py:37-39 | appends one fresh unmined block with index 0, no transfers, previous hash "0" and its constructor digest; the earlier blocks stay |
| TransferLedger.Blockchain.GetLastBlock | PyBasicBlockchain/Chain1/PyBasicBlockchain.py:41-42 | returns a block of the chain whose index is the chain length minus one |
| TransferLedger.Blockchain.AddTransaction | PyBasicBlockchain/Chain1/PyBasicBlockchain.py:44-45 | appends the transfer to the pending list; the sealed transfers and the invariant are unchanged |
| TransferLedger.Blockchain.AppendBlock | PyBasicBlockchain/Chain1/PyBasicBlockchain.py:55 | appending a mined, linked block at the next index keeps the invariant and adds exactly that block's transfers after every earlier one |
| TransferLedger.Blockchain.MinePendingTransactions | PyBasicBlockchain/Chain1/PyBasicBlockchain.py:47-56 | appends one fresh block (next index, given time, pending transfers plus the reward, the last digest as link) whose (nonce, hash) ends the search; old blocks are untouched, pending is emptied, the sealed transfers grow by exactly those, the miner's and `network`'s balances move as stated, and the invariant is kept |
| TransferLedger.Blockchain.IsChainValid | PyBasicBlockchain/Chain1/PyBasicBlockchain.py:58-67 | the ledger's validator returns exactly the chain validity predicate |
| TransferLedger.Blockchain.ValidatorChecksDigestsOnly | PyBasicBlockchain/Chain1/PyBasicBlockchain.py:58-67 | on a ledger keeping its invariant the links always hold, so the validator accepts iff every block after genesis reproduces its own digest |
| TransferLedger.Blockchain.GetBalance | PyBasicBlockchain/Chain1/PyBasicBlockchain.py:69-77 | returns the balance replayed over every transfer on the chain in order: amounts received minus amounts sent |
| MessagingLedger.DecimalSpellsNumber | PyBasicBlockchain/Chain2/PyBasicBlockchain2.py:48 | the decimal text of a natural number is a non-empty string of digits with no leading zero that spells the number back |
| MessagingLedger.RewardMessageContent | PyBasicBlockchain/Chain2/PyBasicBlockchain2.py:45-50 | the reward message reads `Mining reward: 1` |
| MessagingLedger.Select | PyBasicBlockchain/Chain2/PyBasicBlockchain2.py:74-88 | a query result is never longer than the messages it filters |
| MessagingLedger.SelectMembers | PyBasicBlockchain/Chain2/PyBasicBlockchain2.py:74-88 | a message is in a query result iff it is on the chain and its recipient (or sender) is the user |
| MessagingLedger.SelectAppend | PyBasicBlockchain/Chain2/PyBasicBlockchain2.py:76-79 | filtering two runs of messages in turn equals filtering each and joining the results |
| MessagingLedger.SelectIsSubsequence | PyBasicBlockchain/Chain2/PyBasicBlockchain2.py:74-88 | a query result keeps chain order: it is a subsequence of all messages |
| MessagingLedger.SentToOtherIsNotReceived | PyBasicBlockchain/Chain2/PyBasicBlockchain2.py:74-88 | a message from a user to someone else is among that user's sent messages and not among the received ones |
| MessagingLedger.CollectInBlock | PyBasicBlockchain/Chain2/PyBasicBlockchain2.py:77-79 | the inner loop appends to what was found exactly the block's messages that match, in order |
| MessagingLedger.MessagingBlockchain.constructor | PyBasicBlockchain/Chain2/PyBasicBlockchain2.py:26-36 | a new ledger holds exactly one mined genesis block, no pending and no sealed messages, keeps its invariant and passes the validator |
| MessagingLedger.MessagingBlockchain.CreateGenesisBlock | PyBasicBlockchain/Chain2/PyBasicBlockchain2.py:33-36 | appends one fresh genesis block (index 0, no messages, previous hash "0") whose (nonce, hash) ends the mining search, so its digest meets the difficulty |
| MessagingLedger.MessagingBlockchain.GetLastBlock | PyBasicBlockchain/Chain2/PyBasicBlockchain2.py:38-39 | returns a block of the chain whose index is the chain length minus one |
| MessagingLedger.MessagingBlockchain.AddMessage | PyBasicBlockchain/Chain2/PyBasicBlockchain2.py:41-42 | appends the message to the pending list; the chain, the sealed messages and the invariant are unchanged |
| MessagingLedger.MessagingBlockchain.AppendBlock | PyBasicBlockchain/Chain2/PyBasicBlockchain2.py:58 | appending a mined, linked block at the next index keeps the invariant and adds exactly that block's messages after every earlier one |
| MessagingLedger.MessagingBlockchain.MinePendingMessages | PyBasicBlockchain/Chain2/PyBasicBlockchain2.py:44-59 | appends one fresh block (next index, block time, pending messages plus the reward message, the last digest as link) whose (nonce, hash) ends the search; old blocks are untouched, pending is emptied, the sealed messages grow by exactly those, and the invariant is kept |
| MessagingLedger.SealedBlockInbox | PyBasicBlockchain/Chain2/PyBasicBlockchain2.py:44-59 | sealing the pending messages and the reward adds to the miner's inbox its pending messages, then the reward |
| MessagingLedger.MessagingBlockchain.IsChainValid | PyBasicBlockchain/Chain2/PyBasicBlockchain2.py:61-72 | the ledger's validator returns exactly the chain validity predicate |
| MessagingLedger.MessagingBlockchain.ValidatorChecksDigestsOnly | PyBasicBlockchain/Chain2/PyBasicBlockchain2.py:61-72 | on a ledger keeping its invariant the validator accepts iff every block after genesis reproduces its own digest |
| MessagingLedger.MessagingBlockchain.Collect | PyBasicBlockchain/Chain2/PyBasicBlockchain2.py:74-88 | the nested block/message walk returns every message on the chain whose recipient (or sender) is the user, in chain order |
| MessagingLedger.MessagingBlockchain.GetUserMessages | PyBasicBlockchain/Chain2/PyBasicBlockchain2.py:74-80 | returns every message on the chain addressed to the user, in chain order |
| MessagingLedger.MessagingBlockchain.GetSentMessages | PyBasicBlockchain/Chain2/PyBasicBlockchain2.py:82-88 | returns every message on the chain sent by the user, in chain order |
| MessagingLedger.MessagingBlockchain.GetUserHistory | PyBasicBlockchain/Chain2/PyBasicBlockchain2.py:90-94 | the history's `received` part is the user's inbox and its `sent` part the user's sent messages |
| Scenarios.FirstAttemptSeals | PyBasicBlockchain/Chain1/PyBasicBlockchain.py:23-27 | under the constant digest "0000" the mining search from any header succeeds at difficulty 4 |
| Scenarios.BalanceOfTwo | PyBasicBlockchain/Chain1/PyBasicBlockchain.py:69-77 | the balance after two transfers is the sum of what each does to it |
| Scenarios.BalanceOfThree | PyBasicBlockchain/Chain1/PyBasicBlockchain.py:69-77 | the balance after three transfers is the sum of what each does to it |
| Scenarios.DriverBalances | PyBasicBlockchain/Chain1/Blockchain.py:7-16 | after the first round (Alice pays Bob 50, Bob pays Charlie 25, Miner1 mines) Alice has -50, Bob 25, Charlie 25 and Miner1 50; after the second (Charlie pays Dave 10, Miner1 mines) Miner1 has 100, Alice -50, Bob 25, Charlie 15 and Dave 10 |
| Scenarios.TransferRound | PyBasicBlockchain/Chain1/Blockchain.py:7-11 | queuing a round of transfers and mining them appends exactly those transfers and the miner's reward to the chain and leaves nothing pending |
| Scenarios.TransferRounds | PyBasicBlockchain/Chain1/Blockchain.py:5-16 | a new ledger after the driver's two rounds holds the first round's transfers, Miner1's reward, the second round's transfers and Miner1's reward, in that order |
| Scenarios.TransferScenario | PyBasicBlockchain/Chain1/Blockchain.py:5-30 | the whole transfer driver: the balances it prints are Miner1 100, Alice -50, Bob 25, Charlie 15 and Dave 10 |
| Scenarios.SelectOfThree | PyBasicBlockchain/Chain2/PyBasicBlockchain2.py:74-88 | a query over three messages keeps each one whose matching side is the user, in order |
| Scenarios.QueryOverRounds | PyBasicBlockchain/Chain2/PyBasicBlockchain2.py:74-88 | a query over two sealed rounds is the query over the first round, message by message, followed by the query over the second |
| Scenarios.DriverInboxes | PyBasicBlockchain/Chain2/Blockchain.py:8-34 | after both rounds Bob received "Hello, Bob!", Alice received Bob's reply "Hi, Alice!", Dave received Charlie's message and Charlie received Dave's reply, each exactly once |
| Scenarios.DriverSentAndRewards | PyBasicBlockchain/Chain2/Blockchain.py:8-19 | after both rounds Bob's sent list is his reply to Alice, Charlie's is his message to Dave, and each miner's inbox is exactly its own reward message |
| Scenarios.MessageRound | PyBasicBlockchain/Chain2/Blockchain.py:8-12 | queuing a round of messages and mining them appends exactly those messages and the miner's reward message to the chain and leaves nothing pending |
| Scenarios.MessagingRounds | PyBasicBlockchain/Chain2/Blockchain.py:5-19 | a new ledger after the driver's two rounds holds Alice's and Bob's messages, Miner1's reward, Charlie's and Dave's messages and Miner2's reward, in that order |
| Scenarios.MessagingScenario | PyBasicBlockchain/Chain2/Blockchain.py:5-37 | the whole messaging driver: Bob's, Alice's and Dave's inboxes and Charlie's history hold the messages addressed to and sent by each, Bob's sent list is his reply, and each miner received its reward |

## Left out

- SHA-256 and the JSON serialisation are not modelled. The model uses the
  abstract digest function `Hasher` (see above), so no property of SHA-256
  (collision resistance, output format) is assumed or used.
- Blocks.Block.MineBlock: requires that some attempt meets the difficulty
  (`SearchSucceeds`), so the run where the Python loop never terminates is
  not modelled.
- Blocks.NewMinedBlock and MessagingLedger.MessagingBlockchain.CreateGenesisBlock:
  they mine a new block and carry the same `SearchSucceeds` requirement, for
  the same reason.
- TransferLedger.Blockchain.MinePendingTransactions and
  MessagingLedger.MessagingBlockchain.MinePendingMessages: they carry the
  same `SearchSucceeds` requirement on the header they build, for the same
  reason.
- MessagingLedger.MessagingBlockchain.constructor: it carries the same
  `SearchSucceeds` requirement for its mined genesis block.
- `time()` is not read. Each reading is a parameter of the operation that
  takes it.
- The `print` diagnostics in `is_chain_valid` of the messaging ledger are
  output only. They are left out.
- Transfers and messages are typed records (`Transfer`, `Message`) rather
  than dictionaries. A missing key (`KeyError`) or a non-numeric amount
  therefore cannot occur.
- Amounts are unbounded integers. Python `float` amounts are not modelled.
- Tampering with a sealed block's index, timestamp, payloads or previous
  hash is not modelled. These fields are fixed when a block is built, and
  only `nonce` and `hash` can change. The validator is still modelled on
  any chain, through `ChainValid`.
- The chat application (`Chain2/ChatApp/ChatApp.py`, `ChatServer.py`,
  `MessageViewer.py`) is not part of this model. It is a network and UI
  front end over the messaging ledger.
- The driver scripts (`Chain1/Blockchain.py`, `Chain2/Blockchain.py` and
  the identical `__main__` block of `PyBasicBlockchain.py`) print their
  results. `scenarios.dfy` replays them round by round, but it does not
  model the printing. It also does not model the block listing and the
  `is_chain_valid` result, which depend on the digest function.
- MessagingLedger.Select: the message-filter results are compared by value.
  Python returns the very dictionaries stored in the blocks, so that
  aliasing is not modelled.
