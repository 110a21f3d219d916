/** The transfer ledger: blocks carry transfers, mining pays the miner a fixed
    reward, and balances are replayed from every transfer on the chain. */
module TransferLedger {
  import opened Blocks

  datatype Transfer = Transfer(sender: string, recipient: string, amount: int)

  /** Leading zeros a mined block's digest must show. */
  const Difficulty: nat := 4
  /** Amount of the reward transfer added to each mined block. */
  const Reward: int := 50
  /** Sender of the reward transfer. */
  const Network: string := "network"

  function RewardTransfer(minerAddress: string): Transfer
  {
    Transfer(Network, minerAddress, Reward)
  }

  /** What one transfer does to the balance of `address`: the amount is taken
      away when it is the sender and added when it is the recipient. */
  function Delta(t: Transfer, address: string): int
  {
    (if t.recipient == address then t.amount else 0) - (if t.sender == address then t.amount else 0)
  }

  /** The balance of `address` after replaying `transfers` in order from 0. */
  function Balance(transfers: seq<Transfer>, address: string): int
  {
    if transfers == [] then 0
    else Balance(transfers[..|transfers| - 1], address) + Delta(transfers[|transfers| - 1], address)
  }

  /** Replaying two runs of transfers one after the other adds their effects. */
  lemma {:induction false} BalanceAppend(xs: seq<Transfer>, ys: seq<Transfer>, address: string)
    ensures Balance(xs + ys, address) == Balance(xs, address) + Balance(ys, address)
  {
    if ys == [] {
      assert xs + ys == xs;
    } else {
      var init := ys[..|ys| - 1];
      assert (xs + ys)[..|xs + ys| - 1] == xs + init;
      assert (xs + ys)[|xs + ys| - 1] == ys[|ys| - 1];
      BalanceAppend(xs, init, address);
    }
  }

  /** An address that neither sends nor receives anything has balance 0. */
  lemma {:induction false} BalanceOfUninvolvedAddress(transfers: seq<Transfer>, address: string)
    requires forall t :: t in transfers ==> t.sender != address && t.recipient != address
    ensures Balance(transfers, address) == 0
  {
    if transfers != [] {
      var init := transfers[..|transfers| - 1];
      assert forall t :: t in init ==> t in transfers;
      BalanceOfUninvolvedAddress(init, address);
    }
  }

  /** A transfer to oneself leaves one's balance where it was. */
  lemma SelfTransferIsNeutral(transfers: seq<Transfer>, address: string, amount: int)
    ensures Balance(transfers + [Transfer(address, address, amount)], address) == Balance(transfers, address)
  {
    assert (transfers + [Transfer(address, address, amount)])[..|transfers|] == transfers;
  }

  /** Sealing `pending` and the reward into a block changes the miner's balance
      by the reward plus the miner's net in `pending`, and the network's
      balance by its net in `pending` less the reward. */
  lemma SealedBlockBalances(history: seq<Transfer>, pending: seq<Transfer>, minerAddress: string)
    requires minerAddress != Network
    ensures Balance(history + pending + [RewardTransfer(minerAddress)], minerAddress)
            == Balance(history, minerAddress) + Balance(pending, minerAddress) + Reward
    ensures Balance(history + pending + [RewardTransfer(minerAddress)], Network)
            == Balance(history, Network) + Balance(pending, Network) - Reward
  {
    BalanceAppend(history, pending, minerAddress);
    BalanceAppend(history + pending, [RewardTransfer(minerAddress)], minerAddress);
    BalanceAppend(history, pending, Network);
    BalanceAppend(history + pending, [RewardTransfer(minerAddress)], Network);
  }

  /** When the network itself is the miner, the reward is a transfer to
      oneself and the network's balance moves by its net in `pending` only. */
  lemma NetworkMinerBalance(history: seq<Transfer>, pending: seq<Transfer>)
    ensures Balance(history + pending + [RewardTransfer(Network)], Network)
            == Balance(history, Network) + Balance(pending, Network)
  {
    BalanceAppend(history, pending, Network);
    SelfTransferIsNeutral(history + pending, Network, Reward);
  }

  class Blockchain {
    const hasher: Hasher<Transfer>
    var chain: seq<Block<Transfer>>
    var pendingTransactions: seq<Transfer>

    /** The chain starts at an unmined genesis block (index 0, no transfers,
        previous hash "0", nonce 0, digest taken before `hash` existed);
        every later block i has index i, points at the digest of block i - 1
        and carries a digest that meets the difficulty. */
    ghost predicate Valid()
      reads this`chain, chain
    {
      && |chain| >= 1
      && chain[0].index == 0
      && chain[0].payloads == []
      && chain[0].previousHash == "0"
      && chain[0].nonce == 0
      && chain[0].hash == hasher(chain[0].Fields(), None)
      && MinedFrom(chain, Difficulty, 1)
    }

    /** Every transfer on the chain, in block order and in order within a block. */
    function AllTransactions(): seq<Transfer>
      reads this`chain
    {
      Entries(chain)
    }

    constructor (hasher: Hasher<Transfer>, genesisTime: real)
      ensures Valid()
      ensures this.hasher == hasher
      ensures |chain| == 1 && fresh(chain[0])
      ensures chain[0].Fields() == Header(0, genesisTime, [], "0", 0)
      ensures pendingTransactions == [] && AllTransactions() == []
      ensures ChainValid(hasher, chain)
    {
      this.hasher := hasher;
      chain := [];
      pendingTransactions := [];
      new;
      CreateGenesisBlock(genesisTime);
      assert chain == [] + [chain[0]];
      EntriesAppend([], chain[0]);
    }

    /** Appends a block with index 0, no transfers and previous hash "0",
        without mining it. */
    method CreateGenesisBlock(timestamp: real)
      modifies this`chain
      ensures |chain| == |old(chain)| + 1 && chain[..|old(chain)|] == old(chain)
      ensures fresh(chain[|chain| - 1])
      ensures chain[|chain| - 1].Fields() == Header(0, timestamp, [], "0", 0)
      ensures chain[|chain| - 1].hash == hasher(chain[|chain| - 1].Fields(), None)
    {
      var genesisBlock := new Block(hasher, 0, timestamp, [], "0");
      chain := chain + [genesisBlock];
    }

    /** The most recent block: the one whose index is one less than the
        chain length. */
    function GetLastBlock(): (b: Block<Transfer>)
      reads this`chain, chain
      requires Valid()
      ensures b in chain && b.index == |chain| - 1
    {
      chain[|chain| - 1]
    }

    method AddTransaction(transaction: Transfer)
      requires Valid()
      modifies this`pendingTransactions
      ensures Valid()
      ensures pendingTransactions == old(pendingTransactions) + [transaction]
      ensures AllTransactions() == old(AllTransactions())
    {
      pendingTransactions := pendingTransactions + [transaction];
    }

    /** The header of the block the next call of MinePendingTransactions builds. */
    ghost function NextHeader(minerAddress: string, timestamp: real): Header<Transfer>
      reads this, chain
      requires |chain| >= 1
    {
      Header(|chain|, timestamp, pendingTransactions + [RewardTransfer(minerAddress)], chain[|chain| - 1].hash, 0)
    }

    /** Seals the pending transfers and the miner's reward into a new mined
        block, appends it and empties the pending list. */
    method MinePendingTransactions(minerAddress: string, timestamp: real)
      requires Valid()
      requires SearchSucceeds(hasher, NextHeader(minerAddress, timestamp),
                              InitialAttempt(hasher, NextHeader(minerAddress, timestamp)), Difficulty)
      modifies this
      ensures Valid()
      ensures |chain| == |old(chain)| + 1 && chain[..|old(chain)|] == old(chain)
      ensures forall b :: b in old(chain) ==> unchanged(b)
      ensures fresh(chain[|chain| - 1])
      ensures chain[|chain| - 1].index == |old(chain)|
      ensures chain[|chain| - 1].timestamp == timestamp
      ensures chain[|chain| - 1].previousHash == old(chain[|chain| - 1].hash)
      ensures chain[|chain| - 1].payloads == old(pendingTransactions) + [RewardTransfer(minerAddress)]
      ensures SearchEndsAt(hasher, old(NextHeader(minerAddress, timestamp)),
                           old(InitialAttempt(hasher, NextHeader(minerAddress, timestamp))), Difficulty,
                           Attempt(chain[|chain| - 1].nonce, chain[|chain| - 1].hash))
      ensures pendingTransactions == []
      ensures AllTransactions() == old(AllTransactions()) + old(pendingTransactions) + [RewardTransfer(minerAddress)]
      ensures minerAddress != Network ==>
                Balance(AllTransactions(), minerAddress)
                == old(Balance(AllTransactions(), minerAddress) + Balance(pendingTransactions, minerAddress)) + Reward
      ensures minerAddress != Network ==>
                Balance(AllTransactions(), Network)
                == old(Balance(AllTransactions(), Network) + Balance(pendingTransactions, Network)) - Reward
    {
      ghost var history, pending := AllTransactions(), pendingTransactions;
      var last := GetLastBlock();
      var newBlock := NewMinedBlock(hasher, |chain|, timestamp, pendingTransactions + [RewardTransfer(minerAddress)],
                                    last.hash, Difficulty);
      AppendBlock(newBlock);
      pendingTransactions := [];
      if minerAddress != Network {
        SealedBlockBalances(history, pending, minerAddress);
      }
    }

    /** `self.chain.append(new_block)` for a block mined at the next index
        that links to the last block: the invariant is kept and the block's
        transfers follow every earlier one. */
    method AppendBlock(newBlock: Block<Transfer>)
      requires Valid()
      requires newBlock.index == |chain| && newBlock.previousHash == chain[|chain| - 1].hash
      requires MeetsDifficulty(newBlock.hash, Difficulty)
      modifies this`chain
      ensures chain == old(chain) + [newBlock]
      ensures Valid()
      ensures AllTransactions() == old(AllTransactions()) + newBlock.payloads
    {
      MinedFromAppend(chain, newBlock, Difficulty, 1);
      EntriesAppend(chain, newBlock);
      chain := chain + [newBlock];
    }

    method IsChainValid() returns (valid: bool)
      ensures valid == ChainValid(hasher, chain)
    {
      valid := Blocks.IsChainValid(hasher, chain);
    }

    /** On a chain that keeps the invariant the links always hold, so the
        validator accepts exactly when every block after genesis reproduces
        its stored digest from its attributes and that same digest. */
    lemma ValidatorChecksDigestsOnly()
      requires Valid()
      ensures ChainValid(hasher, chain) <==>
              forall i :: 1 <= i < |chain| ==> chain[i].hash == chain[i].ComputeHash(hasher)
    {
      if forall i :: 1 <= i < |chain| ==> chain[i].hash == chain[i].ComputeHash(hasher) {
        forall i | 1 <= i < |chain| ensures BlockValid(hasher, chain, i) {
        }
      }
      if ChainValid(hasher, chain) {
        forall i | 1 <= i < |chain| ensures chain[i].hash == chain[i].ComputeHash(hasher) {
          assert BlockValid(hasher, chain, i);
        }
      }
    }

    method GetBalance(address: string) returns (balance: int)
      ensures balance == Balance(AllTransactions(), address)
    {
      balance := 0;
      for i := 0 to |chain|
        invariant balance == Balance(Entries(chain[..i]), address)
      {
        var block := chain[i];
        var transactions := block.payloads;
        ghost var start := balance;
        for j := 0 to |transactions|
          invariant balance == start + Balance(transactions[..j], address)
        {
          var transaction := transactions[j];
          if transaction.sender == address {
            balance := balance - transaction.amount;
          }
          if transaction.recipient == address {
            balance := balance + transaction.amount;
          }
          assert transactions[..j + 1][..j] == transactions[..j];
        }
        assert transactions[..|transactions|] == transactions;
        BalanceAppend(Entries(chain[..i]), transactions, address);
        assert chain[..i + 1] == chain[..i] + [block];
        EntriesAppend(chain[..i], block);
      }
      assert chain[..|chain|] == chain;
    }
  }
}
