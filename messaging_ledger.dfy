/** The messaging ledger: blocks carry messages, every block (genesis
    included) is mined, mining pays the miner a reward message, and a user's
    history is read back by filtering every message on the chain. */
module MessagingLedger {
  import opened Blocks

  datatype Message = Message(sender: string, recipient: string, content: string, timestamp: real)

  /** What a user's history holds: messages addressed to them and messages
      they sent. */
  datatype History = History(received: seq<Message>, sent: seq<Message>)

  /** Leading zeros a mined block's digest must show. */
  const Difficulty: nat := 4
  /** The reward the reward message announces. */
  const MiningReward: nat := 1
  /** Sender of the reward message. */
  const Network: string := "Network"

  /** The number a string of decimal digits spells, most significant first. */
  function DigitsValue(s: string): int
  {
    if s == [] then 0 else DigitsValue(s[..|s| - 1]) * 10 + (s[|s| - 1] as int - '0' as int)
  }

  /** The decimal digits of n, as `str` writes a non-negative integer. */
  function Decimal(n: nat): string
  {
    if n < 10 then ['0' + n as char] else Decimal(n / 10) + ['0' + (n % 10) as char]
  }

  /** `Decimal` writes a non-empty string of digits without a leading zero
      that spells n back. */
  lemma {:induction false} DecimalSpellsNumber(n: nat)
    ensures 1 <= |Decimal(n)|
    ensures forall i :: 0 <= i < |Decimal(n)| ==> '0' <= Decimal(n)[i] <= '9'
    ensures 1 < |Decimal(n)| ==> Decimal(n)[0] != '0'
    ensures DigitsValue(Decimal(n)) == n
  {
    if n >= 10 {
      DecimalSpellsNumber(n / 10);
      var s := Decimal(n);
      assert s[..|s| - 1] == Decimal(n / 10);
    }
  }

  function RewardMessage(minerAddress: string, timestamp: real): Message
  {
    Message(Network, minerAddress, "Mining reward: " + Decimal(MiningReward), timestamp)
  }

  lemma RewardMessageContent(minerAddress: string, timestamp: real)
    ensures RewardMessage(minerAddress, timestamp).content == "Mining reward: 1"
  {
  }

  /** Which side of a message a query matches on. */
  datatype Role = Sender | Recipient

  function Party(m: Message, role: Role): string
  {
    match role
    case Sender => m.sender
    case Recipient => m.recipient
  }

  /** The messages of `messages` whose `role` side is `user`, in their order. */
  function Select(messages: seq<Message>, role: Role, user: string): (r: seq<Message>)
    ensures |r| <= |messages|
  {
    if messages == [] then []
    else
      var init, last := messages[..|messages| - 1], messages[|messages| - 1];
      if Party(last, role) == user then Select(init, role, user) + [last] else Select(init, role, user)
  }

  /** A message is in a query result exactly when it is on the chain and its
      `role` side is `user`. */
  lemma {:induction false} SelectMembers(messages: seq<Message>, role: Role, user: string, m: Message)
    ensures m in Select(messages, role, user) <==> m in messages && Party(m, role) == user
  {
    if messages != [] {
      var init := messages[..|messages| - 1];
      SelectMembers(init, role, user, m);
      assert messages == init + [messages[|messages| - 1]];
    }
  }

  /** Filtering two runs of messages one after the other is filtering each. */
  lemma {:induction false} SelectAppend(xs: seq<Message>, ys: seq<Message>, role: Role, user: string)
    ensures Select(xs + ys, role, user) == Select(xs, role, user) + Select(ys, role, user)
  {
    if ys == [] {
      assert xs + ys == xs;
    } else {
      var init := ys[..|ys| - 1];
      assert (xs + ys)[..|xs + ys| - 1] == xs + init;
      assert (xs + ys)[|xs + ys| - 1] == ys[|ys| - 1];
      SelectAppend(xs, init, role, user);
    }
  }

  /** `s` can be obtained from `t` by deleting elements, keeping the order of
      the rest. */
  ghost predicate IsSubsequence(s: seq<Message>, t: seq<Message>)
    decreases |t|
  {
    if s == [] then true
    else if t == [] then false
    else
      || (s[|s| - 1] == t[|t| - 1] && IsSubsequence(s[..|s| - 1], t[..|t| - 1]))
      || IsSubsequence(s, t[..|t| - 1])
  }

  /** A query result keeps the chain's order: it is a subsequence of all
      messages. */
  lemma {:induction false} SelectIsSubsequence(messages: seq<Message>, role: Role, user: string)
    ensures IsSubsequence(Select(messages, role, user), messages)
  {
    if messages != [] {
      var init, last := messages[..|messages| - 1], messages[|messages| - 1];
      SelectIsSubsequence(init, role, user);
      var r := Select(messages, role, user);
      if Party(last, role) == user {
        assert r[..|r| - 1] == Select(init, role, user);
      } else if r != [] {
        assert IsSubsequence(r, init);
      }
    }
  }

  /** A message from `a` to someone else is among what `a` sent and not among
      what `a` received. */
  lemma SentToOtherIsNotReceived(messages: seq<Message>, m: Message, a: string)
    requires m in messages && m.sender == a && m.recipient != a
    ensures m in Select(messages, Sender, a)
    ensures m !in Select(messages, Recipient, a)
  {
    SelectMembers(messages, Sender, a, m);
    SelectMembers(messages, Recipient, a, m);
  }

  /** Sealing `pending` and the reward message into a block adds to the
      miner's inbox its messages in `pending`, then the reward. */
  lemma SealedBlockInbox(history: seq<Message>, pending: seq<Message>, minerAddress: string, rewardTime: real)
    ensures Select(history + pending + [RewardMessage(minerAddress, rewardTime)], Recipient, minerAddress)
            == Select(history, Recipient, minerAddress) + Select(pending, Recipient, minerAddress)
               + [RewardMessage(minerAddress, rewardTime)]
  {
    var reward := RewardMessage(minerAddress, rewardTime);
    SelectAppend(history + pending, [reward], Recipient, minerAddress);
    SelectAppend(history, pending, Recipient, minerAddress);
    assert Select([reward], Recipient, minerAddress) == [reward];
  }

  /** Appends to `start` the messages of one block whose `role` side is
      `user`, in their order. */
  method CollectInBlock(messages: seq<Message>, role: Role, user: string, start: seq<Message>)
    returns (found: seq<Message>)
    ensures found == start + Select(messages, role, user)
  {
    found := start;
    for j := 0 to |messages|
      invariant found == start + Select(messages[..j], role, user)
    {
      var message := messages[j];
      if Party(message, role) == user {
        found := found + [message];
      }
      assert messages[..j + 1][..j] == messages[..j];
    }
    assert messages[..|messages|] == messages;
  }

  class MessagingBlockchain {
    const hasher: Hasher<Message>
    var chain: seq<Block<Message>>
    var pendingMessages: seq<Message>

    /** The chain starts at a genesis block (index 0, no messages, previous
        hash "0"); every block i has index i and a digest that meets the
        difficulty, and every block after genesis points at the digest of
        the block before it. */
    ghost predicate Valid()
      reads this`chain, chain
    {
      && |chain| >= 1
      && chain[0].payloads == []
      && chain[0].previousHash == "0"
      && MinedFrom(chain, Difficulty, 0)
    }

    /** Every message on the chain, in block order and in order within a block. */
    function AllMessages(): seq<Message>
      reads this`chain
    {
      Entries(chain)
    }

    constructor (hasher: Hasher<Message>, genesisTime: real)
      requires SearchSucceeds(hasher, Header(0, genesisTime, [], "0", 0),
                              InitialAttempt(hasher, Header(0, genesisTime, [], "0", 0)), Difficulty)
      ensures Valid()
      ensures this.hasher == hasher
      ensures |chain| == 1 && fresh(chain[0])
      ensures chain[0].timestamp == genesisTime
      ensures pendingMessages == [] && AllMessages() == []
      ensures ChainValid(hasher, chain)
    {
      this.hasher := hasher;
      chain := [];
      pendingMessages := [];
      new;
      CreateGenesisBlock(genesisTime);
      assert chain == [] + [chain[0]];
      EntriesAppend([], chain[0]);
    }

    /** Appends a mined block with index 0, no messages and previous hash "0". */
    method CreateGenesisBlock(timestamp: real)
      requires SearchSucceeds(hasher, Header(0, timestamp, [], "0", 0),
                              InitialAttempt(hasher, Header(0, timestamp, [], "0", 0)), Difficulty)
      modifies this`chain
      ensures |chain| == |old(chain)| + 1 && chain[..|old(chain)|] == old(chain)
      ensures fresh(chain[|chain| - 1])
      ensures chain[|chain| - 1].index == 0 && chain[|chain| - 1].timestamp == timestamp
      ensures chain[|chain| - 1].payloads == [] && chain[|chain| - 1].previousHash == "0"
      ensures MeetsDifficulty(chain[|chain| - 1].hash, Difficulty)
      ensures SearchEndsAt(hasher, Header(0, timestamp, [], "0", 0),
                           InitialAttempt(hasher, Header(0, timestamp, [], "0", 0)), Difficulty,
                           Attempt(chain[|chain| - 1].nonce, chain[|chain| - 1].hash))
    {
      var genesisBlock := NewMinedBlock(hasher, 0, timestamp, [], "0", Difficulty);
      chain := chain + [genesisBlock];
    }

    /** The most recent block: the one whose index is one less than the
        chain length. */
    function GetLastBlock(): (b: Block<Message>)
      reads this`chain, chain
      requires Valid()
      ensures b in chain && b.index == |chain| - 1
    {
      chain[|chain| - 1]
    }

    /** Queues a message; no block on the chain changes. */
    method AddMessage(message: Message)
      requires Valid()
      modifies this`pendingMessages
      ensures Valid()
      ensures chain == old(chain)
      ensures pendingMessages == old(pendingMessages) + [message]
      ensures AllMessages() == old(AllMessages())
    {
      pendingMessages := pendingMessages + [message];
    }

    /** The header of the block the next call of MinePendingMessages builds. */
    ghost function NextHeader(minerAddress: string, rewardTime: real, blockTime: real): Header<Message>
      reads this, chain
      requires |chain| >= 1
    {
      Header(|chain|, blockTime, pendingMessages + [RewardMessage(minerAddress, rewardTime)], chain[|chain| - 1].hash, 0)
    }

    /** Queues the reward message, seals a copy of the queue into a new mined
        block, appends it and empties the queue. `rewardTime` and `blockTime`
        are the two clock readings the reward message and the block take. */
    method MinePendingMessages(minerAddress: string, rewardTime: real, blockTime: real)
      requires Valid()
      requires SearchSucceeds(hasher, NextHeader(minerAddress, rewardTime, blockTime),
                              InitialAttempt(hasher, NextHeader(minerAddress, rewardTime, blockTime)), Difficulty)
      modifies this
      ensures Valid()
      ensures |chain| == |old(chain)| + 1 && chain[..|old(chain)|] == old(chain)
      ensures forall b :: b in old(chain) ==> unchanged(b)
      ensures fresh(chain[|chain| - 1])
      ensures chain[|chain| - 1].index == |old(chain)|
      ensures chain[|chain| - 1].timestamp == blockTime
      ensures chain[|chain| - 1].previousHash == old(chain[|chain| - 1].hash)
      ensures chain[|chain| - 1].payloads == old(pendingMessages) + [RewardMessage(minerAddress, rewardTime)]
      ensures SearchEndsAt(hasher, old(NextHeader(minerAddress, rewardTime, blockTime)),
                           old(InitialAttempt(hasher, NextHeader(minerAddress, rewardTime, blockTime))), Difficulty,
                           Attempt(chain[|chain| - 1].nonce, chain[|chain| - 1].hash))
      ensures pendingMessages == []
      ensures AllMessages() == old(AllMessages()) + old(pendingMessages) + [RewardMessage(minerAddress, rewardTime)]
    {
      ghost var history, pending := AllMessages(), pendingMessages;
      var reward := RewardMessage(minerAddress, rewardTime);
      pendingMessages := pendingMessages + [reward];
      var last := GetLastBlock();
      var newBlock := NewMinedBlock(hasher, |chain|, blockTime, pendingMessages, last.hash, Difficulty);
      AppendBlock(newBlock);
      pendingMessages := [];
    }

    /** `self.chain.append(new_block)` for a block mined at the next index
        that links to the last block: the invariant is kept and the block's
        messages follow every earlier one. */
    method AppendBlock(newBlock: Block<Message>)
      requires Valid()
      requires newBlock.index == |chain| && newBlock.previousHash == chain[|chain| - 1].hash
      requires MeetsDifficulty(newBlock.hash, Difficulty)
      modifies this`chain
      ensures chain == old(chain) + [newBlock]
      ensures Valid()
      ensures AllMessages() == old(AllMessages()) + newBlock.payloads
    {
      MinedFromAppend(chain, newBlock, Difficulty, 0);
      EntriesAppend(chain, newBlock);
      chain := chain + [newBlock];
    }

    method IsChainValid() returns (valid: bool)
      ensures valid == ChainValid(hasher, chain)
    {
      valid := Blocks.IsChainValid(hasher, chain);
    }

    /** On a chain that keeps the invariant the links always hold, so the
        validator accepts exactly when every block after genesis reproduces
        its stored digest from its attributes and that same digest. */
    lemma ValidatorChecksDigestsOnly()
      requires Valid()
      ensures ChainValid(hasher, chain) <==>
              forall i :: 1 <= i < |chain| ==> chain[i].hash == chain[i].ComputeHash(hasher)
    {
      if forall i :: 1 <= i < |chain| ==> chain[i].hash == chain[i].ComputeHash(hasher) {
        forall i | 1 <= i < |chain| ensures BlockValid(hasher, chain, i) {
        }
      }
      if ChainValid(hasher, chain) {
        forall i | 1 <= i < |chain| ensures chain[i].hash == chain[i].ComputeHash(hasher) {
          assert BlockValid(hasher, chain, i);
        }
      }
    }

    /** Walks every block and every message, keeping those on the `role` side
        of `user`. */
    method Collect(role: Role, user: string) returns (found: seq<Message>)
      ensures found == Select(AllMessages(), role, user)
    {
      found := [];
      for i := 0 to |chain|
        invariant found == Select(Entries(chain[..i]), role, user)
      {
        var block := chain[i];
        found := CollectInBlock(block.payloads, role, user, found);
        SelectAppend(Entries(chain[..i]), block.payloads, role, user);
        assert chain[..i + 1] == chain[..i] + [block];
        EntriesAppend(chain[..i], block);
      }
      assert chain[..|chain|] == chain;
    }

    /** Every message on the chain addressed to `user`, in chain order. */
    method GetUserMessages(user: string) returns (userMessages: seq<Message>)
      ensures userMessages == Select(AllMessages(), Recipient, user)
    {
      userMessages := Collect(Recipient, user);
    }

    /** Every message on the chain sent by `user`, in chain order. */
    method GetSentMessages(user: string) returns (sentMessages: seq<Message>)
      ensures sentMessages == Select(AllMessages(), Sender, user)
    {
      sentMessages := Collect(Sender, user);
    }

    method GetUserHistory(user: string) returns (history: History)
      ensures history.received == Select(AllMessages(), Recipient, user)
      ensures history.sent == Select(AllMessages(), Sender, user)
    {
      var received := GetUserMessages(user);
      var sent := GetSentMessages(user);
      history := History(received, sent);
    }
  }
}
