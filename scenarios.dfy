/** The example drivers of both ledgers, replayed against the contracts alone
    under a digest function whose first attempt always meets the difficulty. */
module Scenarios {
  import opened Blocks
  import TransferLedger
  import MessagingLedger

  function AlwaysSealed<P>(hdr: Header<P>, stale: Option<string>): string
  {
    "0000"
  }

  lemma FirstAttemptSeals<P>(hdr: Header<P>)
    ensures SearchSucceeds(AlwaysSealed, hdr, InitialAttempt(AlwaysSealed, hdr), 4)
  {
    assert RequiredPrefix(4) == "0000";
    assert MeetsDifficulty(AttemptAfter(AlwaysSealed, hdr, InitialAttempt(AlwaysSealed, hdr), 0).hash, 4);
  }

  /** The balance after three transfers is the sum of what each does to it. */
  lemma {:induction false} BalanceOfThree(x: TransferLedger.Transfer, y: TransferLedger.Transfer,
                                          z: TransferLedger.Transfer, address: string)
    ensures TransferLedger.Balance([x, y, z], address)
            == TransferLedger.Delta(x, address) + TransferLedger.Delta(y, address) + TransferLedger.Delta(z, address)
  {
    BalanceOfTwo(x, y, address);
    assert [x, y, z][..2] == [x, y];
  }

  /** The balance after two transfers is the sum of what each does to it. */
  lemma {:induction false} BalanceOfTwo(x: TransferLedger.Transfer, y: TransferLedger.Transfer, address: string)
    ensures TransferLedger.Balance([x, y], address)
            == TransferLedger.Delta(x, address) + TransferLedger.Delta(y, address)
  {
    assert [x][..0] == [];
    assert TransferLedger.Balance([x], address) == TransferLedger.Delta(x, address);
    assert [x, y][..1] == [x];
  }

  /** The balances the transfer driver reaches: after the first round
      (Alice pays Bob 50, Bob pays Charlie 25, Miner1 mines) and after the
      second (Charlie pays Dave 10, Miner1 mines again). */
  lemma DriverBalances(round1: seq<TransferLedger.Transfer>, round2: seq<TransferLedger.Transfer>)
    requires round1 == [TransferLedger.Transfer("Alice", "Bob", 50), TransferLedger.Transfer("Bob", "Charlie", 25),
                        TransferLedger.RewardTransfer("Miner1")]
    requires round2 == [TransferLedger.Transfer("Charlie", "Dave", 10), TransferLedger.RewardTransfer("Miner1")]
    ensures TransferLedger.Balance(round1, "Alice") == -50
    ensures TransferLedger.Balance(round1, "Bob") == 25
    ensures TransferLedger.Balance(round1, "Charlie") == 25
    ensures TransferLedger.Balance(round1, "Miner1") == 50
    ensures TransferLedger.Balance(round1 + round2, "Miner1") == 100
    ensures TransferLedger.Balance(round1 + round2, "Alice") == -50
    ensures TransferLedger.Balance(round1 + round2, "Bob") == 25
    ensures TransferLedger.Balance(round1 + round2, "Charlie") == 15
    ensures TransferLedger.Balance(round1 + round2, "Dave") == 10
  {
    forall a | a in ["Alice", "Bob", "Charlie", "Dave", "Miner1"]
      ensures TransferLedger.Balance(round1 + round2, a)
              == TransferLedger.Balance(round1, a) + TransferLedger.Balance(round2, a)
      ensures TransferLedger.Balance(round1, a)
              == TransferLedger.Delta(round1[0], a) + TransferLedger.Delta(round1[1], a) + TransferLedger.Delta(round1[2], a)
      ensures TransferLedger.Balance(round2, a) == TransferLedger.Delta(round2[0], a) + TransferLedger.Delta(round2[1], a)
    {
      TransferLedger.BalanceAppend(round1, round2, a);
      BalanceOfThree(round1[0], round1[1], round1[2], a);
      BalanceOfTwo(round2[0], round2[1], a);
    }
  }

  /** One round of the transfer driver: queue `transfers` one by one, then
      let `minerAddress` mine them. */
  method TransferRound(ledger: TransferLedger.Blockchain, transfers: seq<TransferLedger.Transfer>,
                       minerAddress: string, timestamp: real)
    requires ledger.Valid() && ledger.hasher == AlwaysSealed && ledger.pendingTransactions == []
    modifies ledger
    ensures ledger.Valid() && ledger.pendingTransactions == []
    ensures ledger.AllTransactions()
            == old(ledger.AllTransactions()) + transfers + [TransferLedger.RewardTransfer(minerAddress)]
  {
    for i := 0 to |transfers|
      invariant ledger.Valid() && ledger.pendingTransactions == transfers[..i]
      invariant ledger.AllTransactions() == old(ledger.AllTransactions())
    {
      ledger.AddTransaction(transfers[i]);
      assert transfers[..i + 1] == transfers[..i] + [transfers[i]];
    }
    assert transfers[..|transfers|] == transfers;
    FirstAttemptSeals(ledger.NextHeader(minerAddress, timestamp));
    ledger.MinePendingTransactions(minerAddress, timestamp);
  }

  /** Two rounds on a new transfer ledger, both mined by Miner1. */
  method TransferRounds(genesisTime: real, first: seq<TransferLedger.Transfer>, firstMining: real,
                        second: seq<TransferLedger.Transfer>, secondMining: real)
    returns (ledger: TransferLedger.Blockchain)
    ensures ledger.AllTransactions()
            == first + [TransferLedger.RewardTransfer("Miner1")] + second + [TransferLedger.RewardTransfer("Miner1")]
  {
    ledger := new TransferLedger.Blockchain(AlwaysSealed, genesisTime);
    TransferRound(ledger, first, "Miner1", firstMining);
    TransferRound(ledger, second, "Miner1", secondMining);
  }

  /** The transfer driver end to end: Alice pays Bob 50 and Bob pays
      Charlie 25, Miner1 mines; Charlie pays Dave 10, Miner1 mines again;
      then the five balances it prints. */
  method TransferScenario(genesisTime: real, firstMining: real, secondMining: real)
    returns (miner: int, alice: int, bob: int, charlie: int, dave: int)
    ensures miner == 100 && alice == -50 && bob == 25 && charlie == 15 && dave == 10
  {
    var reward := TransferLedger.RewardTransfer("Miner1");
    var first := [TransferLedger.Transfer("Alice", "Bob", 50), TransferLedger.Transfer("Bob", "Charlie", 25)];
    var second := [TransferLedger.Transfer("Charlie", "Dave", 10)];
    var ledger := TransferRounds(genesisTime, first, firstMining, second, secondMining);
    ghost var round1, round2 := first + [reward], second + [reward];
    assert ledger.AllTransactions() == round1 + round2;
    DriverBalances(round1, round2);
    miner := ledger.GetBalance("Miner1");
    alice := ledger.GetBalance("Alice");
    bob := ledger.GetBalance("Bob");
    charlie := ledger.GetBalance("Charlie");
    dave := ledger.GetBalance("Dave");
  }

  /** The messages of three that a query keeps, each in its place. */
  lemma {:induction false} SelectOfThree(x: MessagingLedger.Message, y: MessagingLedger.Message,
                                         z: MessagingLedger.Message, role: MessagingLedger.Role, user: string)
    ensures MessagingLedger.Select([x, y, z], role, user)
            == (if MessagingLedger.Party(x, role) == user then [x] else [])
               + (if MessagingLedger.Party(y, role) == user then [y] else [])
               + (if MessagingLedger.Party(z, role) == user then [z] else [])
  {
    assert [x][..0] == [];
    assert MessagingLedger.Select([x], role, user) == (if MessagingLedger.Party(x, role) == user then [x] else []);
    assert [x, y][..1] == [x];
    assert MessagingLedger.Select([x, y], role, user)
           == (if MessagingLedger.Party(x, role) == user then [x] else [])
              + (if MessagingLedger.Party(y, role) == user then [y] else []);
    assert [x, y, z][..2] == [x, y];
  }

  /** A query over two sealed rounds of three messages each is the query
      over each round, joined. */
  lemma QueryOverRounds(a: MessagingLedger.Message, b: MessagingLedger.Message, c: MessagingLedger.Message,
                        d: MessagingLedger.Message, e: MessagingLedger.Message, f: MessagingLedger.Message,
                        role: MessagingLedger.Role, user: string)
    ensures MessagingLedger.Select([a, b, c] + [d, e, f], role, user)
            == ((if MessagingLedger.Party(a, role) == user then [a] else [])
                + (if MessagingLedger.Party(b, role) == user then [b] else [])
                + (if MessagingLedger.Party(c, role) == user then [c] else []))
               + MessagingLedger.Select([d, e, f], role, user)
  {
    MessagingLedger.SelectAppend([a, b, c], [d, e, f], role, user);
    SelectOfThree(a, b, c, role, user);
  }

  /** What the messaging driver's inbox queries return once both rounds
      are sealed (Alice and Bob greet each other and Miner1 mines; Charlie
      and Dave greet each other and Miner2 mines): each user received exactly
      the one message addressed to them. */
  lemma DriverInboxes(helloBob: MessagingLedger.Message, hiAlice: MessagingLedger.Message,
                        reward1: MessagingLedger.Message, heyDave: MessagingLedger.Message,
                        heyCharlie: MessagingLedger.Message, reward2: MessagingLedger.Message)
    requires helloBob.sender == "Alice" && helloBob.recipient == "Bob"
    requires hiAlice.sender == "Bob" && hiAlice.recipient == "Alice"
    requires reward1.sender == MessagingLedger.Network && reward1.recipient == "Miner1"
    requires heyDave.sender == "Charlie" && heyDave.recipient == "Dave"
    requires heyCharlie.sender == "Dave" && heyCharlie.recipient == "Charlie"
    requires reward2.sender == MessagingLedger.Network && reward2.recipient == "Miner2"
    ensures MessagingLedger.Select([helloBob, hiAlice, reward1] + [heyDave, heyCharlie, reward2],
                                   MessagingLedger.Recipient, "Bob") == [helloBob]
    ensures MessagingLedger.Select([helloBob, hiAlice, reward1] + [heyDave, heyCharlie, reward2],
                                   MessagingLedger.Recipient, "Alice") == [hiAlice]
    ensures MessagingLedger.Select([helloBob, hiAlice, reward1] + [heyDave, heyCharlie, reward2],
                                   MessagingLedger.Recipient, "Dave") == [heyDave]
    ensures MessagingLedger.Select([helloBob, hiAlice, reward1] + [heyDave, heyCharlie, reward2],
                                   MessagingLedger.Recipient, "Charlie") == [heyCharlie]
  {
    QueryOverRounds(helloBob, hiAlice, reward1, heyDave, heyCharlie, reward2, MessagingLedger.Recipient, "Bob");
    SelectOfThree(heyDave, heyCharlie, reward2, MessagingLedger.Recipient, "Bob");
    QueryOverRounds(helloBob, hiAlice, reward1, heyDave, heyCharlie, reward2, MessagingLedger.Recipient, "Alice");
    SelectOfThree(heyDave, heyCharlie, reward2, MessagingLedger.Recipient, "Alice");
    QueryOverRounds(helloBob, hiAlice, reward1, heyDave, heyCharlie, reward2, MessagingLedger.Recipient, "Dave");
    SelectOfThree(heyDave, heyCharlie, reward2, MessagingLedger.Recipient, "Dave");
    QueryOverRounds(helloBob, hiAlice, reward1, heyDave, heyCharlie, reward2, MessagingLedger.Recipient, "Charlie");
    SelectOfThree(heyDave, heyCharlie, reward2, MessagingLedger.Recipient, "Charlie");
  }

  /** On the same two rounds: each user sent exactly the one message they
      wrote, and each miner received exactly its reward message. */
  lemma DriverSentAndRewards(helloBob: MessagingLedger.Message, hiAlice: MessagingLedger.Message,
                        reward1: MessagingLedger.Message, heyDave: MessagingLedger.Message,
                        heyCharlie: MessagingLedger.Message, reward2: MessagingLedger.Message)
    requires helloBob.sender == "Alice" && helloBob.recipient == "Bob"
    requires hiAlice.sender == "Bob" && hiAlice.recipient == "Alice"
    requires reward1.sender == MessagingLedger.Network && reward1.recipient == "Miner1"
    requires heyDave.sender == "Charlie" && heyDave.recipient == "Dave"
    requires heyCharlie.sender == "Dave" && heyCharlie.recipient == "Charlie"
    requires reward2.sender == MessagingLedger.Network && reward2.recipient == "Miner2"
    ensures MessagingLedger.Select([helloBob, hiAlice, reward1] + [heyDave, heyCharlie, reward2],
                                   MessagingLedger.Sender, "Charlie") == [heyDave]
    ensures MessagingLedger.Select([helloBob, hiAlice, reward1] + [heyDave, heyCharlie, reward2],
                                   MessagingLedger.Sender, "Bob") == [hiAlice]
    ensures MessagingLedger.Select([helloBob, hiAlice, reward1] + [heyDave, heyCharlie, reward2],
                                   MessagingLedger.Recipient, "Miner1") == [reward1]
    ensures MessagingLedger.Select([helloBob, hiAlice, reward1] + [heyDave, heyCharlie, reward2],
                                   MessagingLedger.Recipient, "Miner2") == [reward2]
  {
    QueryOverRounds(helloBob, hiAlice, reward1, heyDave, heyCharlie, reward2, MessagingLedger.Sender, "Charlie");
    SelectOfThree(heyDave, heyCharlie, reward2, MessagingLedger.Sender, "Charlie");
    QueryOverRounds(helloBob, hiAlice, reward1, heyDave, heyCharlie, reward2, MessagingLedger.Sender, "Bob");
    SelectOfThree(heyDave, heyCharlie, reward2, MessagingLedger.Sender, "Bob");
    QueryOverRounds(helloBob, hiAlice, reward1, heyDave, heyCharlie, reward2, MessagingLedger.Recipient, "Miner1");
    SelectOfThree(heyDave, heyCharlie, reward2, MessagingLedger.Recipient, "Miner1");
    QueryOverRounds(helloBob, hiAlice, reward1, heyDave, heyCharlie, reward2, MessagingLedger.Recipient, "Miner2");
    SelectOfThree(heyDave, heyCharlie, reward2, MessagingLedger.Recipient, "Miner2");
  }

  /** One round of the messaging driver: queue `messages` one by one, then
      let `minerAddress` mine them. */
  method MessageRound(ledger: MessagingLedger.MessagingBlockchain, messages: seq<MessagingLedger.Message>,
                      minerAddress: string, rewardTime: real, blockTime: real)
    requires ledger.Valid() && ledger.hasher == AlwaysSealed && ledger.pendingMessages == []
    modifies ledger
    ensures ledger.Valid() && ledger.pendingMessages == []
    ensures ledger.AllMessages()
            == old(ledger.AllMessages()) + messages + [MessagingLedger.RewardMessage(minerAddress, rewardTime)]
  {
    for i := 0 to |messages|
      invariant ledger.Valid() && ledger.pendingMessages == messages[..i]
      invariant ledger.AllMessages() == old(ledger.AllMessages())
    {
      ledger.AddMessage(messages[i]);
      assert messages[..i + 1] == messages[..i] + [messages[i]];
    }
    assert messages[..|messages|] == messages;
    FirstAttemptSeals(ledger.NextHeader(minerAddress, rewardTime, blockTime));
    ledger.MinePendingMessages(minerAddress, rewardTime, blockTime);
  }

  /** Two rounds on a new messaging ledger, mined by Miner1 and then
      Miner2. */
  method MessagingRounds(genesisTime: real, first: seq<MessagingLedger.Message>,
                         second: seq<MessagingLedger.Message>, rewardTimes: seq<real>, blockTimes: seq<real>)
    returns (ledger: MessagingLedger.MessagingBlockchain)
    requires |rewardTimes| == 2 && |blockTimes| == 2
    ensures ledger.AllMessages()
            == first + [MessagingLedger.RewardMessage("Miner1", rewardTimes[0])]
               + second + [MessagingLedger.RewardMessage("Miner2", rewardTimes[1])]
  {
    FirstAttemptSeals<MessagingLedger.Message>(Header(0, genesisTime, [], "0", 0));
    ledger := new MessagingLedger.MessagingBlockchain(AlwaysSealed, genesisTime);
    ghost var reward1 := MessagingLedger.RewardMessage("Miner1", rewardTimes[0]);
    ghost var reward2 := MessagingLedger.RewardMessage("Miner2", rewardTimes[1]);
    MessageRound(ledger, first, "Miner1", rewardTimes[0], blockTimes[0]);
    ghost var afterFirst := ledger.AllMessages();
    assert afterFirst == first + [reward1];
    MessageRound(ledger, second, "Miner2", rewardTimes[1], blockTimes[1]);
    assert ledger.AllMessages() == afterFirst + second + [reward2];
  }

  /** The messaging driver end to end: Alice and Bob greet each other and
      Miner1 mines; Charlie and Dave greet each other and Miner2 mines; then
      the inboxes and the history it prints, Bob's sent list and the two
      miners' rewards. `sent` holds the four `time()` readings taken as the
      messages are written. */
  method MessagingScenario(genesisTime: real, sent: seq<real>, rewardTimes: seq<real>, blockTimes: seq<real>)
    returns (bobInbox: seq<MessagingLedger.Message>, aliceInbox: seq<MessagingLedger.Message>,
             daveInbox: seq<MessagingLedger.Message>, charlieHistory: MessagingLedger.History,
             bobSent: seq<MessagingLedger.Message>, minerInboxes: seq<seq<MessagingLedger.Message>>)
    requires |sent| == 4 && |rewardTimes| == 2 && |blockTimes| == 2
    ensures bobInbox == [MessagingLedger.Message("Alice", "Bob", "Hello, Bob!", sent[0])]
    ensures aliceInbox == [MessagingLedger.Message("Bob", "Alice", "Hi, Alice!", sent[1])]
    ensures daveInbox == [MessagingLedger.Message("Charlie", "Dave", "Hey Dave, long time no see!", sent[2])]
    ensures charlieHistory.received
            == [MessagingLedger.Message("Dave", "Charlie", "Hey Charlie, indeed! How have you been?", sent[3])]
    ensures charlieHistory.sent == daveInbox
    ensures bobSent == aliceInbox
    ensures minerInboxes == [[MessagingLedger.RewardMessage("Miner1", rewardTimes[0])],
                             [MessagingLedger.RewardMessage("Miner2", rewardTimes[1])]]
  {
    var helloBob := MessagingLedger.Message("Alice", "Bob", "Hello, Bob!", sent[0]);
    var hiAlice := MessagingLedger.Message("Bob", "Alice", "Hi, Alice!", sent[1]);
    var heyDave := MessagingLedger.Message("Charlie", "Dave", "Hey Dave, long time no see!", sent[2]);
    var heyCharlie := MessagingLedger.Message("Dave", "Charlie", "Hey Charlie, indeed! How have you been?", sent[3]);
    var ledger := MessagingRounds(genesisTime, [helloBob, hiAlice], [heyDave, heyCharlie], rewardTimes, blockTimes);
    ghost var reward1 := MessagingLedger.RewardMessage("Miner1", rewardTimes[0]);
    ghost var reward2 := MessagingLedger.RewardMessage("Miner2", rewardTimes[1]);
    assert ledger.AllMessages() == [helloBob, hiAlice, reward1] + [heyDave, heyCharlie, reward2];
    DriverInboxes(helloBob, hiAlice, reward1, heyDave, heyCharlie, reward2);
    DriverSentAndRewards(helloBob, hiAlice, reward1, heyDave, heyCharlie, reward2);

    bobInbox := ledger.GetUserMessages("Bob");
    aliceInbox := ledger.GetUserMessages("Alice");
    daveInbox := ledger.GetUserMessages("Dave");
    charlieHistory := ledger.GetUserHistory("Charlie");
    bobSent := ledger.GetSentMessages("Bob");
    var miner1Inbox := ledger.GetUserMessages("Miner1");
    var miner2Inbox := ledger.GetUserMessages("Miner2");
    minerInboxes := [miner1Inbox, miner2Inbox];
  }
}
