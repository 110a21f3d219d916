/** Blocks, their digests, the proof-of-work search and the chain validator,
    shared by the transfer ledger and the messaging ledger (the two differ
    only in what a block carries). */
module Blocks {

  datatype Option<T> = None | Some(value: T)

  /** Every attribute of a block except its own digest. */
  datatype Header<P> = Header(index: int, timestamp: real, payloads: seq<P>, previousHash: string, nonce: nat)

  /** SHA-256 of the sorted-key JSON dump of a block's attributes. The second
      argument is the block's `hash` attribute when it exists at the moment of
      serialisation, and None before it has been assigned. */
  type Hasher<!P> = (Header<P>, Option<string>) -> string

  /** What one mining attempt leaves in the block: its nonce and digest. */
  datatype Attempt = Attempt(nonce: nat, hash: string)

  /** `'0' * difficulty` */
  function RequiredPrefix(difficulty: nat): (p: string)
    ensures |p| == difficulty
    ensures forall i :: 0 <= i < |p| ==> p[i] == '0'
  {
    if difficulty == 0 then "" else RequiredPrefix(difficulty - 1) + "0"
  }

  predicate StartsWith(s: string, prefix: string)
  {
    |prefix| <= |s| && s[..|prefix|] == prefix
  }

  /** The mining loop's exit test. */
  predicate MeetsDifficulty(hash: string, difficulty: nat)
  {
    StartsWith(hash, RequiredPrefix(difficulty))
  }

  lemma MeetsDifficultyIsLeadingZeros(hash: string, difficulty: nat)
    ensures MeetsDifficulty(hash, difficulty) <==>
            difficulty <= |hash| && forall i :: 0 <= i < difficulty ==> hash[i] == '0'
  {
    var p := RequiredPrefix(difficulty);
    if difficulty <= |hash| && forall i :: 0 <= i < difficulty ==> hash[i] == '0' {
      assert hash[..difficulty] == p;
    }
  }

  /** The digest a block gets in its constructor, before `hash` exists. */
  function InitialAttempt<P>(h: Hasher<P>, hdr: Header<P>): Attempt
  {
    Attempt(hdr.nonce, h(hdr, None))
  }

  /** One turn of the mining loop: bump the nonce, then hash the attributes,
      the previous attempt's digest among them. */
  function NextAttempt<P>(h: Hasher<P>, hdr: Header<P>, a: Attempt): Attempt
  {
    var n := a.nonce + 1;
    Attempt(n, h(hdr.(nonce := n), Some(a.hash)))
  }

  /** The nonce and digest after k turns of the mining loop from `start`;
      only the nonce of `hdr` is overridden. */
  function AttemptAfter<P>(h: Hasher<P>, hdr: Header<P>, start: Attempt, k: nat): (a: Attempt)
    ensures a.nonce == start.nonce + k
  {
    if k == 0 then start else NextAttempt(h, hdr, AttemptAfter(h, hdr, start, k - 1))
  }

  /** The search from `start` stops: some attempt meets the difficulty. */
  ghost predicate SearchSucceeds<P>(h: Hasher<P>, hdr: Header<P>, start: Attempt, difficulty: nat)
  {
    exists k: nat :: MeetsDifficulty(AttemptAfter(h, hdr, start, k).hash, difficulty)
  }

  /** No attempt before attempt k meets the difficulty. */
  ghost predicate NoneMeetsBefore<P>(h: Hasher<P>, hdr: Header<P>, start: Attempt, difficulty: nat, k: nat)
  {
    k == 0 || (NoneMeetsBefore(h, hdr, start, difficulty, k - 1) &&
               !MeetsDifficulty(AttemptAfter(h, hdr, start, k - 1).hash, difficulty))
  }

  /** Every single attempt before attempt k fails the difficulty test. */
  lemma {:induction false} NoneMeetsBeforeAt<P>(h: Hasher<P>, hdr: Header<P>, start: Attempt, difficulty: nat, k: nat, j: nat)
    requires NoneMeetsBefore(h, hdr, start, difficulty, k) && j < k
    ensures !MeetsDifficulty(AttemptAfter(h, hdr, start, j).hash, difficulty)
  {
    if j < k - 1 {
      NoneMeetsBeforeAt(h, hdr, start, difficulty, k - 1, j);
    }
  }

  /** The mining loop, known to stop at attempt `goal`, has made k turns
      without stopping and holds attempt `a`. */
  ghost predicate Searching<P>(h: Hasher<P>, hdr: Header<P>, start: Attempt, difficulty: nat, goal: nat, k: nat, a: Attempt)
  {
    && a == AttemptAfter(h, hdr, start, k)
    && NoneMeetsBefore(h, hdr, start, difficulty, k)
    && k <= goal
    && MeetsDifficulty(AttemptAfter(h, hdr, start, goal).hash, difficulty)
  }

  /** One more turn of a search that has not stopped yet. */
  lemma SearchStep<P>(h: Hasher<P>, hdr: Header<P>, start: Attempt, difficulty: nat, goal: nat, k: nat, a: Attempt)
    requires Searching(h, hdr, start, difficulty, goal, k, a)
    requires !MeetsDifficulty(a.hash, difficulty)
    ensures k < goal
    ensures Searching(h, hdr, start, difficulty, goal, k + 1, NextAttempt(h, hdr, a))
  {
  }

  /** Attempt k is the first one from `start` that meets the difficulty. */
  ghost predicate FirstSuccess<P>(h: Hasher<P>, hdr: Header<P>, start: Attempt, difficulty: nat, k: nat)
  {
    MeetsDifficulty(AttemptAfter(h, hdr, start, k).hash, difficulty) && NoneMeetsBefore(h, hdr, start, difficulty, k)
  }

  /** `a` is where the mining loop started at `start` stops. */
  ghost predicate SearchEndsAt<P>(h: Hasher<P>, hdr: Header<P>, start: Attempt, difficulty: nat, a: Attempt)
  {
    exists k: nat :: a == AttemptAfter(h, hdr, start, k) && FirstSuccess(h, hdr, start, difficulty, k)
  }

  /** The search stops at one place only. */
  lemma SearchEndIsUnique<P>(h: Hasher<P>, hdr: Header<P>, start: Attempt, difficulty: nat, a: Attempt, b: Attempt)
    requires SearchEndsAt(h, hdr, start, difficulty, a)
    requires SearchEndsAt(h, hdr, start, difficulty, b)
    ensures a == b
  {
    var ka: nat :| a == AttemptAfter(h, hdr, start, ka) && FirstSuccess(h, hdr, start, difficulty, ka);
    var kb: nat :| b == AttemptAfter(h, hdr, start, kb) && FirstSuccess(h, hdr, start, difficulty, kb);
    if ka < kb {
      NoneMeetsBeforeAt(h, hdr, start, difficulty, kb, ka);
    } else if kb < ka {
      NoneMeetsBeforeAt(h, hdr, start, difficulty, ka, kb);
    }
  }

  /** A block. Its position, creation time, payloads and link are fixed
      when it is built; mining changes only the nonce and the digest. */
  class Block<P> {
    const index: int
    const timestamp: real
    const payloads: seq<P>
    const previousHash: string
    var nonce: nat
    var hash: string

    function Fields(): Header<P>
      reads this
    {
      Header(index, timestamp, payloads, previousHash, nonce)
    }

    /** The digest is computed while `hash` is still unassigned, so it covers
        the other attributes only. */
    constructor (h: Hasher<P>, index: int, timestamp: real, payloads: seq<P>, previousHash: string)
      ensures Fields() == Header(index, timestamp, payloads, previousHash, 0)
      ensures Attempt(nonce, hash) == InitialAttempt(h, Fields())
    {
      this.index := index;
      this.timestamp := timestamp;
      this.payloads := payloads;
      this.previousHash := previousHash;
      nonce := 0;
      hash := h(Header(index, timestamp, payloads, previousHash, 0), None);
    }

    /** Serialises every attribute present, the stored digest included. */
    function ComputeHash(h: Hasher<P>): string
      reads this
    {
      h(Fields(), Some(hash))
    }

    /** Proof of work: bump the nonce and rehash until the digest starts with
        `difficulty` zeros. Only nonce and hash change; the loop stops at the
        first attempt that meets the difficulty. */
    method MineBlock(h: Hasher<P>, difficulty: nat)
      requires SearchSucceeds(h, Fields(), Attempt(nonce, hash), difficulty)
      modifies this`nonce, this`hash
      ensures MeetsDifficulty(hash, difficulty)
      ensures old(nonce) <= nonce
      ensures SearchEndsAt(h, old(Fields()), old(Attempt(nonce, hash)), difficulty, Attempt(nonce, hash))
    {
      ghost var hdr, start := Fields(), Attempt(nonce, hash);
      ghost var goal: nat :| MeetsDifficulty(AttemptAfter(h, hdr, start, goal).hash, difficulty);
      ghost var k: nat := 0;
      var requiredPrefix := RequiredPrefix(difficulty);
      while !StartsWith(hash, requiredPrefix)
        invariant Searching(h, hdr, start, difficulty, goal, k, Attempt(nonce, hash))
        decreases goal - k
      {
        SearchStep(h, hdr, start, difficulty, goal, k, Attempt(nonce, hash));
        nonce := nonce + 1;
        // compute_hash: every attribute, the current digest included
        hash := h(Header(index, timestamp, payloads, previousHash, nonce), Some(hash));
        k := k + 1;
      }
      assert FirstSuccess(h, hdr, start, difficulty, k);
    }
  }

  /** A block built from the given attributes and then mined: the pair of
      steps both ledgers take when they seal a block. No existing object
      changes. */
  method NewMinedBlock<P>(h: Hasher<P>, index: int, timestamp: real, payloads: seq<P>, previousHash: string,
                          difficulty: nat) returns (b: Block<P>)
    requires SearchSucceeds(h, Header(index, timestamp, payloads, previousHash, 0),
                            InitialAttempt(h, Header(index, timestamp, payloads, previousHash, 0)), difficulty)
    ensures fresh(b)
    ensures b.index == index && b.timestamp == timestamp && b.payloads == payloads && b.previousHash == previousHash
    ensures MeetsDifficulty(b.hash, difficulty)
    ensures SearchEndsAt(h, Header(index, timestamp, payloads, previousHash, 0),
                         InitialAttempt(h, Header(index, timestamp, payloads, previousHash, 0)), difficulty,
                         Attempt(b.nonce, b.hash))
  {
    b := new Block(h, index, timestamp, payloads, previousHash);
    b.MineBlock(h, difficulty);
  }

  /** Every block's attributes, block by block, in chain order. */
  function Entries<P>(blocks: seq<Block<P>>): seq<P>
  {
    if blocks == [] then [] else Entries(blocks[..|blocks| - 1]) + blocks[|blocks| - 1].payloads
  }

  lemma EntriesAppend<P>(blocks: seq<Block<P>>, b: Block<P>)
    ensures Entries(blocks + [b]) == Entries(blocks) + b.payloads
  {
    assert (blocks + [b])[..|blocks|] == blocks;
  }

  /** Every block from position `from` on sits at its own index, carries a
      digest that meets the difficulty and, past genesis, points at the
      digest of the block before it. */
  ghost predicate MinedFrom<P>(chain: seq<Block<P>>, difficulty: nat, from: nat)
    reads chain
  {
    forall i :: from <= i < |chain| ==>
      && chain[i].index == i
      && MeetsDifficulty(chain[i].hash, difficulty)
      && (i >= 1 ==> chain[i].previousHash == chain[i - 1].hash)
  }

  /** Appending a block at the next index that meets the difficulty and links
      to the last block keeps every block from `from` on mined and linked. */
  lemma MinedFromAppend<P>(chain: seq<Block<P>>, b: Block<P>, difficulty: nat, from: nat)
    requires MinedFrom(chain, difficulty, from) && 1 <= |chain|
    requires b.index == |chain| && MeetsDifficulty(b.hash, difficulty) && b.previousHash == chain[|chain| - 1].hash
    ensures MinedFrom(chain + [b], difficulty, from)
  {
    var c := chain + [b];
    forall i | from <= i < |c|
      ensures c[i].index == i && MeetsDifficulty(c[i].hash, difficulty)
      ensures i >= 1 ==> c[i].previousHash == c[i - 1].hash
    {
      if i < |chain| {
        assert c[i] == chain[i];
      }
    }
  }

  /** Block i passes the validator: its stored digest equals the digest
      recomputed over its attributes (the stored digest among them), and it
      points at the digest of block i - 1. */
  predicate BlockValid<P>(h: Hasher<P>, chain: seq<Block<P>>, i: int)
    reads chain
    requires 1 <= i < |chain|
  {
    chain[i].hash == chain[i].ComputeHash(h) && chain[i].previousHash == chain[i - 1].hash
  }

  /** The genesis block is never checked. */
  predicate ChainValid<P>(h: Hasher<P>, chain: seq<Block<P>>)
    reads chain
  {
    forall i :: 1 <= i < |chain| ==> BlockValid(h, chain, i)
  }

  /** The validator loop, returning false at the first failing block. */
  method IsChainValid<P>(h: Hasher<P>, chain: seq<Block<P>>) returns (valid: bool)
    ensures valid == ChainValid(h, chain)
  {
    var i := 1;
    while i < |chain|
      invariant 1 <= i
      invariant forall j :: 1 <= j < i && j < |chain| ==> BlockValid(h, chain, j)
    {
      var current := chain[i];
      var previous := chain[i - 1];
      if current.hash != current.ComputeHash(h) {
        assert !BlockValid(h, chain, i);
        return false;
      }
      if current.previousHash != previous.hash {
        assert !BlockValid(h, chain, i);
        return false;
      }
      i := i + 1;
    }
    return true;
  }

  /** When the chain is invalid, there is a first failing block, which is the
      one the validator stops at; every block before it passes. */
  lemma FirstInvalidBlock<P>(h: Hasher<P>, chain: seq<Block<P>>) returns (i: nat)
    requires !ChainValid(h, chain)
    ensures 1 <= i < |chain| && !BlockValid(h, chain, i)
    ensures forall j :: 1 <= j < i ==> BlockValid(h, chain, j)
  {
    var k :| 1 <= k < |chain| && !BlockValid(h, chain, k);
    i := 1;
    while BlockValid(h, chain, i)
      invariant 1 <= i <= k
      invariant forall j :: 1 <= j < i ==> BlockValid(h, chain, j)
      decreases k - i
    {
      i := i + 1;
    }
  }

  /** Extending a chain by one block keeps it valid exactly when the new block
      passes its own digest recheck and links to the last block. */
  lemma ChainValidAppend<P>(h: Hasher<P>, chain: seq<Block<P>>, b: Block<P>)
    requires |chain| >= 1
    ensures ChainValid(h, chain + [b]) <==>
            ChainValid(h, chain) && b.hash == b.ComputeHash(h) && b.previousHash == chain[|chain| - 1].hash
  {
    var c := chain + [b];
    if ChainValid(h, c) {
      forall i | 1 <= i < |chain| ensures BlockValid(h, chain, i) {
        assert BlockValid(h, c, i);
      }
      assert BlockValid(h, c, |chain|);
    }
    if ChainValid(h, chain) && b.hash == b.ComputeHash(h) && b.previousHash == chain[|chain| - 1].hash {
      forall i | 1 <= i < |c| ensures BlockValid(h, c, i) {
        if i < |chain| {
          assert BlockValid(h, chain, i);
        }
      }
    }
  }

  /** The search stops on the digest test alone, while the validator rechecks
      the digest with itself as an input, so mining does not make a block
      pass the validator: with this hasher the very first digest already
      meets difficulty 4, yet hashing it again gives a different digest. */
  lemma MinedBlockCanFailRecheck<P>(hdr: Header<P>)
    ensures var h: Hasher<P> := (f: Header<P>, stale: Option<string>) =>
              if stale.None? then "0000" else "0000" + stale.value;
            var start := InitialAttempt(h, hdr);
            && SearchEndsAt(h, hdr, start, 4, start)
            && h(hdr, Some(start.hash)) != start.hash
  {
    var h: Hasher<P> := (f: Header<P>, stale: Option<string>) =>
      if stale.None? then "0000" else "0000" + stale.value;
    var start := InitialAttempt(h, hdr);
    assert AttemptAfter(h, hdr, start, 0) == start;
    assert RequiredPrefix(4) == "0000";
    assert FirstSuccess(h, hdr, start, 4, 0);
  }
}
