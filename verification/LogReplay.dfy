/**
 packages/contracts/ts/generateMaciState.ts and sortActions: contract logs are fetched in ranges of blocks, sorted and
 replayed. The ranges fetched at a time make no difference to what is replayed.
 */
module LogReplay {
  import opened DomainObjects
  import opened PollActions
  import opened Results
  import opened Voting

  datatype ActionData =
    | SignUp(publicKey: PublicKey)
    | DeployPoll(pollId: int, pollMode: EMode)
    | PollJoined(pollPublicKey: PublicKey, newVoiceCreditBalance: int, nullifier: int)
    | IpfsHashAdded(ipfsHash: string)
    | PublishMessage(published: Published)

  /** `logIndex` is the place of the log in its block, for a message from IPFS that of its hash; no step of the source reads it. */
  datatype Action = Action(data: ActionData, blockNumber: int, transactionIndex: int, logIndex: int)

  /** Everything the source reads: the logs by kind, what IPFS or its backup has for a hash, and the poll's own data. */
  datatype Chain = Chain(
    signUps: seq<Action>, deployPolls: seq<Action>,
    joins: seq<Action>, ipfsHashes: seq<Action>, publishes: seq<Action>,
    fromIpfs: string -> seq<Published>, backup: string -> seq<Published>,
    padKey: PublicKey, coordinatorMatches: bool, totalMessages: nat)
  {
    predicate WellTyped() {
      && (forall i :: 0 <= i < |signUps| ==> signUps[i].data.SignUp?)
      && (forall i :: 0 <= i < |deployPolls| ==> deployPolls[i].data.DeployPoll?)
      && (forall i :: 0 <= i < |joins| ==> joins[i].data.PollJoined?)
      && (forall i :: 0 <= i < |ipfsHashes| ==> ipfsHashes[i].data.IpfsHashAdded?)
      && (forall i :: 0 <= i < |publishes| ==> publishes[i].data.PublishMessage?)
    }

    function MessagesOf(ipfsHash: string): seq<Published> {
      if |fromIpfs(ipfsHash)| > 0 then fromIpfs(ipfsHash) else backup(ipfsHash)
    }
  }

  // ----- queries

  /** queryFilter: the events of some blocks, both ends included. */
  function Between(events: seq<Action>, lo: int, hi: int): (r: seq<Action>)
    ensures forall i :: 0 <= i < |r| ==> r[i] in events && lo <= r[i].blockNumber <= hi
    ensures forall e :: e in events && lo <= e.blockNumber <= hi ==> e in r
  {
    if events == [] then []
    else (if lo <= events[0].blockNumber <= hi then [events[0]] else []) + Between(events[1..], lo, hi)
  }

  predicate IsAt(a: Action, block: int, tx: int) { a.blockNumber == block && a.transactionIndex == tx }

  /** The actions of one transaction, in order. */
  function At(actions: seq<Action>, block: int, tx: int): (r: seq<Action>)
    ensures forall a :: a in actions && IsAt(a, block, tx) ==> r != []
    ensures forall i :: 0 <= i < |r| ==> r[i] in actions && IsAt(r[i], block, tx)
  {
    if actions == [] then []
    else (if IsAt(actions[0], block, tx) then [actions[0]] else []) + At(actions[1..], block, tx)
  }

  lemma {:induction false} AtConcat(xs: seq<Action>, ys: seq<Action>, block: int, tx: int)
    ensures At(xs + ys, block, tx) == At(xs, block, tx) + At(ys, block, tx)
  {
    if xs == [] {
      assert xs + ys == ys;
    } else {
      assert (xs + ys)[1..] == xs[1..] + ys;
      AtConcat(xs[1..], ys, block, tx);
    }
  }

  lemma {:induction false} AtBetween(events: seq<Action>, lo: int, hi: int, block: int, tx: int)
    ensures At(Between(events, lo, hi), block, tx) == if lo <= block <= hi then At(events, block, tx) else []
  {
    if events != [] {
      AtBetween(events[1..], lo, hi, block, tx);
      AtConcat(if lo <= events[0].blockNumber <= hi then [events[0]] else [], Between(events[1..], lo, hi), block, tx);
    }
  }

  function PublishedAt(messages: seq<Published>, event: Action): (r: seq<Action>)
    ensures |r| == |messages|
    ensures forall i :: 0 <= i < |r| ==> r[i] == event.(data := PublishMessage(messages[i]))
  {
    seq(|messages|, i requires 0 <= i < |messages| => event.(data := PublishMessage(messages[i])))
  }

  /** The messages behind some IPFS hashes, at the place of their hash. */
  function IpfsMessages(chain: Chain, events: seq<Action>): seq<Action>
    requires forall i :: 0 <= i < |events| ==> events[i].data.IpfsHashAdded?
  {
    if events == [] then []
    else PublishedAt(chain.MessagesOf(events[0].data.ipfsHash), events[0])
         + IpfsMessages(chain, events[1..])
  }

  lemma {:induction false} AtAll(actions: seq<Action>, block: int, tx: int, block': int, tx': int)
    requires forall i :: 0 <= i < |actions| ==> IsAt(actions[i], block, tx)
    ensures At(actions, block', tx') == if block == block' && tx == tx' then actions else []
  {
    if actions != [] {
      AtAll(actions[1..], block, tx, block', tx');
    }
  }

  lemma {:induction false} AtIpfsMessages(chain: Chain, events: seq<Action>, block: int, tx: int)
    requires forall i :: 0 <= i < |events| ==> events[i].data.IpfsHashAdded?
    ensures At(IpfsMessages(chain, events), block, tx) == IpfsMessages(chain, At(events, block, tx))
  {
    if events != [] {
      var e := events[0];
      var messages := PublishedAt(chain.MessagesOf(e.data.ipfsHash), e);
      AtIpfsMessages(chain, events[1..], block, tx);
      AtConcat(messages, IpfsMessages(chain, events[1..]), block, tx);
      AtAll(messages, e.blockNumber, e.transactionIndex, block, tx);
      if IsAt(e, block, tx) {
        assert At(events, block, tx)[1..] == At(events[1..], block, tx);
      } else {
        assert At(events, block, tx) == At(events[1..], block, tx);
      }
    }
  }

  // ----- scanning

  /** What one round of the first loop pushes. */
  function MaciRound(chain: Chain, lo: int, hi: int): seq<Action> {
    Between(chain.signUps, lo, hi) + Between(chain.deployPolls, lo, hi)
  }

  /** What one round of the second loop pushes. */
  function PollRound(chain: Chain, lo: int, hi: int): seq<Action>
    requires chain.WellTyped()
  {
    Between(chain.joins, lo, hi) + Between(chain.ipfsHashes, lo, hi)
    + IpfsMessages(chain, Between(chain.ipfsHashes, lo, hi)) + Between(chain.publishes, lo, hi)
  }

  /** Every transaction's actions are the same, in the same order. */
  ghost predicate SameByTransaction(xs: seq<Action>, ys: seq<Action>) {
    forall block, tx :: At(xs, block, tx) == At(ys, block, tx)
  }

  /** What a transaction contributes to each loop, by kind. */
  function MaciAt(chain: Chain, block: int, tx: int): seq<Action> {
    At(chain.signUps, block, tx) + At(chain.deployPolls, block, tx)
  }

  function PollAt(chain: Chain, block: int, tx: int): seq<Action>
    requires chain.WellTyped()
  {
    At(chain.joins, block, tx) + At(chain.ipfsHashes, block, tx) + IpfsMessages(chain, At(chain.ipfsHashes, block, tx))
    + At(chain.publishes, block, tx)
  }

  lemma AtMaciRound(chain: Chain, lo: int, hi: int, block: int, tx: int)
    ensures At(MaciRound(chain, lo, hi), block, tx) == if lo <= block <= hi then MaciAt(chain, block, tx) else []
  {
    AtConcat(Between(chain.signUps, lo, hi), Between(chain.deployPolls, lo, hi), block, tx);
    AtBetween(chain.signUps, lo, hi, block, tx);
    AtBetween(chain.deployPolls, lo, hi, block, tx);
  }

  lemma AtPollRound(chain: Chain, lo: int, hi: int, block: int, tx: int)
    requires chain.WellTyped()
    ensures At(PollRound(chain, lo, hi), block, tx) == if lo <= block <= hi then PollAt(chain, block, tx) else []
  {
    var joins, hashes, publishes := Between(chain.joins, lo, hi), Between(chain.ipfsHashes, lo, hi), Between(chain.publishes, lo, hi);
    AtConcat(joins + hashes + IpfsMessages(chain, hashes), publishes, block, tx);
    AtConcat(joins + hashes, IpfsMessages(chain, hashes), block, tx);
    AtConcat(joins, hashes, block, tx);
    AtIpfsMessages(chain, hashes, block, tx);
    AtBetween(chain.joins, lo, hi, block, tx);
    AtBetween(chain.ipfsHashes, lo, hi, block, tx);
    AtBetween(chain.publishes, lo, hi, block, tx);
  }

  /** Scanning on from block `next` completes what was scanned below it, since a transaction lies in one block. */
  lemma MaciRoundJoins(chain: Chain, actions: seq<Action>, lo: int, next: int, hi: int)
    requires lo <= next <= hi + 1 && SameByTransaction(actions, MaciRound(chain, lo, next - 1))
    ensures SameByTransaction(actions + MaciRound(chain, next, hi), MaciRound(chain, lo, hi))
  {
    hide At, MaciAt, MaciRound, Between;
    forall block, tx
      ensures At(actions + MaciRound(chain, next, hi), block, tx) == At(MaciRound(chain, lo, hi), block, tx)
    {
      AtConcat(actions, MaciRound(chain, next, hi), block, tx);
      AtMaciRound(chain, lo, next - 1, block, tx);
      AtMaciRound(chain, next, hi, block, tx);
      AtMaciRound(chain, lo, hi, block, tx);
    }
  }

  lemma PollRoundJoins(chain: Chain, actions: seq<Action>, lo: int, next: int, hi: int)
    requires chain.WellTyped() && lo <= next <= hi + 1 && SameByTransaction(actions, PollRound(chain, lo, next - 1))
    ensures SameByTransaction(actions + PollRound(chain, next, hi), PollRound(chain, lo, hi))
  {
    hide At, PollAt, PollRound, Between;
    forall block, tx
      ensures At(actions + PollRound(chain, next, hi), block, tx) == At(PollRound(chain, lo, hi), block, tx)
    {
      AtConcat(actions, PollRound(chain, next, hi), block, tx);
      AtPollRound(chain, lo, next - 1, block, tx);
      AtPollRound(chain, next, hi, block, tx);
      AtPollRound(chain, lo, hi, block, tx);
    }
  }

  lemma EmptyRounds(chain: Chain, lo: int, hi: int)
    requires chain.WellTyped() && hi < lo
    ensures SameByTransaction([], MaciRound(chain, lo, hi)) && SameByTransaction([], PollRound(chain, lo, hi))
  {
    forall block, tx
      ensures At(MaciRound(chain, lo, hi), block, tx) == [] && At(PollRound(chain, lo, hi), block, tx) == []
    {
      AtMaciRound(chain, lo, hi, block, tx);
      AtPollRound(chain, lo, hi, block, tx);
    }
  }

  datatype Range = Range(first: int, last: int)

  /** The ranges cover the blocks from `lo` to `hi` without a gap or an overlap, in order. */
  ghost predicate Partition(ranges: seq<Range>, lo: int, hi: int) {
    && (if ranges == [] then lo > hi else ranges[0].first == lo && ranges[|ranges| - 1].last == hi)
    && (forall i :: 0 <= i < |ranges| ==> ranges[i].first <= ranges[i].last)
    && forall i :: 0 < i < |ranges| ==> ranges[i].first == ranges[i - 1].last + 1
  }

  /** In a partition every block is in exactly one range. */
  lemma {:induction false} OneRangePerBlock(ranges: seq<Range>, lo: int, hi: int, block: int) returns (i: nat)
    requires Partition(ranges, lo, hi) && lo <= block <= hi
    ensures i < |ranges| && ranges[i].first <= block <= ranges[i].last
    ensures forall j :: 0 <= j < |ranges| && ranges[j].first <= block <= ranges[j].last ==> j == i
    decreases |ranges|
  {
    if block <= ranges[0].last {
      i := 0;
      forall j | 0 < j < |ranges|
        ensures ranges[j].first > block
      {
        RangesAscend(ranges, lo, hi, 0, j);
      }
    } else {
      if |ranges| == 1 {
        assert false;
      }
      var k := OneRangePerBlock(ranges[1..], ranges[1].first, hi, block);
      i := k + 1;
      assert ranges[1..][k] == ranges[i];
      forall j | 0 <= j < |ranges| && ranges[j].first <= block <= ranges[j].last
        ensures j == i
      {
        assert j > 0 && ranges[1..][j - 1] == ranges[j];
      }
    }
  }

  lemma {:induction false} RangesAscend(ranges: seq<Range>, lo: int, hi: int, i: nat, j: nat)
    requires Partition(ranges, lo, hi) && i < j < |ranges|
    ensures ranges[i].last < ranges[j].first
    decreases j - i
  {
    if i + 1 < j {
      RangesAscend(ranges, lo, hi, i, j - 1);
    }
  }

  /** Some deployment of the poll lies in the range. */
  ghost predicate Deployed(chain: Chain, lo: int, hi: int, id: int)
    requires chain.WellTyped()
  {
    exists i :: 0 <= i < |chain.deployPolls| && lo <= chain.deployPolls[i].blockNumber <= hi && chain.deployPolls[i].data.pollId == id
  }

  /** The last block scanned when the loop variable is at i. */
  function Scanned(i: int, lastBlock: int): int {
    if i <= lastBlock then i - 1 else lastBlock
  }

  /** Fetches sign-ups and poll deployments in rounds of blocksPerRequest + 1 blocks. */
  method ScanMaci(chain: Chain, fromBlock: int, lastBlock: int, blocksPerRequest: nat)
    returns (actions: seq<Action>, foundPollIds: set<int>, ghost ranges: seq<Range>)
    requires chain.WellTyped()
    ensures SameByTransaction(actions, MaciRound(chain, fromBlock, lastBlock))
    ensures forall id :: id in foundPollIds <==> Deployed(chain, fromBlock, lastBlock, id)
    ensures Partition(ranges, fromBlock, lastBlock)
  {
    hide SameByTransaction, MaciRound, Between, Deployed, Partition;
    actions, foundPollIds, ranges := [], {}, [];
    var i := fromBlock;
    NothingScanned(chain, fromBlock, Scanned(i, lastBlock));
    while i <= lastBlock
      invariant fromBlock <= i && (Scanned(i, lastBlock) < fromBlock ==> i == fromBlock)
      invariant SameByTransaction(actions, MaciRound(chain, fromBlock, Scanned(i, lastBlock)))
      invariant forall id :: id in foundPollIds <==> Deployed(chain, fromBlock, Scanned(i, lastBlock), id)
      invariant Partition(ranges, fromBlock, Scanned(i, lastBlock))
      decreases lastBlock - i
    {
      var toBlock := if i + blocksPerRequest >= lastBlock then lastBlock else i + blocksPerRequest;
      var signUpLogs, deployPollLogs := Between(chain.signUps, i, toBlock), Between(chain.deployPolls, i, toBlock);
      MaciRoundJoins(chain, actions, fromBlock, i, toBlock);
      MaciRoundIs(chain, actions, i, toBlock);
      RangeJoins(chain, ranges, fromBlock, i, toBlock);
      var ids := FoundIds(chain, i, toBlock);
      actions := actions + signUpLogs + deployPollLogs;
      foundPollIds := foundPollIds + ids;
      ranges := ranges + [Range(i, toBlock)];
      i := i + (blocksPerRequest + 1);
    }
  }

  lemma MaciRoundIs(chain: Chain, actions: seq<Action>, lo: int, hi: int)
    ensures actions + MaciRound(chain, lo, hi) == actions + Between(chain.signUps, lo, hi) + Between(chain.deployPolls, lo, hi)
  {
  }

  lemma NothingScanned(chain: Chain, lo: int, hi: int)
    requires chain.WellTyped() && hi < lo
    ensures SameByTransaction([], MaciRound(chain, lo, hi)) && SameByTransaction([], PollRound(chain, lo, hi))
    ensures Partition([], lo, hi) && forall id :: !Deployed(chain, lo, hi, id)
  {
    EmptyRounds(chain, lo, hi);
  }

  lemma RangeJoins(chain: Chain, ranges: seq<Range>, lo: int, next: int, hi: int)
    requires chain.WellTyped() && lo <= next <= hi && Partition(ranges, lo, next - 1)
    ensures Partition(ranges + [Range(next, hi)], lo, hi)
    ensures forall id :: Deployed(chain, lo, hi, id) <==> Deployed(chain, lo, next - 1, id) || Deployed(chain, next, hi, id)
  {
  }

  /** The ids of one round's deployments. */
  method FoundIds(chain: Chain, lo: int, hi: int) returns (ids: set<int>)
    requires chain.WellTyped()
    ensures forall id :: id in ids <==> Deployed(chain, lo, hi, id)
  {
    var logs := Between(chain.deployPolls, lo, hi);
    ids := {};
    for j := 0 to |logs|
      invariant forall id :: id in ids <==> exists k :: 0 <= k < j && logs[k].data.pollId == id
    {
      ids := ids + {logs[j].data.pollId};
    }
  }

  /** Every IPFS hash in the range has messages, on IPFS or in the backup. */
  ghost predicate Readable(chain: Chain, lo: int, hi: int)
    requires chain.WellTyped()
  {
    forall i :: 0 <= i < |chain.ipfsHashes| && lo <= chain.ipfsHashes[i].blockNumber <= hi ==>
      chain.MessagesOf(chain.ipfsHashes[i].data.ipfsHash) != []
  }

  /** Reads the messages behind some hashes; one hash without any makes the whole round throw. */
  method ReadIpfs(chain: Chain, logs: seq<Action>) returns (r: Result<seq<Action>>)
    requires forall k :: 0 <= k < |logs| ==> logs[k].data.IpfsHashAdded?
    ensures r.Success? <==> forall k :: 0 <= k < |logs| ==> chain.MessagesOf(logs[k].data.ipfsHash) != []
    ensures r == if r.Success? then Success(IpfsMessages(chain, logs)) else Failure("invalid json for cid")
  {
    hide IpfsMessages, PublishedAt;
    var messages := [];
    AllHashes(chain, logs);
    for j := 0 to |logs|
      invariant forall k :: 0 <= k < j ==> chain.MessagesOf(logs[k].data.ipfsHash) != []
      invariant messages + IpfsMessages(chain, logs[j..]) == IpfsMessages(chain, logs)
    {
      var found := chain.MessagesOf(logs[j].data.ipfsHash);
      if |found| == 0 {
        return Failure("invalid json for cid");
      }
      NextHash(chain, logs, j, messages);
      messages := messages + PublishedAt(found, logs[j]);
    }
    r := Success(messages);
  }

  lemma AllHashes(chain: Chain, logs: seq<Action>)
    requires forall k :: 0 <= k < |logs| ==> logs[k].data.IpfsHashAdded?
    ensures [] + IpfsMessages(chain, logs[0..]) == IpfsMessages(chain, logs)
    ensures forall messages: seq<Action> :: messages + IpfsMessages(chain, logs[|logs|..]) == messages
  {
    assert logs[0..] == logs && logs[|logs|..] == [];
  }

  lemma NextHash(chain: Chain, logs: seq<Action>, j: nat, messages: seq<Action>)
    requires j < |logs| && forall k :: 0 <= k < |logs| ==> logs[k].data.IpfsHashAdded?
    ensures messages + IpfsMessages(chain, logs[j..])
         == messages + PublishedAt(chain.MessagesOf(logs[j].data.ipfsHash), logs[j]) + IpfsMessages(chain, logs[j + 1..])
  {
    assert logs[j..][0] == logs[j] && logs[j..][1..] == logs[j + 1..];
  }

  lemma ReadableIff(chain: Chain, lo: int, hi: int, logs: seq<Action>)
    requires chain.WellTyped() && logs == Between(chain.ipfsHashes, lo, hi)
    ensures Readable(chain, lo, hi) <==> forall k :: 0 <= k < |logs| ==> chain.MessagesOf(logs[k].data.ipfsHash) != []
  {
    hide Between;
    assert forall k :: 0 <= k < |logs| ==> logs[k] in chain.ipfsHashes;
  }

  lemma NothingFetched(chain: Chain, lo: int, hi: int)
    requires chain.WellTyped() && hi < lo
    ensures SameByTransaction([], PollRound(chain, lo, hi)) && Readable(chain, lo, hi)
  {
    EmptyRounds(chain, lo, hi);
  }

  lemma ReadableJoins(chain: Chain, lo: int, next: int, hi: int)
    requires chain.WellTyped() && lo <= next <= hi
    ensures Readable(chain, lo, hi) <==> Readable(chain, lo, next - 1) && Readable(chain, next, hi)
  {
  }

  lemma ReadableBelow(chain: Chain, lo: int, next: int, hi: int)
    requires chain.WellTyped() && next <= hi && Readable(chain, lo, hi)
    ensures Readable(chain, lo, next)
  {
  }

  lemma PollRoundIs(chain: Chain, actions: seq<Action>, lo: int, hi: int)
    requires chain.WellTyped()
    ensures actions + PollRound(chain, lo, hi)
         == actions + Between(chain.joins, lo, hi) + Between(chain.ipfsHashes, lo, hi)
          + IpfsMessages(chain, Between(chain.ipfsHashes, lo, hi)) + Between(chain.publishes, lo, hi)
  {
    Regroup(actions, Between(chain.joins, lo, hi), Between(chain.ipfsHashes, lo, hi),
            IpfsMessages(chain, Between(chain.ipfsHashes, lo, hi)), Between(chain.publishes, lo, hi));
  }

  lemma Regroup(a: seq<Action>, b: seq<Action>, c: seq<Action>, d: seq<Action>, e: seq<Action>)
    ensures a + (b + c + d + e) == a + b + c + d + e
  {
  }

  /** Fetches the poll's own logs in the same rounds. */
  method ScanPoll(chain: Chain, fromBlock: int, lastBlock: int, blocksPerRequest: nat)
    returns (r: Result<seq<Action>>, ghost ranges: seq<Range>)
    requires chain.WellTyped()
    ensures r.Success? <==> Readable(chain, fromBlock, lastBlock)
    ensures r.Success? ==> SameByTransaction(r.value, PollRound(chain, fromBlock, lastBlock))
    ensures r.Success? ==> Partition(ranges, fromBlock, lastBlock)
    ensures r.Failure? ==> r.error == "invalid json for cid"
  {
    hide SameByTransaction, PollRound, Between, IpfsMessages, Readable, Partition, Deployed;
    var actions := [];
    var i := fromBlock;
    ranges := [];
    NothingFetched(chain, fromBlock, Scanned(i, lastBlock));
    NothingScanned(chain, fromBlock, Scanned(i, lastBlock));
    while i <= lastBlock
      invariant fromBlock <= i && (Scanned(i, lastBlock) < fromBlock ==> i == fromBlock)
      invariant SameByTransaction(actions, PollRound(chain, fromBlock, Scanned(i, lastBlock)))
      invariant Readable(chain, fromBlock, Scanned(i, lastBlock)) && Partition(ranges, fromBlock, Scanned(i, lastBlock))
      decreases lastBlock - i
    {
      var toBlock := if i + blocksPerRequest >= lastBlock then lastBlock else i + blocksPerRequest;
      ReadableJoins(chain, fromBlock, i, toBlock);
      var ipfsHashAddedLogs := Between(chain.ipfsHashes, i, toBlock);
      ReadableIff(chain, i, toBlock, ipfsHashAddedLogs);
      var ipfsMessages := ReadIpfs(chain, ipfsHashAddedLogs);
      if ipfsMessages.Failure? {
        if Readable(chain, fromBlock, lastBlock) {
          ReadableBelow(chain, fromBlock, toBlock, lastBlock);
          assert false;
        }
        return ipfsMessages, ranges;
      }
      PollRoundJoins(chain, actions, fromBlock, i, toBlock);
      RangeJoins(chain, ranges, fromBlock, i, toBlock);
      ranges := ranges + [Range(i, toBlock)];
      PollRoundIs(chain, actions, i, toBlock);
      actions := actions + Between(chain.joins, i, toBlock) + ipfsHashAddedLogs + ipfsMessages.value
                 + Between(chain.publishes, i, toBlock);
      i := i + (blocksPerRequest + 1);
    }
    r := Success(actions);
  }

  // ----- sorting

  /** The comparator is negative: a's block is lower, or the same with a lower transaction index. */
  predicate Precedes(a: Action, b: Action) {
    a.blockNumber < b.blockNumber || (a.blockNumber == b.blockNumber && a.transactionIndex < b.transactionIndex)
  }

  function Insert(sorted: seq<Action>, a: Action): seq<Action> {
    if sorted == [] || !Precedes(a, sorted[|sorted| - 1]) then sorted + [a]
    else Insert(sorted[..|sorted| - 1], a) + [sorted[|sorted| - 1]]
  }

  /** The stable sort of the language's library, as insertion after everything that does not follow. */
  function SortActions(actions: seq<Action>): seq<Action> {
    if actions == [] then [] else Insert(SortActions(actions[..|actions| - 1]), actions[|actions| - 1])
  }

  ghost predicate Sorted(actions: seq<Action>) {
    forall i, j :: 0 <= i < j < |actions| ==> !Precedes(actions[j], actions[i])
  }

  lemma SameAsItself(xs: seq<Action>)
    ensures SameByTransaction(xs, xs)
  {
  }

  lemma {:induction false} InsertKeeps(sorted: seq<Action>, a: Action)
    requires Sorted(sorted)
    ensures Sorted(Insert(sorted, a)) && multiset(Insert(sorted, a)) == multiset(sorted) + multiset{a}
    ensures SameByTransaction(Insert(sorted, a), sorted + [a])
  {
    hide SameByTransaction;
    SameAsItself(sorted + [a]);
    if sorted != [] && Precedes(a, sorted[|sorted| - 1]) {
      var front, last := sorted[..|sorted| - 1], sorted[|sorted| - 1];
      assert sorted == front + [last];
      InsertKeeps(front, a);
      forall x | x in multiset(Insert(front, a))
        ensures !Precedes(last, x)
      {
        assert x in front || x == a;
      }
      var r := Insert(front, a) + [last];
      forall i, j | 0 <= i < j < |r|
        ensures !Precedes(r[j], r[i])
      {
        assert r[i] in multiset(Insert(front, a));
      }
      OvertakesOthers(Insert(front, a), front, a, last);
    }
  }

  /** Moving an action in front of one of a later transaction changes no transaction. */
  lemma OvertakesOthers(inserted: seq<Action>, front: seq<Action>, a: Action, last: Action)
    requires SameByTransaction(inserted, front + [a]) && Precedes(a, last)
    ensures SameByTransaction(inserted + [last], front + [last] + [a])
  {
    forall block, tx
      ensures At(inserted + [last], block, tx) == At(front + [last] + [a], block, tx)
    {
      assert At(inserted, block, tx) == At(front + [a], block, tx);
      AtConcat(inserted, [last], block, tx);
      AtConcat(front, [a], block, tx);
      AtConcat(front, [last], block, tx);
      AtConcat(front + [last], [a], block, tx);
    }
  }

  /** The result is a sorted permutation that keeps the order within every transaction. */
  lemma {:induction false} SortKeeps(actions: seq<Action>)
    ensures Sorted(SortActions(actions)) && multiset(SortActions(actions)) == multiset(actions)
    ensures SameByTransaction(SortActions(actions), actions)
  {
    if actions != [] {
      var front, last := actions[..|actions| - 1], actions[|actions| - 1];
      assert actions == front + [last];
      SortKeeps(front);
      InsertKeeps(SortActions(front), last);
      forall block, tx
        ensures At(SortActions(actions), block, tx) == At(actions, block, tx)
      {
        AtConcat(SortActions(front), [last], block, tx);
        AtConcat(front, [last], block, tx);
      }
    }
  }

  lemma FirstIsAt(actions: seq<Action>)
    requires actions != []
    ensures At(actions, actions[0].blockNumber, actions[0].transactionIndex) != []
    ensures At(actions, actions[0].blockNumber, actions[0].transactionIndex)[0] == actions[0]
  {
  }

  lemma FirstIsLeast(xs: seq<Action>, ys: seq<Action>)
    requires xs != [] && Sorted(ys) && SameByTransaction(xs, ys)
    ensures ys != [] && !Precedes(xs[0], ys[0])
  {
    var block, tx := xs[0].blockNumber, xs[0].transactionIndex;
    FirstIsAt(xs);
    assert At(ys, block, tx) == At(xs, block, tx);
    var a := At(ys, block, tx)[0];
    assert a in ys && IsAt(a, block, tx);
  }

  /** Two sorted lists that agree within every transaction are the same list. */
  lemma {:induction false} SortedUnique(xs: seq<Action>, ys: seq<Action>)
    requires Sorted(xs) && Sorted(ys) && SameByTransaction(xs, ys)
    ensures xs == ys
    decreases |xs|
  {
    if xs == [] {
      if ys != [] {
        FirstIsLeast(ys, xs);
      }
    } else {
      FirstIsLeast(xs, ys);
      FirstIsLeast(ys, xs);
      FirstIsAt(xs);
      FirstIsAt(ys);
      assert At(xs, xs[0].blockNumber, xs[0].transactionIndex) == At(ys, xs[0].blockNumber, xs[0].transactionIndex);
      assert xs[0] == ys[0];
      forall block, tx
        ensures At(xs[1..], block, tx) == At(ys[1..], block, tx)
      {
        assert At(xs, block, tx) == At(ys, block, tx);
        TailAt(xs, block, tx);
        TailAt(ys, block, tx);
      }
      SortedUnique(xs[1..], ys[1..]);
    }
  }

  lemma TailAt(xs: seq<Action>, block: int, tx: int)
    requires xs != []
    ensures At(xs[1..], block, tx) == if IsAt(xs[0], block, tx) then At(xs, block, tx)[1..] else At(xs, block, tx)
  {
  }

  /** Lists that agree within every transaction sort alike, however they are interleaved. */
  lemma SortForgetsInterleaving(xs: seq<Action>, ys: seq<Action>)
    requires SameByTransaction(xs, ys)
    ensures SortActions(xs) == SortActions(ys)
  {
    SortKeeps(xs);
    SortKeeps(ys);
    forall block, tx
      ensures At(SortActions(xs), block, tx) == At(SortActions(ys), block, tx)
    {
      assert At(xs, block, tx) == At(ys, block, tx);
      assert At(SortActions(xs), block, tx) == At(xs, block, tx);
      assert At(SortActions(ys), block, tx) == At(ys, block, tx);
    }
    SortedUnique(SortActions(xs), SortActions(ys));
  }

  // ----- replaying

  /** A deployed poll: the joins and messages it has taken. */
  datatype PollReplay = PollReplay(mode: EMode, actions: seq<PollAction>) {
    function With(action: PollAction): PollReplay { this.(actions := actions + [action]) }
  }

  /** The polls by id; None stands for the null polls deployed in place of other polls. */
  datatype MaciReplay = MaciReplay(publicKeys: seq<PublicKey>, polls: seq<Option<PollReplay>>) {
    /** polls.get(pollId), with null and undefined alike. */
    function PollOf(pollId: int): Option<PollReplay> {
      if 0 <= pollId < |polls| then polls[pollId] else None
    }

    function WithPoll(pollId: int, poll: PollReplay): MaciReplay
      requires PollOf(pollId).Some?
    {
      this.(polls := polls[pollId := Some(poll)])
    }
  }

  /** One action of the replay; a call on a poll that is not there is skipped. */
  function Perform(pollId: int, state: MaciReplay, action: Action): Result<MaciReplay> {
    match action.data
    case SignUp(publicKey) => Success(state.(publicKeys := state.publicKeys + [publicKey]))
    case DeployPoll(id, mode) =>
      Success(state.(polls := state.polls + [if id == pollId then Some(PollReplay(mode, [])) else None]))
    case IpfsHashAdded(_) => Success(state)
    case PollJoined(publicKey, balance, nullifier) =>
      (match state.PollOf(pollId)
       case None => Success(state)
       case Some(poll) =>
         if nullifier in NullifiersIn(poll.actions) then Failure("UserAlreadyJoined")
         else Success(state.WithPoll(pollId, poll.With(Join(nullifier, publicKey, balance)))))
    case PublishMessage(published) =>
      (match state.PollOf(pollId)
       case None => Success(state)
       case Some(poll) =>
         if !InField(published.message, published.encryptionPublicKey) then Failure("not in the correct range")
         else Success(state.WithPoll(pollId, poll.With(Publish(published.message, published.encryptionPublicKey)))))
  }

  function Replayed(pollId: int, state: MaciReplay, actions: seq<Action>): Result<MaciReplay>
    decreases |actions|
  {
    if actions == [] then Success(state)
    else
      match Perform(pollId, state, actions[0])
      case Failure(error) => Failure(error)
      case Success(state') => Replayed(pollId, state', actions[1..])
  }

  /** What generating the state comes to when all the logs are fetched at once. */
  ghost function Generated(chain: Chain, pollId: int, fromBlock: int, lastBlock: int): Result<MaciReplay>
    requires chain.WellTyped()
  {
    if pollId < 0 then Failure("invalid poll id")
    else if !Deployed(chain, fromBlock, lastBlock, pollId) then Failure("the specified pollId does not exist on-chain")
    else if !chain.coordinatorMatches then Failure("wrong coordinator key")
    else if !Readable(chain, fromBlock, lastBlock) then Failure("invalid json for cid")
    else
      match Replayed(pollId, MaciReplay([chain.padKey], []),
                     SortActions(MaciRound(chain, fromBlock, lastBlock) + PollRound(chain, fromBlock, lastBlock)))
      case Failure(error) => Failure(error)
      case Success(state) =>
        if state.PollOf(pollId).Some? && |MessagesIn(state.PollOf(pollId).value.actions)| == chain.totalMessages then Success(state)
        else Failure("messages are missing")
  }

  /** Within a transaction the replay goes by kind, whatever the order of the logs in it. */
  lemma WithinTransaction(chain: Chain, lo: int, hi: int, block: int, tx: int)
    requires chain.WellTyped() && lo <= block <= hi
    ensures At(SortActions(MaciRound(chain, lo, hi) + PollRound(chain, lo, hi)), block, tx)
         == MaciAt(chain, block, tx) + PollAt(chain, block, tx)
  {
    hide At, MaciAt, PollAt, MaciRound, PollRound, SortActions;
    var actions := MaciRound(chain, lo, hi) + PollRound(chain, lo, hi);
    SortKeeps(actions);
    assert At(SortActions(actions), block, tx) == At(actions, block, tx);
    AtConcat(MaciRound(chain, lo, hi), PollRound(chain, lo, hi), block, tx);
    AtMaciRound(chain, lo, hi, block, tx);
    AtPollRound(chain, lo, hi, block, tx);
  }

  // ----- log order

  /** The actions that do something when they are replayed. */
  function Effective(actions: seq<Action>): (r: seq<Action>)
    ensures forall a :: a in r ==> a in actions && !a.data.IpfsHashAdded?
    ensures forall a :: a in actions && !a.data.IpfsHashAdded? ==> a in r
  {
    if actions == [] then []
    else (if actions[0].data.IpfsHashAdded? then [] else [actions[0]]) + Effective(actions[1..])
  }

  /** Block, transaction and log are those of an earlier log. */
  predicate EarlierLog(a: Action, b: Action) {
    Precedes(a, b) || (a.blockNumber == b.blockNumber && a.transactionIndex == b.transactionIndex && a.logIndex < b.logIndex)
  }

  /** The order of the chain: no action comes after one with a later log. */
  ghost predicate InLogOrder(actions: seq<Action>) {
    forall i, j :: 0 <= i < j < |actions| ==> !EarlierLog(actions[j], actions[i])
  }

  ghost predicate NoneBefore(xs: seq<Action>, ys: seq<Action>) {
    forall x, y :: x in xs && y in ys ==> !EarlierLog(y, x)
  }

  /** The queries return the logs in the order of the chain. */
  ghost predicate Ascending(chain: Chain) {
    && InLogOrder(chain.signUps) && InLogOrder(chain.deployPolls) && InLogOrder(chain.joins)
    && InLogOrder(chain.ipfsHashes) && InLogOrder(chain.publishes)
  }

  /** Within the transaction the logs come by kind: sign-ups, deployments, joins, IPFS hashes, direct messages. */
  ghost predicate ByKind(chain: Chain, block: int, tx: int) {
    KindByKind(At(chain.signUps, block, tx), At(chain.deployPolls, block, tx), At(chain.joins, block, tx),
               At(chain.ipfsHashes, block, tx), At(chain.publishes, block, tx))
  }

  lemma {:induction false} EffectiveConcat(xs: seq<Action>, ys: seq<Action>)
    ensures Effective(xs + ys) == Effective(xs) + Effective(ys)
  {
    if xs == [] {
      assert xs + ys == ys;
    } else {
      assert (xs + ys)[1..] == xs[1..] + ys;
      EffectiveConcat(xs[1..], ys);
    }
  }

  lemma {:induction false} EffectiveAt(xs: seq<Action>, block: int, tx: int)
    ensures At(Effective(xs), block, tx) == Effective(At(xs, block, tx))
  {
    if xs != [] {
      EffectiveAt(xs[1..], block, tx);
      AtConcat(if xs[0].data.IpfsHashAdded? then [] else [xs[0]], Effective(xs[1..]), block, tx);
      EffectiveConcat(if IsAt(xs[0], block, tx) then [xs[0]] else [], At(xs[1..], block, tx));
    }
  }

  lemma {:induction false} AllEffective(xs: seq<Action>)
    requires forall a :: a in xs ==> !a.data.IpfsHashAdded?
    ensures Effective(xs) == xs
  {
    if xs != [] {
      AllEffective(xs[1..]);
    }
  }

  lemma {:induction false} NoneEffective(xs: seq<Action>)
    requires forall a :: a in xs ==> a.data.IpfsHashAdded?
    ensures Effective(xs) == []
  {
    if xs != [] {
      NoneEffective(xs[1..]);
    }
  }

  lemma OrderOfConcat(xs: seq<Action>, ys: seq<Action>)
    ensures InLogOrder(xs + ys) <==> InLogOrder(xs) && InLogOrder(ys) && NoneBefore(xs, ys)
  {
    var zs := xs + ys;
    if InLogOrder(zs) {
      forall i, j | 0 <= i < j < |xs|
        ensures !EarlierLog(xs[j], xs[i])
      {
        assert zs[i] == xs[i] && zs[j] == xs[j];
      }
      forall i, j | 0 <= i < j < |ys|
        ensures !EarlierLog(ys[j], ys[i])
      {
        assert zs[|xs| + i] == ys[i] && zs[|xs| + j] == ys[j];
      }
      forall i, j | 0 <= i < |xs| && 0 <= j < |ys|
        ensures !EarlierLog(ys[j], xs[i])
      {
        assert zs[i] == xs[i] && zs[|xs| + j] == ys[j];
      }
    }
  }

  lemma {:induction false} AtKeepsOrder(xs: seq<Action>, block: int, tx: int)
    requires InLogOrder(xs)
    ensures InLogOrder(At(xs, block, tx))
  {
    if xs != [] {
      assert xs == [xs[0]] + xs[1..];
      OrderOfConcat([xs[0]], xs[1..]);
      AtKeepsOrder(xs[1..], block, tx);
      OrderOfConcat(if IsAt(xs[0], block, tx) then [xs[0]] else [], At(xs[1..], block, tx));
    }
  }

  ghost predicate TransactionsInOrder(xs: seq<Action>) {
    forall block, tx :: InLogOrder(At(xs, block, tx))
  }

  /** A sorted list is in the order of the chain iff each of its transactions is. */
  lemma OrderedIffTransactionsAre(xs: seq<Action>)
    requires Sorted(xs)
    ensures InLogOrder(xs) <==> TransactionsInOrder(xs)
  {
    hide InLogOrder, At, Sorted;
    if InLogOrder(xs) {
      forall block, tx
        ensures InLogOrder(At(xs, block, tx))
      {
        AtKeepsOrder(xs, block, tx);
      }
    }
    if TransactionsInOrder(xs) {
      OrderedByTransactions(xs);
    }
  }

  lemma {:induction false} OrderedByTransactions(xs: seq<Action>)
    requires Sorted(xs) && TransactionsInOrder(xs)
    ensures InLogOrder(xs)
  {
    if xs != [] {
      var x, rest := xs[0], xs[1..];
      forall block, tx
        ensures InLogOrder(At(rest, block, tx))
      {
        assert InLogOrder(At(xs, block, tx));
        OrderOfConcat(if IsAt(x, block, tx) then [x] else [], At(rest, block, tx));
      }
      OrderedByTransactions(rest);
      forall j | 0 <= j < |rest|
        ensures !EarlierLog(rest[j], x)
      {
        assert rest[j] == xs[j + 1] && !Precedes(xs[j + 1], xs[0]);
        if IsAt(rest[j], x.blockNumber, x.transactionIndex) {
          FirstAgainstRest(xs, x.blockNumber, x.transactionIndex, rest[j]);
        }
      }
      assert xs == [x] + rest;
      OrderOfConcat([x], rest);
    }
  }

  lemma FirstAgainstRest(xs: seq<Action>, block: int, tx: int, y: Action)
    requires xs != [] && IsAt(xs[0], block, tx) && y in xs[1..] && IsAt(y, block, tx) && InLogOrder(At(xs, block, tx))
    ensures !EarlierLog(y, xs[0])
  {
    OrderOfConcat([xs[0]], At(xs[1..], block, tx));
    AtHas(xs[1..], block, tx, y);
  }

  lemma {:induction false} AtHas(xs: seq<Action>, block: int, tx: int, y: Action)
    requires y in xs && IsAt(y, block, tx)
    ensures y in At(xs, block, tx)
  {
    if xs[0] != y {
      AtHas(xs[1..], block, tx, y);
    }
  }

  lemma NoneBeforeBoth(xs: seq<Action>, ys: seq<Action>, zs: seq<Action>)
    ensures NoneBefore(xs, ys + zs) <==> NoneBefore(xs, ys) && NoneBefore(xs, zs)
    ensures NoneBefore(xs + ys, zs) <==> NoneBefore(xs, zs) && NoneBefore(ys, zs)
  {
    assert forall a :: a in ys + zs <==> a in ys || a in zs;
    assert forall a :: a in xs + ys <==> a in xs || a in ys;
  }

  /** The messages behind a hash stand where the hash stands. */
  lemma OwnMessages(own: seq<Action>, h: Action, others: seq<Action>)
    requires own != [] && forall a :: a in own ==> a == h.(data := a.data)
    ensures InLogOrder(own)
    ensures NoneBefore(own, others) <==> NoneBefore([h], others)
    ensures NoneBefore(others, own) <==> NoneBefore(others, [h])
  {
    assert own[0] in own && h in [h];
  }

  /** Every hash has messages. */
  ghost predicate AllRead(chain: Chain, hashes: seq<Action>) {
    forall i :: 0 <= i < |hashes| ==> hashes[i].data.IpfsHashAdded? && chain.MessagesOf(hashes[i].data.ipfsHash) != []
  }

  /** Replacing hashes by their messages changes nothing in what comes before what. */
  lemma {:induction false} MessagesForHashes(chain: Chain, hashes: seq<Action>, others: seq<Action>)
    requires AllRead(chain, hashes)
    ensures NoneBefore(IpfsMessages(chain, hashes), others) <==> NoneBefore(hashes, others)
    ensures NoneBefore(others, IpfsMessages(chain, hashes)) <==> NoneBefore(others, hashes)
  {
    hide NoneBefore;
    if hashes == [] {
      NothingBefore(others);
    } else {
      var h, rest := hashes[0], hashes[1..];
      var own := PublishedAt(chain.MessagesOf(h.data.ipfsHash), h);
      assert hashes == [h] + rest;
      MessagesForHashes(chain, rest, others);
      OwnMessages(own, h, others);
      NoneBeforeBoth(own, IpfsMessages(chain, rest), others);
      NoneBeforeBoth([h], rest, others);
      NoneBeforeBoth(others, own, IpfsMessages(chain, rest));
      NoneBeforeBoth(others, [h], rest);
    }
  }

  lemma NothingBefore(others: seq<Action>)
    ensures NoneBefore([], others) && NoneBefore(others, [])
  {
  }

  lemma {:induction false} MessagesInOrder(chain: Chain, hashes: seq<Action>)
    requires AllRead(chain, hashes) && InLogOrder(hashes)
    ensures InLogOrder(IpfsMessages(chain, hashes))
  {
    hide NoneBefore;
    if hashes != [] {
      var h, rest := hashes[0], hashes[1..];
      var own := PublishedAt(chain.MessagesOf(h.data.ipfsHash), h);
      assert hashes == [h] + rest;
      OrderOfConcat([h], rest);
      MessagesInOrder(chain, rest);
      MessagesForHashes(chain, rest, [h]);
      OwnMessages(own, h, IpfsMessages(chain, rest));
      OrderOfConcat(own, IpfsMessages(chain, rest));
    }
  }

  /** What a transaction does when it is replayed, kind by kind. */
  lemma EffectiveByKind(chain: Chain, block: int, tx: int)
    requires chain.WellTyped()
    ensures Effective(MaciAt(chain, block, tx) + PollAt(chain, block, tx))
         == At(chain.signUps, block, tx) + (At(chain.deployPolls, block, tx) + (At(chain.joins, block, tx)
            + (IpfsMessages(chain, At(chain.ipfsHashes, block, tx)) + At(chain.publishes, block, tx))))
  {
    hide At, IpfsMessages, Effective;
    var signUps, deploys, joins := At(chain.signUps, block, tx), At(chain.deployPolls, block, tx), At(chain.joins, block, tx);
    var hashes, publishes := At(chain.ipfsHashes, block, tx), At(chain.publishes, block, tx);
    var messages := IpfsMessages(chain, hashes);
    AllPublished(chain, hashes);
    EffectiveConcat(signUps + deploys, joins + hashes + messages + publishes);
    EffectiveConcat(signUps, deploys);
    EffectiveConcat(joins + hashes + messages, publishes);
    EffectiveConcat(joins + hashes, messages);
    EffectiveConcat(joins, hashes);
    AllEffective(signUps);
    AllEffective(deploys);
    AllEffective(joins);
    NoneEffective(hashes);
    AllEffective(messages);
    AllEffective(publishes);
    LeftToRight(signUps, deploys, joins, messages, publishes);
  }

  lemma LeftToRight(a: seq<Action>, b: seq<Action>, c: seq<Action>, d: seq<Action>, e: seq<Action>)
    ensures (a + b) + ((c + [] + d) + e) == a + (b + (c + (d + e)))
  {
  }

  lemma {:induction false} AllPublished(chain: Chain, hashes: seq<Action>)
    requires forall i :: 0 <= i < |hashes| ==> hashes[i].data.IpfsHashAdded?
    ensures forall a :: a in IpfsMessages(chain, hashes) ==> a.data.PublishMessage?
  {
    if hashes != [] {
      AllPublished(chain, hashes[1..]);
    }
  }

  /** A transaction is replayed in the order of its logs iff the logs already come by kind. */
  lemma TransactionInLogOrderIff(chain: Chain, block: int, tx: int)
    requires chain.WellTyped() && Ascending(chain) && Readable(chain, block, block)
    ensures InLogOrder(Effective(MaciAt(chain, block, tx) + PollAt(chain, block, tx))) <==> ByKind(chain, block, tx)
  {
    hide At, IpfsMessages, Effective, InLogOrder, NoneBefore, MaciAt, PollAt;
    var signUps, deploys, joins := At(chain.signUps, block, tx), At(chain.deployPolls, block, tx), At(chain.joins, block, tx);
    var hashes, publishes := At(chain.ipfsHashes, block, tx), At(chain.publishes, block, tx);
    EffectiveByKind(chain, block, tx);
    AtKeepsOrder(chain.signUps, block, tx);
    AtKeepsOrder(chain.deployPolls, block, tx);
    AtKeepsOrder(chain.joins, block, tx);
    AtKeepsOrder(chain.ipfsHashes, block, tx);
    AtKeepsOrder(chain.publishes, block, tx);
    ReadableAt(chain, block, tx);
    MessagesInOrder(chain, hashes);
    OrderOfKinds(signUps, deploys, joins, IpfsMessages(chain, hashes), publishes);
    KindsForMessages(chain, signUps, deploys, joins, hashes, publishes);
  }

  ghost predicate KindByKind(a: seq<Action>, b: seq<Action>, c: seq<Action>, d: seq<Action>, e: seq<Action>) {
    NoneBefore(a, b + c + d + e) && NoneBefore(b, c + d + e) && NoneBefore(c, d + e) && NoneBefore(d, e)
  }

  lemma OrderOfKinds(a: seq<Action>, b: seq<Action>, c: seq<Action>, d: seq<Action>, e: seq<Action>)
    requires InLogOrder(a) && InLogOrder(b) && InLogOrder(c) && InLogOrder(d) && InLogOrder(e)
    ensures InLogOrder(a + (b + (c + (d + e)))) <==> KindByKind(a, b, c, d, e)
  {
    hide InLogOrder, NoneBefore;
    OrderOfConcat(a, b + (c + (d + e)));
    OrderOfConcat(b, c + (d + e));
    OrderOfConcat(c, d + e);
    OrderOfConcat(d, e);
    assert b + (c + (d + e)) == b + c + d + e;
    assert c + (d + e) == c + d + e;
  }

  lemma KindsForMessages(chain: Chain, a: seq<Action>, b: seq<Action>, c: seq<Action>, hashes: seq<Action>, e: seq<Action>)
    requires AllRead(chain, hashes)
    ensures KindByKind(a, b, c, IpfsMessages(chain, hashes), e) <==> KindByKind(a, b, c, hashes, e)
  {
    hide IpfsMessages, NoneBefore;
    var d := IpfsMessages(chain, hashes);
    MessagesForHashes(chain, hashes, a);
    MessagesForHashes(chain, hashes, b);
    MessagesForHashes(chain, hashes, c);
    MessagesForHashes(chain, hashes, e);
    Among(a, b + c, d, e);
    Among(a, b + c, hashes, e);
    Among(b, c, d, e);
    Among(b, c, hashes, e);
    NoneBeforeBoth(c, d, e);
    NoneBeforeBoth(c, hashes, e);
  }

  lemma Among(xs: seq<Action>, a: seq<Action>, b: seq<Action>, c: seq<Action>)
    ensures NoneBefore(xs, a + b + c) <==> NoneBefore(xs, a) && NoneBefore(xs, b) && NoneBefore(xs, c)
  {
    hide NoneBefore;
    NoneBeforeBoth(xs, a + b, c);
    NoneBeforeBoth(xs, a, b);
  }

  lemma ReadableAt(chain: Chain, block: int, tx: int)
    requires chain.WellTyped() && Readable(chain, block, block)
    ensures AllRead(chain, At(chain.ipfsHashes, block, tx))
  {
    var hashes := At(chain.ipfsHashes, block, tx);
    forall i | 0 <= i < |hashes|
      ensures hashes[i].data.IpfsHashAdded? && chain.MessagesOf(hashes[i].data.ipfsHash) != []
    {
      assert hashes[i] in chain.ipfsHashes && hashes[i].blockNumber == block;
    }
  }

  /**
   What is replayed comes in the order of the chain's logs if and only if within every transaction the logs already come
   by kind. Otherwise some action is replayed before one with an earlier log.
   */
  lemma ReplayInLogOrderIff(chain: Chain, lo: int, hi: int)
    requires chain.WellTyped() && Ascending(chain) && Readable(chain, lo, hi)
    ensures InLogOrder(Effective(SortActions(MaciRound(chain, lo, hi) + PollRound(chain, lo, hi))))
       <==> forall block, tx :: lo <= block <= hi ==> ByKind(chain, block, tx)
  {
    hide At, MaciAt, PollAt, MaciRound, PollRound, SortActions, Effective, InLogOrder, ByKind, Ascending, Readable, Sorted;
    var actions := MaciRound(chain, lo, hi) + PollRound(chain, lo, hi);
    var replayed := Effective(SortActions(actions));
    SortKeeps(actions);
    EffectiveSorted(SortActions(actions));
    OrderedIffTransactionsAre(replayed);
    if InLogOrder(replayed) {
      forall block, tx | lo <= block <= hi
        ensures ByKind(chain, block, tx)
      {
        assert InLogOrder(At(replayed, block, tx));
        TransactionOrder(chain, lo, hi, block, tx);
      }
    }
    if forall block, tx :: lo <= block <= hi ==> ByKind(chain, block, tx) {
      forall block, tx
        ensures InLogOrder(At(replayed, block, tx))
      {
        TransactionOrder(chain, lo, hi, block, tx);
      }
    }
  }

  lemma TransactionOrder(chain: Chain, lo: int, hi: int, block: int, tx: int)
    requires chain.WellTyped() && Ascending(chain) && Readable(chain, lo, hi)
    ensures InLogOrder(At(Effective(SortActions(MaciRound(chain, lo, hi) + PollRound(chain, lo, hi))), block, tx))
       <==> (lo <= block <= hi ==> ByKind(chain, block, tx))
  {
    hide At, MaciAt, PollAt, MaciRound, PollRound, SortActions, Effective, InLogOrder, ByKind, Ascending, Readable;
    EffectiveAt(SortActions(MaciRound(chain, lo, hi) + PollRound(chain, lo, hi)), block, tx);
    if lo <= block <= hi {
      WithinTransaction(chain, lo, hi, block, tx);
      ReadableBlock(chain, lo, hi, block);
      TransactionInLogOrderIff(chain, block, tx);
    } else {
      NothingOutside(chain, lo, hi, block, tx);
    }
  }

  lemma ReadableBlock(chain: Chain, lo: int, hi: int, block: int)
    requires chain.WellTyped() && Readable(chain, lo, hi) && lo <= block <= hi
    ensures Readable(chain, block, block)
  {
  }

  lemma NothingOutside(chain: Chain, lo: int, hi: int, block: int, tx: int)
    requires chain.WellTyped() && !(lo <= block <= hi)
    ensures InLogOrder(Effective(At(SortActions(MaciRound(chain, lo, hi) + PollRound(chain, lo, hi)), block, tx)))
  {
    hide At, MaciAt, PollAt, MaciRound, PollRound, SortActions;
    var actions := MaciRound(chain, lo, hi) + PollRound(chain, lo, hi);
    SortKeeps(actions);
    assert At(SortActions(actions), block, tx) == At(actions, block, tx);
    AtConcat(MaciRound(chain, lo, hi), PollRound(chain, lo, hi), block, tx);
    AtMaciRound(chain, lo, hi, block, tx);
    AtPollRound(chain, lo, hi, block, tx);
  }

  lemma {:induction false} EffectiveSorted(xs: seq<Action>)
    requires Sorted(xs)
    ensures Sorted(Effective(xs))
  {
    if xs != [] {
      EffectiveSorted(xs[1..]);
      forall j | 0 <= j < |Effective(xs[1..])|
        ensures !Precedes(Effective(xs[1..])[j], xs[0])
      {
        assert Effective(xs[1..])[j] in xs[1..];
      }
    }
  }

  /** A poll deployed in block 1, and in one transaction of block 2 a direct message and after it an IPFS hash. */
  function TwoMessages(direct: Published, fromIpfs: Published, key: PublicKey): Chain {
    Chain([], [Action(DeployPoll(0, QV), 1, 0, 0)], [], [Action(IpfsHashAdded("cid"), 2, 0, 1)],
          [Action(PublishMessage(direct), 2, 0, 0)], _ => [fromIpfs], _ => [], key, true, 2)
  }

  /** The message behind the hash is replayed first, so the message log is not the one the contract emitted. */
  lemma LaterMessageOvertakes(direct: Published, fromIpfs: Published, key: PublicKey)
    requires InField(direct.message, direct.encryptionPublicKey) && InField(fromIpfs.message, fromIpfs.encryptionPublicKey)
    ensures var chain := TwoMessages(direct, fromIpfs, key);
            && chain.WellTyped() && Ascending(chain) && !ByKind(chain, 2, 0) && Generated(chain, 0, 0, 2).Success?
            && Generated(chain, 0, 0, 2).value.PollOf(0) == Some(PollReplay(QV, [CallOf(fromIpfs), CallOf(direct)]))
            && MessagesIn([CallOf(fromIpfs), CallOf(direct)]) == [fromIpfs, direct]
  {
    hide Generated, SortActions, Replayed, Deployed, Readable;
    var chain := TwoMessages(direct, fromIpfs, key);
    var deploy, hash, publish := chain.deployPolls[0], chain.ipfsHashes[0], chain.publishes[0];
    var message := hash.(data := PublishMessage(fromIpfs));
    assert At(chain.ipfsHashes, 2, 0) == [hash] && At(chain.publishes, 2, 0) == [publish];
    assert EarlierLog(publish, hash) && hash in [hash] && publish in [publish];
    TwoMessagesScanned(direct, fromIpfs, key, deploy, hash, message, publish);
    SortedAlready(deploy, hash, message, publish);
    FourReplayed(key, deploy, hash, message, publish);
    TwoCalls(fromIpfs, direct);
    WhatIsGenerated(chain, 0, 0, 2);
  }

  lemma TwoCalls(first: Published, second: Published)
    ensures MessagesIn([CallOf(first), CallOf(second)]) == [first, second]
  {
    assert [CallOf(first)] + [CallOf(second)] == [CallOf(first), CallOf(second)] && [] + [CallOf(first)] == [CallOf(first)];
    OneMore([], CallOf(first));
    OneMore([CallOf(first)], CallOf(second));
  }

  lemma WhatIsGenerated(chain: Chain, pollId: int, lo: int, hi: int)
    requires chain.WellTyped() && pollId >= 0 && Deployed(chain, lo, hi, pollId) && chain.coordinatorMatches && Readable(chain, lo, hi)
    ensures var r := Replayed(pollId, MaciReplay([chain.padKey], []), SortActions(MaciRound(chain, lo, hi) + PollRound(chain, lo, hi)));
            r.Success? && r.value.PollOf(pollId).Some? && |MessagesIn(r.value.PollOf(pollId).value.actions)| == chain.totalMessages ==>
              Generated(chain, pollId, lo, hi) == r
  {
  }

  lemma TwoMessagesScanned(direct: Published, fromIpfs: Published, key: PublicKey, deploy: Action, hash: Action, message: Action,
                           publish: Action)
    requires var chain := TwoMessages(direct, fromIpfs, key);
             && chain.deployPolls == [deploy] && chain.ipfsHashes == [hash] && chain.publishes == [publish]
             && message == hash.(data := PublishMessage(fromIpfs))
    ensures var chain := TwoMessages(direct, fromIpfs, key);
            && Deployed(chain, 0, 2, 0) && Readable(chain, 0, 2)
            && MaciRound(chain, 0, 2) + PollRound(chain, 0, 2) == [deploy, hash, message, publish]
  {
    var chain := TwoMessages(direct, fromIpfs, key);
    assert Between([deploy], 0, 2) == [deploy] && Between([hash], 0, 2) == [hash] && Between([publish], 0, 2) == [publish];
    var own := PublishedAt(chain.MessagesOf("cid"), hash);
    assert own == [message];
    assert IpfsMessages(chain, [hash]) == own + IpfsMessages(chain, [hash][1..]);
    assert chain.deployPolls[0].data.pollId == 0;
  }

  lemma FourReplayed(key: PublicKey, deploy: Action, hash: Action, message: Action, publish: Action)
    requires deploy.data == DeployPoll(0, QV) && hash.data.IpfsHashAdded? && message.data.PublishMessage? && publish.data.PublishMessage?
    requires CanFollow([], CallOf(message.data.published)) && CanFollow([], CallOf(publish.data.published))
    ensures Replayed(0, MaciReplay([key], []), [deploy, hash, message, publish])
         == Success(MaciReplay([key], [Some(PollReplay(QV, [CallOf(message.data.published), CallOf(publish.data.published)]))]))
  {
    hide InField;
    var s0 := MaciReplay([key], []);
    var first, second := CallOf(message.data.published), CallOf(publish.data.published);
    var s1 := MaciReplay([key], [Some(PollReplay(QV, []))]);
    var s2 := MaciReplay([key], [Some(PollReplay(QV, [first]))]);
    var s3 := MaciReplay([key], [Some(PollReplay(QV, [first, second]))]);
    assert s0.polls + [s1.polls[0]] == s1.polls;
    assert s1.polls[0 := s2.polls[0]] == s2.polls && s2.polls[0 := s3.polls[0]] == s3.polls;
    assert [] + [first] == [first] && [first] + [second] == [first, second];
    assert Perform(0, s0, deploy) == Success(s1) && Perform(0, s1, hash) == Success(s1);
    assert Perform(0, s1, message) == Success(s2) && Perform(0, s2, publish) == Success(s3);
    ReplayStep(0, s2, [publish], s3);
    ReplayStep(0, s1, [message, publish], s2);
    ReplayStep(0, s1, [hash, message, publish], s1);
    ReplayStep(0, s0, [deploy, hash, message, publish], s1);
    assert [publish][1..] == [] && [message, publish][1..] == [publish] && [hash, message, publish][1..] == [message, publish];
    assert [deploy, hash, message, publish][1..] == [hash, message, publish];
  }

  lemma ReplayStep(pollId: int, state: MaciReplay, actions: seq<Action>, next: MaciReplay)
    requires actions != [] && Perform(pollId, state, actions[0]) == Success(next)
    ensures Replayed(pollId, state, actions) == Replayed(pollId, next, actions[1..])
  {
  }

  lemma SortedAlready(a: Action, b: Action, c: Action, d: Action)
    requires !Precedes(b, a) && !Precedes(c, b) && !Precedes(d, c)
    ensures SortActions([a, b, c, d]) == [a, b, c, d]
  {
    assert [a, b, c, d][..3] == [a, b, c] && [a, b, c][..2] == [a, b] && [a, b][..1] == [a] && [a][..0] == [];
    assert SortActions([a]) == [a];
    assert SortActions([a, b]) == [a, b];
    assert SortActions([a, b, c]) == [a, b, c];
  }

  function SignedUp(actions: seq<Action>): seq<PublicKey> {
    if actions == [] then []
    else (if actions[0].data.SignUp? then [actions[0].data.publicKey] else []) + SignedUp(actions[1..])
  }

  function CallOf(published: Published): PollAction {
    Publish(published.message, published.encryptionPublicKey)
  }

  /** The call an action makes on the poll, if it does. */
  function PollCall(action: Action): seq<PollAction> {
    match action.data
    case PollJoined(publicKey, balance, nullifier) => [Join(nullifier, publicKey, balance)]
    case PublishMessage(published) => [CallOf(published)]
    case _ => []
  }

  function PollCalls(actions: seq<Action>): seq<PollAction> {
    if actions == [] then [] else PollCall(actions[0]) + PollCalls(actions[1..])
  }

  /** The leaf of a join log. */
  function JoinOf(a: Action): seq<StateLeaf> {
    if a.data.PollJoined? then [StateLeaf(a.data.pollPublicKey, a.data.newVoiceCreditBalance)] else []
  }

  function PublishedOf(a: Action): seq<Published> { if a.data.PublishMessage? then [a.data.published] else [] }

  function NullifierOf(a: Action): set<int> { if a.data.PollJoined? then {a.data.nullifier} else {} }

  function JoinedIn(actions: seq<Action>): seq<StateLeaf> {
    if actions == [] then [] else JoinOf(actions[0]) + JoinedIn(actions[1..])
  }

  function PublishedIn(actions: seq<Action>): seq<Published> {
    if actions == [] then [] else PublishedOf(actions[0]) + PublishedIn(actions[1..])
  }

  function UsedNullifiers(actions: seq<Action>): set<int> {
    if actions == [] then {} else NullifierOf(actions[0]) + UsedNullifiers(actions[1..])
  }

  lemma Assoc<T>(a: seq<T>, b: seq<T>, c: seq<T>)
    ensures a + b + c == a + (b + c)
  {
  }

  /** The calls carry what the logs carry: key, credits and nullifier of every join, and every message with its key. */
  lemma {:induction false} CallsCarryTheLogs(before: seq<PollAction>, actions: seq<Action>)
    ensures JoinersIn(before + PollCalls(actions)) == JoinersIn(before) + JoinedIn(actions)
    ensures MessagesIn(before + PollCalls(actions)) == MessagesIn(before) + PublishedIn(actions)
    ensures NullifiersIn(before + PollCalls(actions)) == NullifiersIn(before) + UsedNullifiers(actions)
    decreases |actions|
  {
    hide JoinersIn, MessagesIn, NullifiersIn, PollCall, JoinOf, PublishedOf, NullifierOf;
    if actions == [] {
      assert before + PollCalls(actions) == before;
    } else {
      var first, rest := actions[0], actions[1..];
      FirstCall(before, first);
      CallsCarryTheLogs(before + PollCall(first), rest);
      Assoc(before, PollCall(first), PollCalls(rest));
      Assoc(JoinersIn(before), JoinOf(first), JoinedIn(rest));
      Assoc(MessagesIn(before), PublishedOf(first), PublishedIn(rest));
    }
  }

  lemma FirstCall(before: seq<PollAction>, a: Action)
    ensures JoinersIn(before + PollCall(a)) == JoinersIn(before) + JoinOf(a)
    ensures MessagesIn(before + PollCall(a)) == MessagesIn(before) + PublishedOf(a)
    ensures NullifiersIn(before + PollCall(a)) == NullifiersIn(before) + NullifierOf(a)
  {
    hide JoinersIn, MessagesIn, NullifiersIn;
    if PollCall(a) != [] {
      OneMore(before, PollCall(a)[0]);
    } else {
      assert before + PollCall(a) == before;
    }
  }

  /** A replay that succeeds drops no sign-up. */
  lemma {:induction false} ReplayCollectsSignUps(pollId: int, state: MaciReplay, actions: seq<Action>)
    ensures Replayed(pollId, state, actions).Success? ==>
      Replayed(pollId, state, actions).value.publicKeys == state.publicKeys + SignedUp(actions)
    decreases |actions|
  {
    if actions != [] && Perform(pollId, state, actions[0]).Success? {
      ReplayCollectsSignUps(pollId, Perform(pollId, state, actions[0]).value, actions[1..]);
    }
  }

  /**
   Once the poll is deployed, the replay succeeds exactly if no nullifier joins twice and every message is in the field;
   and then it drops no message and no join, and makes these calls in the order of the actions.
   */
  lemma {:induction false} ReplayCollects(pollId: int, state: MaciReplay, actions: seq<Action>, poll: PollReplay)
    requires state.PollOf(pollId) == Some(poll) && Replayable(poll.actions)
    ensures Replayed(pollId, state, actions).Success? <==> Replayable(poll.actions + PollCalls(actions))
    ensures Replayed(pollId, state, actions).Success? ==>
      Replayed(pollId, state, actions).value.PollOf(pollId) == Some(PollReplay(poll.mode, poll.actions + PollCalls(actions)))
    decreases |actions|
  {
    hide Replayable, NullifiersIn, CanFollow;
    if actions == [] {
      assert poll.actions + [] == poll.actions;
    } else {
      var next := Perform(pollId, state, actions[0]);
      var calls, rest := PollCall(actions[0]), PollCalls(actions[1..]);
      PerformOnPoll(pollId, state, actions[0], poll);
      assert poll.actions + (calls + rest) == poll.actions + calls + rest;
      assert (poll.actions + calls + rest)[..|poll.actions + calls|] == poll.actions + calls;
      if next.Success? {
        ReplayCollects(pollId, next.value, actions[1..], PollReplay(poll.mode, poll.actions + calls));
      } else if Replayable(poll.actions + calls + rest) {
        ReplayablePrefix(poll.actions + calls + rest, |poll.actions + calls|);
        assert false;
      }
    }
  }

  lemma PerformOnPoll(pollId: int, state: MaciReplay, action: Action, poll: PollReplay)
    requires state.PollOf(pollId) == Some(poll) && Replayable(poll.actions)
    ensures Perform(pollId, state, action).Success? <==> Replayable(poll.actions + PollCall(action))
    ensures Perform(pollId, state, action).Success? ==>
      Perform(pollId, state, action).value.PollOf(pollId) == Some(PollReplay(poll.mode, poll.actions + PollCall(action)))
  {
    hide Replayable, NullifiersIn, InField;
    if PollCall(action) == [] {
      assert poll.actions + [] == poll.actions;
    } else {
      OneMore(poll.actions, PollCall(action)[0]);
    }
  }

  /**
   If the replay leaves a poll under this id, one of the actions deployed it, and it has taken exactly the joins and messages
   that come after that deployment.
   */
  lemma {:induction false} PollStartsAtDeployment(pollId: int, state: MaciReplay, actions: seq<Action>) returns (k: nat)
    requires state.PollOf(pollId).None? && Replayed(pollId, state, actions).Success?
    requires Replayed(pollId, state, actions).value.PollOf(pollId).Some?
    ensures k < |actions| && actions[k].data.DeployPoll? && actions[k].data.pollId == pollId
    ensures Replayed(pollId, state, actions).value.PollOf(pollId)
         == Some(PollReplay(actions[k].data.pollMode, PollCalls(actions[k + 1..]))) && Replayable(PollCalls(actions[k + 1..]))
    decreases |actions|
  {
    hide Replayable;
    var next := Perform(pollId, state, actions[0]).value;
    if next.PollOf(pollId).Some? {
      k := 0;
      NothingIsReplayable();
      ReplayCollects(pollId, next, actions[1..], PollReplay(actions[0].data.pollMode, []));
      assert [] + PollCalls(actions[1..]) == PollCalls(actions[1..]);
    } else {
      var i := PollStartsAtDeployment(pollId, next, actions[1..]);
      k := i + 1;
      assert actions[1..][i + 1..] == actions[k + 1..];
    }
  }

  lemma NothingIsReplayable()
    ensures Replayable([])
  {
  }

  /** The place of the n-th deployment, which becomes poll n. */
  function Place(actions: seq<Action>, n: nat): (k: Option<nat>)
    ensures k.Some? ==> k.value < |actions| && actions[k.value].data.DeployPoll?
  {
    if actions == [] then None
    else if actions[0].data.DeployPoll? && n == 0 then Some(0)
    else
      match Place(actions[1..], if actions[0].data.DeployPoll? then n - 1 else n)
      case None => None
      case Some(k) => Some(k + 1)
  }

  /** A null poll stays one, and calls on it are skipped. */
  lemma {:induction false} NullPollStays(pollId: nat, state: MaciReplay, actions: seq<Action>)
    requires pollId < |state.polls| && state.polls[pollId].None?
    ensures Replayed(pollId, state, actions).Success? && Replayed(pollId, state, actions).value.PollOf(pollId).None?
    decreases |actions|
  {
    if actions != [] {
      NullPollStays(pollId, Perform(pollId, state, actions[0]).value, actions[1..]);
    }
  }

  /** What a replay comes to for the poll, by the deployment that takes its number. */
  lemma {:induction false} ReplayByPlace(pollId: nat, state: MaciReplay, actions: seq<Action>)
    requires |state.polls| <= pollId
    ensures var k, r := Place(actions, pollId - |state.polls|), Replayed(pollId, state, actions);
            if k.None? || actions[k.value].data.pollId != pollId then r.Success? && r.value.PollOf(pollId).None?
            else
              var calls := PollCalls(actions[k.value + 1..]);
              && (r.Success? <==> Replayable(calls))
              && (r.Success? ==> r.value.PollOf(pollId) == Some(PollReplay(actions[k.value].data.pollMode, calls)))
    decreases |actions|
  {
    hide Replayable, PollCalls, Perform;
    if actions != [] {
      var first, rest := actions[0], actions[1..];
      BeforeThePoll(pollId, state, first);
      var next := Perform(pollId, state, first).value;
      if first.data.DeployPoll? && |state.polls| == pollId {
        if first.data.pollId == pollId {
          NothingIsReplayable();
          ReplayCollects(pollId, next, rest, PollReplay(first.data.pollMode, []));
          assert [] + PollCalls(rest) == PollCalls(rest);
        } else {
          NullPollStays(pollId, next, rest);
        }
      } else {
        ReplayByPlace(pollId, next, rest);
        var k := Place(rest, pollId - |next.polls|);
        if k.Some? {
          assert rest[k.value] == actions[k.value + 1] && rest[k.value + 1..] == actions[k.value + 2..];
        }
      }
    }
  }

  /** Until the poll's number is taken no action throws, and only deployments count. */
  lemma BeforeThePoll(pollId: nat, state: MaciReplay, action: Action)
    requires |state.polls| <= pollId
    ensures var r := Perform(pollId, state, action);
            && r.Success? && |r.value.polls| == |state.polls| + (if action.data.DeployPoll? then 1 else 0)
            && (action.data.DeployPoll? && |state.polls| == pollId ==>
                  r.value.polls[pollId] == if action.data.pollId == pollId then Some(PollReplay(action.data.pollMode, [])) else None)
  {
  }

  /** The deployment at place k takes the poll's number and names the poll, and what comes after it is all its messages. */
  predicate TakesPoll(actions: seq<Action>, pollId: nat, total: nat) {
    var k := Place(actions, pollId);
    && k.Some? && actions[k.value].data.pollId == pollId && Replayable(PollCalls(actions[k.value + 1..]))
    && |MessagesIn(PollCalls(actions[k.value + 1..]))| == total
  }

  /**
   The state is generated exactly if the poll was deployed in the scanned blocks, the key is the coordinator's, every IPFS
   hash is readable, and the deployment that takes the poll's number names this poll and is followed by joins and messages
   that go through, with as many messages as the contract counts. It then holds all sign-ups, and these joins and messages.
   */
  lemma GeneratedIff(chain: Chain, pollId: int, lo: int, hi: int)
    requires chain.WellTyped()
    ensures var actions := SortActions(MaciRound(chain, lo, hi) + PollRound(chain, lo, hi));
            && (Generated(chain, pollId, lo, hi).Success? <==>
                  && pollId >= 0 && Deployed(chain, lo, hi, pollId) && chain.coordinatorMatches && Readable(chain, lo, hi)
                  && TakesPoll(actions, pollId, chain.totalMessages))
            && (Generated(chain, pollId, lo, hi).Success? ==>
                  var state, k := Generated(chain, pollId, lo, hi).value, Place(actions, pollId).value;
                  && state.publicKeys == [chain.padKey] + SignedUp(actions)
                  && state.PollOf(pollId) == Some(PollReplay(actions[k].data.pollMode, PollCalls(actions[k + 1..]))))
  {
    hide Deployed, Readable, MaciRound, PollRound, SortActions, Replayed, Replayable, PollCalls, Place;
    var actions, start := SortActions(MaciRound(chain, lo, hi) + PollRound(chain, lo, hi)), MaciReplay([chain.padKey], []);
    if pollId >= 0 {
      ReplayByPlace(pollId, start, actions);
      ReplayCollectsSignUps(pollId, start, actions);
    }
  }

  lemma ConcatSame(xs: seq<Action>, xs': seq<Action>, ys: seq<Action>, ys': seq<Action>)
    requires SameByTransaction(xs, xs') && SameByTransaction(ys, ys')
    ensures SameByTransaction(xs + ys, xs' + ys')
  {
    forall block, tx
      ensures At(xs + ys, block, tx) == At(xs' + ys', block, tx)
    {
      AtConcat(xs, ys, block, tx);
      AtConcat(xs', ys', block, tx);
      assert At(xs, block, tx) == At(xs', block, tx) && At(ys, block, tx) == At(ys', block, tx);
    }
  }

  method ReplayActions(pollId: int, start: MaciReplay, actions: seq<Action>) returns (r: Result<MaciReplay>)
    ensures r == Replayed(pollId, start, actions)
  {
    var state := start;
    for i := 0 to |actions|
      invariant Replayed(pollId, state, actions[i..]) == Replayed(pollId, start, actions)
    {
      assert actions[i..][0] == actions[i] && actions[i..][1..] == actions[i + 1..];
      var next := Perform(pollId, state, actions[i]);
      if next.Failure? {
        return next;
      }
      state := next.value;
    }
    r := Success(state);
  }

  /** Whatever blocksPerRequest is, the result is that of fetching everything at once. */
  method GenerateMaciStateFromContract(chain: Chain, pollId: int, fromBlock: int, lastBlock: int, blocksPerRequest: nat)
    returns (r: Result<MaciReplay>)
    requires chain.WellTyped()
    ensures r == Generated(chain, pollId, fromBlock, lastBlock)
  {
    hide SameByTransaction, MaciRound, PollRound, Readable, Deployed, SortActions, Replayed, Partition;
    if pollId < 0 {
      return Failure("invalid poll id");
    }
    var maciActions, foundPollIds, _ := ScanMaci(chain, fromBlock, lastBlock, blocksPerRequest);
    if pollId !in foundPollIds {
      return Failure("the specified pollId does not exist on-chain");
    }
    if !chain.coordinatorMatches {
      return Failure("wrong coordinator key");
    }
    var pollActions, _ := ScanPoll(chain, fromBlock, lastBlock, blocksPerRequest);
    if pollActions.Failure? {
      return Failure(pollActions.error);
    }
    var actions := maciActions + pollActions.value;
    ConcatSame(maciActions, MaciRound(chain, fromBlock, lastBlock), pollActions.value, PollRound(chain, fromBlock, lastBlock));
    SortForgetsInterleaving(actions, MaciRound(chain, fromBlock, lastBlock) + PollRound(chain, fromBlock, lastBlock));
    r := ReplayActions(pollId, MaciReplay([chain.padKey], []), SortActions(actions));
    if r.Success? && !(r.value.PollOf(pollId).Some? && |MessagesIn(r.value.PollOf(pollId).value.actions)| == chain.totalMessages) {
      return Failure("messages are missing");
    }
  }
}
