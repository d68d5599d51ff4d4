/** packages/core/ts/Poll.ts: the poll, updated in place by joining, publishing, processing and tallying. */
module PollMachine {
  import opened Powers
  import opened Merkle
  import opened NodeStore
  import opened QuinTree
  import opened DomainObjects
  import opened Field
  import opened Results
  import opened Voting
  import opened Witnesses
  import opened MessageLog
  import opened BatchRuns
  import opened SubrootProofs
  import opened TallySpec
  import opened VotingProperties

  function VoteCountsHashes(h: Hashes, counts: seq<VoteCounts>): (r: seq<int>)
    ensures |r| == |counts| && forall i :: 0 <= i < |counts| ==> r[i] == counts[i].Hash(h)
  {
    seq(|counts|, i requires 0 <= i < |counts| => counts[i].Hash(h))
  }

  function BlankCountsOf(cfg: Config): VoteCounts {
    BlankVoteCounts(cfg.maxVoteOptions, cfg.voteOptionTreeDepth)
  }

  function CountsShape(cfg: Config, depth: nat): Shape {
    Shape(STATE_TREE_ARITY, depth, BlankCountsOf(cfg).Hash(cfg.h), cfg.h.hash2)
  }

  predicate CountsOk(cfg: Config, c: VoteCounts) {
    |c.counts| == cfg.maxVoteOptions && c.voteOptionTreeDepth == cfg.voteOptionTreeDepth
  }

  /** A tree of a given shape with given leaves. */
  ghost predicate Is(tree: IncrementalQuinTree?, s: Shape, leaves: seq<int>)
    reads tree
  {
    tree != null && tree.S() == s && Holds(tree, leaves)
  }

  lemma PaddedUpdate(s: Shape, xs: seq<int>, i: nat, v: int)
    requires i < |xs| <= Capacity(s)
    ensures Padded(s, xs)[i := v] == Padded(s, xs[i := v])
  {
    var a, b := Padded(s, xs)[i := v], Padded(s, xs[i := v]);
    forall j | 0 <= j < Capacity(s)
      ensures a[j] == b[j]
    {
    }
    assert a == b;
  }

  lemma PaddedAppend(s: Shape, xs: seq<int>, v: int)
    requires |xs| < Capacity(s)
    ensures Padded(s, xs)[|xs| := v] == Padded(s, xs + [v])
  {
    var a, b := Padded(s, xs)[|xs| := v], Padded(s, xs + [v]);
    forall j | 0 <= j < Capacity(s)
      ensures a[j] == b[j]
    {
    }
    assert a == b;
  }

  /** Trailing leaves that hash to the zero of the tree make no difference. */
  lemma PaddedZeros(s: Shape, xs: seq<int>)
    requires |xs| <= Capacity(s)
    ensures Padded(s, []) == Padded(s, xs) <==> forall i :: 0 <= i < |xs| ==> xs[i] == s.zero
  {
    var a, b := Padded(s, []), Padded(s, xs);
    if forall i :: 0 <= i < |xs| ==> xs[i] == s.zero {
      assert a == b;
    } else {
      var i :| 0 <= i < |xs| && xs[i] != s.zero;
      assert a[i] != b[i];
    }
  }

  /** Inserts a tree's own zero leaf: as empty as before. */
  method InsertBlank(tree: IncrementalQuinTree) returns (ok: bool)
    requires Holds(tree, []) && tree.zeroValue != 0
    modifies tree`nodes, tree`root, tree`nextIndex
    ensures ok <==> old(tree.nextIndex) < tree.capacity
    ensures ok ==> Holds(tree, []) && tree.nextIndex == old(tree.nextIndex) + 1
  {
    if tree.nextIndex < tree.capacity {
      assert Padded(tree.S(), [])[tree.nextIndex := tree.zeroValue] == Padded(tree.S(), []);
    }
    ok := tree.Insert(tree.zeroValue);
  }

  lemma HoldsBlanksIff(tree: IncrementalQuinTree, xs: seq<int>)
    requires Holds(tree, [])
    ensures Holds(tree, xs) <==> |xs| <= tree.capacity && forall i :: 0 <= i < |xs| ==> xs[i] == tree.zeroValue
  {
    if |xs| <= tree.capacity {
      PaddedZeros(tree.S(), xs);
    }
  }

  /** Overwrites one of the leaves a tree holds. */
  method SetLeaf(tree: IncrementalQuinTree, ghost leaves: seq<int>, index: nat, value: int)
    requires Holds(tree, leaves) && index < |leaves| && value != 0
    modifies tree`nodes, tree`root
    ensures Holds(tree, leaves[index := value])
  {
    PaddedUpdate(tree.S(), leaves, index, value);
    var _ := tree.Update(index, value);
  }

  /** The path of one leaf of a tree, stated by the leaves it holds. */
  method PathOf(tree: IncrementalQuinTree, ghost leaves: seq<int>, index: nat) returns (path: seq<seq<int>>)
    requires Holds(tree, leaves) && index < |leaves|
    ensures path == PathElements(tree.S(), leaves, index)
  {
    var proof := tree.GenerateProof(index);
    HoldsProof(tree, leaves, index);
    assert ProofOf(tree.S(), leaves, index).pathElements == PathElements(tree.S(), leaves, index);
    path := proof.value.pathElements;
  }

  /** The path of a vote in the tree of the first `count` votes; the ones left out must be zero. */
  method VotePath(h: Hashes, depth: nat, votes: seq<int>, count: nat, option: nat) returns (path: seq<seq<int>>)
    requires h.NonZero() && depth >= 1 && count <= |votes| <= Pow(5, depth) && option < count
    requires forall j :: count <= j < |votes| ==> votes[j] == 0
    ensures path == PathElements(VoteShape(h, depth), votes, option)
  {
    var tree, _ := FilledTree(depth, 0, VOTE_OPTION_TREE_ARITY, h.hash5, votes[..count]);
    var proof := tree.GenerateProof(option);
    HoldsProof(tree, votes[..count], option);
    SameRowSameProof(tree.S(), votes[..count], votes, option);
    assert ProofOf(tree.S(), votes, option).pathElements == PathElements(VoteShape(h, depth), votes, option);
    path := proof.value.pathElements;
  }

  /** The slice of an array, which ends where the array does. */
  function Slice<T>(xs: seq<T>, lo: nat, hi: nat): (r: seq<T>)
    requires lo <= hi
    ensures hi <= |xs| ==> r == xs[lo..hi]
    ensures |xs| <= lo ==> r == []
  {
    xs[Least(lo, |xs|)..Least(hi, |xs|)]
  }

  ghost predicate HasOther(draws: seq<int>, avoid: int) {
    exists v :: v in draws && v != avoid
  }

  /** The first of some draws that is not the value to avoid. */
  ghost function FirstOther(draws: seq<int>, avoid: int): (r: int)
    requires HasOther(draws, avoid)
    ensures r != avoid && r in draws
  {
    assert draws == [draws[0]] + draws[1..];
    if draws[0] != avoid then draws[0] else FirstOther(draws[1..], avoid)
  }

  /** How many are missing up to a number. */
  function Short(wanted: nat, there: nat): nat { if there < wanted then wanted - there else 0 }

  class MaciState {
    var publicKeys: seq<PublicKey>
    var pollBeingProcessed: bool
    var currentPollBeingProcessed: int

    constructor (publicKeys: seq<PublicKey>)
      ensures this.publicKeys == publicKeys && !pollBeingProcessed
    {
      this.publicKeys, pollBeingProcessed, currentPollBeingProcessed := publicKeys, false, 0;
    }
  }

  /** What processMessage returns or throws. */
  datatype Processed =
    | Done(stateLeafIndex: nat, newStateLeaf: StateLeaf, newBallot: Ballot, slot: SlotWitness)
    | Threw(error: ProcessMessageError)

  class Poll {
    const cfg: Config
    const stateTreeDepth: nat
    const messageBatchSize: nat
    const tallyBatchSize: nat
    const maciStateRef: MaciState

    var ballots: seq<Ballot>
    var ballotTree: IncrementalQuinTree?
    var voteCounts: seq<VoteCounts>
    var voteCountsTree: IncrementalQuinTree?
    var messages: seq<Message>
    var encryptionPublicKeys: seq<PublicKey>
    ghost var log: seq<Published>
    var stateCopied: bool
    var totalBatchesProcessed: nat
    var currentMessageBatchIndex: nat
    var sbSalts: map<int, int>
    var chainHash: int
    var batchHashes: seq<int>
    var pollStateLeaves: seq<StateLeaf>
    var pollStateTree: IncrementalQuinTree?
    var pollNullifiers: set<int>
    var totalSignups: nat
    var actualStateTreeDepth: nat
    var tallyResult: seq<int>
    var perVoteOptionSpentVoiceCredits: seq<int>
    var totalSpentVoiceCredits: int
    var numBatchesTallied: nat
    var resultRootSalts: map<int, int>
    var spentVoiceCreditSubtotalSalts: map<int, int>
    var perVoteOptionSpentVoiceCreditsRootSalts: map<int, int>

    // ----- the abstract state

    ghost function St(): Voters
      reads `pollStateLeaves, `ballots
    {
      Voters(pollStateLeaves, ballots)
    }

    ghost function D(): Depths
      reads `actualStateTreeDepth
    {
      Depths(actualStateTreeDepth, stateTreeDepth)
    }

    ghost predicate Static() {
      && cfg.h.NonZero() && ConfigOk(cfg)
      && cfg.voteOptionTreeDepth >= 1 && cfg.maxVoteOptions == Pow(5, cfg.voteOptionTreeDepth)
      && stateTreeDepth >= 1 && messageBatchSize >= 1 && tallyBatchSize >= 1
    }

    ghost predicate ArraysOk()
      reads `pollStateLeaves, `ballots, `voteCounts
    {
      && |pollStateLeaves| >= 1 && pollStateLeaves[0] == BLANK_STATE_LEAF
      && |ballots| == |voteCounts| >= 1 && ballots[0] == BlankBallotOf(cfg)
      && (forall i :: 0 <= i < |ballots| ==> BallotOk(cfg, ballots[i]))
      && (forall i :: 0 <= i < |voteCounts| ==> CountsOk(cfg, voteCounts[i]))
    }

    ghost predicate StateTreeOk()
      reads `pollStateTree, `actualStateTreeDepth, `pollStateLeaves, pollStateTree
    {
      && actualStateTreeDepth >= 1
      && Is(pollStateTree, StateShape(cfg, actualStateTreeDepth), StateHashes(cfg, pollStateLeaves))
      && pollStateTree.nextIndex == |pollStateLeaves|
    }

    ghost predicate BallotTreeOk()
      reads `ballotTree, `ballots, ballotTree
    {
      Is(ballotTree, BallotShape(cfg, stateTreeDepth), BallotHashes(cfg, ballots))
    }

    ghost predicate CountsTreeOk()
      reads `voteCountsTree, `voteCounts, voteCountsTree
    {
      Is(voteCountsTree, CountsShape(cfg, stateTreeDepth), VoteCountsHashes(cfg.h, voteCounts))
    }

    /** Each array of leaves is exactly what its tree holds. */
    ghost predicate TreesOk()
      reads `pollStateLeaves, `ballots, `voteCounts, `pollStateTree, `ballotTree, `voteCountsTree, `actualStateTreeDepth
      reads pollStateTree, ballotTree, voteCountsTree
    {
      && StateTreeOk() && BallotTreeOk() && CountsTreeOk()
      && pollStateTree != ballotTree && pollStateTree != voteCountsTree && ballotTree != voteCountsTree
    }

    /** The arrays and trees processing works on. */
    ghost predicate Ready()
      reads `pollStateLeaves, `ballots, `voteCounts, `pollStateTree, `ballotTree, `voteCountsTree, `actualStateTreeDepth, `stateCopied
      reads pollStateTree, ballotTree, voteCountsTree
    {
      Static() && ArraysOk() && stateCopied && TreesOk() && |pollStateLeaves| <= |ballots|
    }

    lemma ReadyIsPollOk()
      requires Ready()
      ensures PollOk(cfg, D(), St()) && Valid() && stateCopied && Static()
    {
    }

    constructor (cfg: Config, stateTreeDepth: nat, messageBatchSize: nat, tallyBatchSize: nat, maciState: MaciState)
      requires cfg.h.NonZero() && cfg.voteOptionTreeDepth >= 1 && stateTreeDepth >= 1
      requires messageBatchSize >= 1 && tallyBatchSize >= 1
      requires cfg.maxVoteOptions == Pow(VOTE_OPTION_TREE_ARITY, cfg.voteOptionTreeDepth) && cfg.voteOptions <= cfg.maxVoteOptions
      ensures this.cfg == cfg && this.stateTreeDepth == stateTreeDepth && maciStateRef == maciState
      ensures this.messageBatchSize == messageBatchSize && this.tallyBatchSize == tallyBatchSize && IsNew()
    {
      this.cfg, this.stateTreeDepth, this.maciStateRef := cfg, stateTreeDepth, maciState;
      this.messageBatchSize, this.tallyBatchSize := messageBatchSize, tallyBatchSize;
      ballots, ballotTree := [BlankBallotOf(cfg)], null;
      voteCounts, voteCountsTree := [BlankCountsOf(cfg)], null;
      messages, encryptionPublicKeys, log := [], [], [];
      stateCopied, totalBatchesProcessed, currentMessageBatchIndex := false, 0, 0;
      sbSalts, chainHash, batchHashes := map[], NOTHING_UP_MY_SLEEVE, [NOTHING_UP_MY_SLEEVE];
      pollStateLeaves, pollStateTree := [BLANK_STATE_LEAF], null;
      pollNullifiers, totalSignups, actualStateTreeDepth := {}, 0, stateTreeDepth;
      tallyResult, perVoteOptionSpentVoiceCredits := Zeros(cfg.maxVoteOptions), Zeros(cfg.maxVoteOptions);
      totalSpentVoiceCredits, numBatchesTallied := 0, 0;
      resultRootSalts, spentVoiceCreditSubtotalSalts, perVoteOptionSpentVoiceCreditsRootSalts := map[], map[], map[];
    }

    ghost predicate IsNew()
      reads this
    {
      && Static() && ArraysOk() && !stateCopied && pollStateTree == null && NotTallied() && Publishing() && log == []
      && St() == Voters([BLANK_STATE_LEAF], [BlankBallotOf(cfg)]) && pollNullifiers == {} && voteCounts == [BlankCountsOf(cfg)]
    }

    /** The constructor with its guard: more vote options than the vote tree has leaves make it throw. */
    static method Create(cfg: Config, stateTreeDepth: nat, messageBatchSize: nat, tallyBatchSize: nat, maciState: MaciState)
      returns (r: Result<Poll>)
      requires cfg.h.NonZero() && cfg.voteOptionTreeDepth >= 1 && stateTreeDepth >= 1
      requires messageBatchSize >= 1 && tallyBatchSize >= 1
      requires cfg.maxVoteOptions == Pow(VOTE_OPTION_TREE_ARITY, cfg.voteOptionTreeDepth)
      ensures r.Success? <==> cfg.voteOptions <= cfg.maxVoteOptions
      ensures r.Success? ==> fresh(r.value) && r.value.IsNew() && r.value.cfg == cfg && r.value.stateTreeDepth == stateTreeDepth
      ensures r.Success? ==> r.value.messageBatchSize == messageBatchSize && r.value.tallyBatchSize == tallyBatchSize
                             && r.value.maciStateRef == maciState
    {
      if cfg.voteOptions > cfg.maxVoteOptions {
        return Failure("vote options cannot be greater than the number of leaves in the vote option tree");
      }
      var poll := new Poll(cfg, stateTreeDepth, messageBatchSize, tallyBatchSize, maciState);
      r := Success(poll);
    }

    // ----- joining and preparing

    /** The arrays, and the trees once there are any. */
    ghost predicate Valid()
      reads `pollStateLeaves, `ballots, `voteCounts, `pollStateTree, `ballotTree, `voteCountsTree, `actualStateTreeDepth, `stateCopied
      reads pollStateTree, ballotTree, voteCountsTree
    {
      Static() && ArraysOk() && if stateCopied then TreesOk() else pollStateTree == null
    }

    lemma ValidIsStatic()
      requires Valid()
      ensures Static()
    {
    }

    lemma ValidIsArraysOk()
      requires Valid()
      ensures Static() && ArraysOk()
    {
    }

    predicate HasRoom()
      reads `pollStateLeaves, `pollStateTree
    {
      pollStateTree == null || |pollStateLeaves| < pollStateTree.capacity
    }

    /**
     A nullifier joins once; a joiner's leaf goes to the end of the array and of the tree. A full tree throws only
     after the nullifier and the leaf were recorded, so the array is then ahead of the tree.
     */
    method JoinPoll(nullifier: int, publicKey: PublicKey, newVoiceCreditBalance: int) returns (r: Result<nat>)
      requires Valid()
      modifies `pollNullifiers, `pollStateLeaves, pollStateTree
      ensures r.Success? <==> nullifier !in old(pollNullifiers) && old(HasRoom())
      ensures r.Success? ==> Valid() && r.value == |old(pollStateLeaves)|
      ensures nullifier in old(pollNullifiers) ==> Valid() && unchanged(this)
      ensures nullifier !in old(pollNullifiers) ==> pollNullifiers == old(pollNullifiers) + {nullifier}
      ensures nullifier !in old(pollNullifiers) ==>
        pollStateLeaves == old(pollStateLeaves) + [StateLeaf(publicKey, newVoiceCreditBalance)]
      ensures nullifier !in old(pollNullifiers) && !old(HasRoom()) ==>
        pollStateTree != null && !StateTreeOk() && pollStateTree.root == old(pollStateTree.root)
    {
      hide BallotTreeOk, CountsTreeOk, BallotOk, CountsOk;
      var stateLeaf := StateLeaf(publicKey, newVoiceCreditBalance);
      if nullifier in pollNullifiers {
        return Failure("UserAlreadyJoined");
      }
      ghost var hashes := StateHashes(cfg, pollStateLeaves);
      pollNullifiers := pollNullifiers + {nullifier};
      pollStateLeaves := pollStateLeaves + [stateLeaf];
      if pollStateTree != null {
        var inserted := InsertLeaf(hashes, stateLeaf.Hash(cfg.h));
        if !inserted {
          return Failure("index out of bounds");
        }
        assert StateHashes(cfg, pollStateLeaves) == hashes + [stateLeaf.Hash(cfg.h)];
      }
      r := Success(|pollStateLeaves| - 1);
    }

    method InsertLeaf(ghost hashes: seq<int>, hash: int) returns (ok: bool)
      requires pollStateTree != null && Holds(pollStateTree, hashes) && pollStateTree.nextIndex == |hashes| && hash != 0
      modifies pollStateTree
      ensures ok <==> |hashes| < pollStateTree.capacity
      ensures ok ==> Holds(pollStateTree, hashes + [hash]) && pollStateTree.nextIndex == |hashes| + 1
      ensures !ok ==> pollStateTree.root == old(pollStateTree.root)
    {
      if |hashes| < pollStateTree.capacity {
        PaddedAppend(pollStateTree.S(), hashes, hash);
      }
      ok := pollStateTree.Insert(hash);
    }

    /** Every ballot and count there already was hashes like the blank one. */
    ghost predicate StillBlank(bs: seq<Ballot>, cs: seq<VoteCounts>) {
      && (forall i :: 0 <= i < |bs| ==> bs[i].Hash(cfg.h) == BlankBallotOf(cfg).Hash(cfg.h))
      && (forall i :: 0 <= i < |cs| ==> cs[i].Hash(cfg.h) == BlankCountsOf(cfg).Hash(cfg.h))
    }

    /**
     Rebuilds the state tree from its leaves, and the ballot and count trees as blank ones, with blank ballots
     appended up to the number of signups. So the trees hold what the arrays hold exactly when the ballots there
     were all still blank, that is, before any message is processed. `ok` is false where an insert throws: into the state
     tree before anything else changes, or into the ballot tree after as many ballots were appended as it took.
     */
    method UpdatePoll(totalSignups: nat) returns (ok: bool)
      requires Valid()
      modifies `totalSignups, `actualStateTreeDepth, `pollStateTree, `ballotTree, `ballots, `voteCountsTree, `voteCounts, `stateCopied
      ensures this.totalSignups == totalSignups && actualStateTreeDepth >= 1 && totalSignups <= Pow(2, actualStateTreeDepth)
      ensures forall d: nat :: 1 <= d < actualStateTreeDepth ==> Pow(2, d) < totalSignups
      ensures ok <==> |pollStateLeaves| <= Pow(2, actualStateTreeDepth) && 1 + old(Missing(totalSignups)) <= Pow(2, stateTreeDepth)
      ensures ok ==> stateCopied && StateTreeOk() && |ballots| == |old(ballots)| + old(Missing(totalSignups))
      ensures ok ==> forall i :: 0 <= i < |ballots| ==> ballots[i] == if i < |old(ballots)| then old(ballots)[i] else BlankBallotOf(cfg)
      ensures ok ==> (Valid() <==> |ballots| <= Pow(2, stateTreeDepth) && StillBlank(old(ballots), old(voteCounts)))
      ensures ok ==> fresh(pollStateTree) && fresh(ballotTree) && fresh(voteCountsTree) && (old(NotTallied()) ==> NotTallied())
      ensures !ok ==> fresh(pollStateTree) && unchanged(`stateCopied, `voteCounts, `voteCountsTree)
      ensures !ok && |pollStateLeaves| > Pow(2, actualStateTreeDepth) ==> unchanged(`ballots, `ballotTree)
      ensures !ok && |pollStateLeaves| <= Pow(2, actualStateTreeDepth) ==>
        StateTreeOk() && fresh(ballotTree) && ballots == old(ballots) + Blanks(Pow(2, stateTreeDepth) - 1)
    {
      hide StateTreeOk, BallotTreeOk, CountsTreeOk, StillBlank, BallotOk, CountsOk;
      ValidIsArraysOk();
      this.totalSignups := totalSignups;
      // max(1, ceil(log2 n)) is the least depth >= 1 whose binary tree holds n leaves
      actualStateTreeDepth := CalcDepthFromNumLeaves(2, totalSignups);
      ok := BuildStateTree();
      if ok {
        ok := BuildBlankTrees(Signups(totalSignups));
      }
    }

    method BuildStateTree() returns (ok: bool)
      requires Static() && ArraysOk() && actualStateTreeDepth >= 1
      modifies `pollStateTree
      ensures pollStateTree != null && fresh(pollStateTree)
      ensures ok <==> |pollStateLeaves| <= Pow(2, actualStateTreeDepth)
      ensures ok ==> StateTreeOk()
    {
      var leafHashes := StateHashes(cfg, pollStateLeaves);
      pollStateTree, ok := FilledTree(actualStateTreeDepth, BLANK_STATE_LEAF.Hash(cfg.h), STATE_TREE_ARITY, cfg.h.hash2, leafHashes);
    }

    function Blanks(n: nat): (r: seq<Ballot>)
      ensures |r| == n && forall i :: 0 <= i < n ==> r[i] == BlankBallotOf(cfg)
    {
      seq(n, _ => BlankBallotOf(cfg))
    }

    method BuildBlankTrees(signups: nat) returns (ok: bool)
      requires Static() && ArraysOk() && StateTreeOk()
      modifies `ballotTree, `ballots, `voteCountsTree, `voteCounts, `stateCopied
      ensures ok <==> 1 + Short(signups, |old(ballots)|) <= Pow(2, stateTreeDepth)
      ensures ok ==> stateCopied && StateTreeOk() && ballots == old(ballots) + Blanks(Short(signups, |old(ballots)|))
      ensures ok ==> (Valid() <==> |ballots| <= Pow(2, stateTreeDepth) && StillBlank(old(ballots), old(voteCounts)))
      ensures ok ==> fresh(ballotTree) && fresh(voteCountsTree) && (old(NotTallied()) ==> NotTallied())
      ensures !ok ==> StateTreeOk() && fresh(ballotTree) && ballots == old(ballots) + Blanks(Pow(2, stateTreeDepth) - 1)
      ensures !ok ==> unchanged(`stateCopied, `voteCounts, `voteCountsTree)
    {
      hide StillBlank, BallotOk, CountsOk, BallotTreeOk, CountsTreeOk, Holds, StateTreeOk;
      ok := AppendBallots(signups);
      if ok {
        AppendCounts(signups);
        stateCopied := true;
        BlanksAreOk();
        AgreeIffBlank(old(ballots), old(voteCounts));
      }
    }

    /** A new ballot tree, with a blank leaf for participant 0 and one for each blank ballot appended. */
    method AppendBallots(signups: nat) returns (ok: bool)
      requires Static() && ArraysOk() && StateTreeOk()
      modifies `ballotTree, `ballots
      ensures StateTreeOk() && fresh(ballotTree) && ballotTree != null
      ensures ok <==> 1 + Short(signups, |old(ballots)|) <= Pow(2, stateTreeDepth)
      ensures ok ==> ballots == old(ballots) + Blanks(Short(signups, |old(ballots)|))
      ensures ok ==> Is(ballotTree, BallotShape(cfg, stateTreeDepth), [])
      ensures !ok ==> ballots == old(ballots) + Blanks(Pow(2, stateTreeDepth) - 1)
    {
      hide Padded, Consistent, WellFormed, StateTreeOk, ArraysOk, Pow;
      var emptyBallotHash := BallotHash(cfg.h, BlankBallotOf(cfg));
      BlankShapes();
      ballotTree := new IncrementalQuinTree(stateTreeDepth, emptyBallotHash, STATE_TREE_ARITY, cfg.h.hash2);
      ok := InsertBlank(ballotTree);
      ghost var k := 0;
      assert old(ballots) + Blanks(0) == ballots;
      while |ballots| < signups
        invariant fresh(ballotTree) && ballotTree != null && Is(ballotTree, BallotShape(cfg, stateTreeDepth), []) && StateTreeOk()
        invariant ballotTree.nextIndex == 1 + k <= ballotTree.capacity && k <= Short(signups, |old(ballots)|)
        invariant ballots == old(ballots) + Blanks(k)
        decreases signups - |ballots|
      {
        ok := InsertBlank(ballotTree);
        if !ok {
          return;
        }
        ballots := ballots + [BlankBallotOf(cfg)];
        k := k + 1;
      }
      ok := true;
    }

    /** The same for the vote counts, which have room where the ballots had. */
    method AppendCounts(signups: nat)
      requires Static() && StateTreeOk() && ballotTree != null && Is(ballotTree, BallotShape(cfg, stateTreeDepth), [])
      requires ballotTree != pollStateTree && 1 + Short(signups, |voteCounts|) <= Pow(2, stateTreeDepth)
      modifies `voteCountsTree, `voteCounts
      ensures StateTreeOk() && fresh(voteCountsTree) && voteCountsTree != null && Is(ballotTree, BallotShape(cfg, stateTreeDepth), [])
      ensures Is(voteCountsTree, CountsShape(cfg, stateTreeDepth), [])
      ensures voteCounts == old(voteCounts) + seq(Short(signups, |old(voteCounts)|), _ => BlankCountsOf(cfg))
    {
      hide Padded, Consistent, WellFormed, StateTreeOk, Pow;
      var emptyCountsHash := VoteCountsHash(cfg.h, BlankCountsOf(cfg));
      BlankShapes();
      voteCountsTree := new IncrementalQuinTree(stateTreeDepth, emptyCountsHash, STATE_TREE_ARITY, cfg.h.hash2);
      var _ := InsertBlank(voteCountsTree);
      ghost var k := 0;
      while |voteCounts| < signups
        invariant fresh(voteCountsTree) && voteCountsTree != null && Is(voteCountsTree, CountsShape(cfg, stateTreeDepth), [])
        invariant StateTreeOk() && Is(ballotTree, BallotShape(cfg, stateTreeDepth), [])
        invariant voteCountsTree.nextIndex == 1 + k && k <= Short(signups, |old(voteCounts)|)
        invariant voteCounts == old(voteCounts) + seq(k, _ => BlankCountsOf(cfg))
        decreases signups - |voteCounts|
      {
        var _ := InsertBlank(voteCountsTree);
        voteCounts := voteCounts + [BlankCountsOf(cfg)];
        k := k + 1;
      }
    }

    /** The shapes of the two blank trees, each with a leaf that is no zero and room for one. */
    lemma BlankShapes()
      requires Static()
      ensures WellFormed(BallotShape(cfg, stateTreeDepth)) && WellFormed(CountsShape(cfg, stateTreeDepth))
      ensures BlankBallotOf(cfg).Hash(cfg.h) != 0 && BlankCountsOf(cfg).Hash(cfg.h) != 0 && Pow(STATE_TREE_ARITY, stateTreeDepth) >= 1
    {
      PowMonotonic(STATE_TREE_ARITY, 0, stateTreeDepth);
    }

    lemma BlanksAreOk()
      ensures BallotOk(cfg, BlankBallotOf(cfg)) && CountsOk(cfg, BlankCountsOf(cfg))
    {
    }

    lemma AgreeIffBlank(bs: seq<Ballot>, cs: seq<VoteCounts>)
      requires Static() && ArraysOk() && bs <= ballots && cs <= voteCounts
      requires Is(ballotTree, BallotShape(cfg, stateTreeDepth), []) && Is(voteCountsTree, CountsShape(cfg, stateTreeDepth), [])
      requires forall i :: |bs| <= i < |ballots| ==> ballots[i] == BlankBallotOf(cfg)
      requires forall i :: |cs| <= i < |voteCounts| ==> voteCounts[i] == BlankCountsOf(cfg)
      ensures BallotTreeOk() && CountsTreeOk() <==> |ballots| <= Pow(2, stateTreeDepth) && StillBlank(bs, cs)
    {
      var bh, ch := BallotHashes(cfg, ballots), VoteCountsHashes(cfg.h, voteCounts);
      HoldsBlanksIff(ballotTree, bh);
      HoldsBlanksIff(voteCountsTree, ch);
      assert forall i :: 0 <= i < |bs| ==> bs[i] == ballots[i] && bh[i] == bs[i].Hash(cfg.h);
      assert forall i :: 0 <= i < |cs| ==> cs[i] == voteCounts[i] && ch[i] == cs[i].Hash(cfg.h);
    }

    /** How many blank ballots updatePoll appends. */
    function Missing(totalSignups: nat): nat
      reads `ballots, maciStateRef
    {
      Short(Signups(totalSignups), |ballots|)
    }

    /** The keys copied from the MACI state: at most the given number of signups. */
    function Signups(totalSignups: nat): nat
      reads maciStateRef
    {
      if totalSignups < |maciStateRef.publicKeys| then totalSignups else |maciStateRef.publicKeys|
    }

    // ----- processing one message

    method ProcessMessage(message: Message, encryptionPublicKey: PublicKey) returns (r: Processed)
      requires Ready()
      ensures var m := Published(message, encryptionPublicKey);
              match VerdictOn(cfg, St(), m)
              case Rejected(e) => r == Threw(e)
              case Accepted(cmd) =>
                r == Done(cmd.stateIndex, Updated(cfg, St().At(cmd.stateIndex), cmd).leaf,
                          Updated(cfg, St().At(cmd.stateIndex), cmd).ballot, WitnessOf(cfg, D(), St(), Some(m)))
      ensures r.Done? ==> SlotIsRight(cfg, D(), St(), Some(Published(message, encryptionPublicKey)), PadWitness(r.slot, stateTreeDepth))
    {
      hide SlotIsRight;
      ReadyIsPollOk();
      WitnessIsRight(cfg, D(), St(), Some(Published(message, encryptionPublicKey)));
      var decrypted := cfg.decrypt(Published(message, encryptionPublicKey));
      if decrypted.None? {
        return Threw(FailedDecryption);
      }
      var (command, signature) := decrypted.value;
      var stateLeafIndex := command.stateIndex;
      if stateLeafIndex >= |ballots| || stateLeafIndex < 1
         || stateLeafIndex >= (if pollStateTree.nextIndex != 0 then pollStateTree.nextIndex else -1) {
        return Threw(InvalidStateLeafIndex);
      }
      var stateLeaf, ballot := pollStateLeaves[stateLeafIndex], ballots[stateLeafIndex];
      if !cfg.verifySignature(command, signature, stateLeaf.publicKey) {
        return Threw(InvalidSignature);
      }
      if command.nonce != ballot.nonce + 1 {
        return Threw(InvalidNonce);
      }
      if command.voteOptionIndex >= cfg.voteOptions {
        return Threw(InvalidVoteOptionIndex);
      }
      var originalVoteWeight := ballot.votes[command.voteOptionIndex];
      var voiceCreditsLeft := VoiceCreditsLeft(cfg.mode, stateLeaf.voiceCreditBalance, originalVoteWeight, command.newVoteWeight);
      if voiceCreditsLeft < 0 {
        return Threw(InsufficientVoiceCredits);
      }
      if cfg.mode == FULL && voiceCreditsLeft > 0 {
        return Threw(InvalidVoiceCredits);
      }
      var newStateLeaf := StateLeaf(command.newPublicKey, voiceCreditsLeft);
      var votes := ballot.votes[command.voteOptionIndex := command.newVoteWeight];
      if cfg.mode == FULL {
        votes := seq(|votes|, index requires 0 <= index < |votes| => if command.voteOptionIndex == index then votes[index] else 0);
      }
      var newBallot := ballot.(nonce := ballot.nonce + 1, votes := votes);
      var slot := Witness(stateLeafIndex, command.voteOptionIndex, |ballot.votes|);
      assert newBallot.votes == NewVotes(cfg.mode, ballot.votes, command.voteOptionIndex, command.newVoteWeight);
      r := Done(stateLeafIndex, newStateLeaf, newBallot, slot);
    }

    /** Reads a participant, an option and their three paths; the vote tree is given the first `count` votes. */
    method Witness(index: nat, option: nat, count: nat) returns (w: SlotWitness)
      requires Ready() && index < |pollStateLeaves| && option < count <= cfg.maxVoteOptions
      requires forall j :: count <= j < |ballots[index].votes| ==> ballots[index].votes[j] == 0
      ensures w == WitnessAt(cfg, D(), St(), index, option)
    {
      var statePath := PathOf(pollStateTree, StateHashes(cfg, pollStateLeaves), index);
      var ballotPath := PathOf(ballotTree, BallotHashes(cfg, ballots), index);
      var votePath := VotePath(cfg.h, cfg.voteOptionTreeDepth, ballots[index].votes, count, option);
      w := SlotWitness(pollStateLeaves[index], statePath, ballots[index], ballotPath, ballots[index].votes[option], votePath);
    }

    /** The slot of a rejected message: whoever a forced decryption names, or participant 0. */
    method RejectedWitness(message: Message, encryptionPublicKey: PublicKey) returns (w: SlotWitness)
      requires Ready() && VerdictOn(cfg, St(), Published(message, encryptionPublicKey)).Rejected?
      ensures w == WitnessOf(cfg, D(), St(), Some(Published(message, encryptionPublicKey)))
    {
      var command := cfg.forceDecrypt(Published(message, encryptionPublicKey));
      if command.stateIndex < |pollStateLeaves| {
        if command.voteOptionIndex < cfg.voteOptions {
          w := Witness(command.stateIndex, command.voteOptionIndex, |ballots[0].votes|);
        } else {
          w := Witness(command.stateIndex, 0, |ballots[0].votes|);
        }
      } else {
        w := Witness(0, 0, 1);
      }
    }

    /** Stores an accepted message's new leaf and ballot in the arrays and in the trees. */
    method Store(index: nat, leaf: StateLeaf, ballot: Ballot)
      requires Ready() && 1 <= index < |pollStateLeaves| && BallotOk(cfg, ballot)
      modifies `pollStateLeaves, `ballots, pollStateTree`nodes, pollStateTree`root, ballotTree`nodes, ballotTree`root
      ensures Ready() && St() == old(St()).With(index, Voter(leaf, ballot))
    {
      ghost var leaves, hashes := StateHashes(cfg, pollStateLeaves), BallotHashes(cfg, ballots);
      pollStateLeaves := pollStateLeaves[index := leaf];
      SetLeaf(pollStateTree, leaves, index, leaf.Hash(cfg.h));
      assert StateHashes(cfg, pollStateLeaves) == leaves[index := leaf.Hash(cfg.h)];
      ballots := ballots[index := ballot];
      var ballotHash := BallotHash(cfg.h, ballot);
      SetLeaf(ballotTree, hashes, index, ballotHash);
      assert BallotHashes(cfg, ballots) == hashes[index := ballotHash];
    }

    /** One message of the batch: its slot, and its effect if it is accepted. */
    method ProcessSlot(message: Message, encryptionPublicKey: PublicKey) returns (w: SlotWitness)
      requires Ready()
      modifies `pollStateLeaves, `ballots, pollStateTree`nodes, pollStateTree`root, ballotTree`nodes, ballotTree`root
      ensures Ready() && St() == Apply(cfg, old(St()), Published(message, encryptionPublicKey))
      ensures w == WitnessOf(cfg, D(), old(St()), Some(Published(message, encryptionPublicKey)))
      ensures SlotIsRight(cfg, D(), old(St()), Some(Published(message, encryptionPublicKey)), PadWitness(w, stateTreeDepth))
    {
      hide SlotIsRight;
      ReadyIsPollOk();
      WitnessIsRight(cfg, D(), St(), Some(Published(message, encryptionPublicKey)));
      var r := ProcessMessage(message, encryptionPublicKey);
      match r
      case Done(index, newStateLeaf, newBallot, slot) =>
        w := slot;
        Store(index, newStateLeaf, newBallot);
      case Threw(_) =>
        w := RejectedWitness(message, encryptionPublicKey);
    }

    // ----- publishing

    /** The ghost log is the two parallel arrays, zipped. */
    ghost predicate Linked()
      reads `messages, `encryptionPublicKeys, `log
    {
      && |messages| == |encryptionPublicKeys| == |log|
      && forall i {:trigger messages[i]} :: 0 <= i < |log| ==> log[i] == Published(messages[i], encryptionPublicKeys[i])
    }

    /** Every closed batch's hash is the chain hash at its end. */
    ghost predicate HashesOk(batches: nat)
      reads `messages, `encryptionPublicKeys, `log, `chainHash, `batchHashes
    {
      && Linked()
      && chainHash == Chain(cfg.h, log)
      && |batchHashes| == batches + 1
      && forall j :: 0 <= j <= batches ==> batchHashes[j] == Chain(cfg.h, log[..BatchEnd(|messages|, messageBatchSize, j)])
    }

    /**
     No batch is processed yet. The full batches are closed; a start of processing that threw has closed the open batch
     as well, once for each such start.
     */
    ghost predicate Waiting()
      reads `messages, `encryptionPublicKeys, `log, `chainHash, `batchHashes, `currentMessageBatchIndex, `totalBatchesProcessed, `sbSalts
    {
      && messageBatchSize >= 1 && |batchHashes| >= 1 && HashesOk(|batchHashes| - 1) && totalBatchesProcessed == 0
      && currentMessageBatchIndex == |batchHashes| - 1 >= |messages| / messageBatchSize
      && (|messages| % messageBatchSize == 0 ==> currentMessageBatchIndex == |messages| / messageBatchSize)
      && forall k :: k in sbSalts ==> sbSalts[k] == 0
    }

    /** Only the full batches are closed. */
    ghost predicate Publishing()
      reads `messages, `encryptionPublicKeys, `log, `chainHash, `batchHashes, `currentMessageBatchIndex, `totalBatchesProcessed, `sbSalts
    {
      Waiting() && currentMessageBatchIndex == |messages| / messageBatchSize
    }

    /** From the first batch on: the batches above currentMessageBatchIndex are processed, and no salt below it is drawn. */
    ghost predicate Closed()
      reads `messages, `encryptionPublicKeys, `log, `chainHash, `batchHashes, `currentMessageBatchIndex, `totalBatchesProcessed, `sbSalts
    {
      && messageBatchSize >= 1 && |messages| >= 1 && |batchHashes| >= 1 && HashesOk(|batchHashes| - 1)
      && NumBatches(|messages|, messageBatchSize) <= |batchHashes| - 1 <= |messages|
      && currentMessageBatchIndex + totalBatchesProcessed == |batchHashes| - 1
      && totalBatchesProcessed <= NumBatches(|messages|, messageBatchSize)
      && currentMessageBatchIndex in sbSalts && forall k :: k in sbSalts && k < currentMessageBatchIndex ==> sbSalts[k] == 0
    }

    ghost predicate LogOk()
      reads `messages, `encryptionPublicKeys, `log, `chainHash, `batchHashes, `currentMessageBatchIndex, `totalBatchesProcessed, `sbSalts
    {
      if totalBatchesProcessed == 0 then Waiting() else Closed()
    }

    /** The messages are the log, and the chain hash is theirs. */
    ghost predicate Chained()
      reads `messages, `encryptionPublicKeys, `log, `chainHash
    {
      messageBatchSize >= 1 && Linked() && chainHash == Chain(cfg.h, log)
    }

    /** The batches of the first n messages are the full ones, with their hashes. */
    ghost predicate FullOnesClosed(n: nat)
      reads `log, `batchHashes, `currentMessageBatchIndex
    {
      && messageBatchSize >= 1 && n <= |log| && currentMessageBatchIndex == n / messageBatchSize == |batchHashes| - 1
      && forall j :: 0 <= j < |batchHashes| ==> batchHashes[j] == Chain(cfg.h, log[..BatchEnd(n, messageBatchSize, j)])
    }

    /** `ok` is false where an assertion throws, before anything is stored. */
    method PublishMessage(message: Message, encryptionPublicKey: PublicKey) returns (ok: bool)
      requires Chained()
      modifies `messages, `encryptionPublicKeys, `log, `chainHash, `batchHashes, `currentMessageBatchIndex
      ensures ok <==> encryptionPublicKey.x < SNARK_FIELD_SIZE && encryptionPublicKey.y < SNARK_FIELD_SIZE
                      && forall d :: d in message.data ==> d < SNARK_FIELD_SIZE
      ensures Chained() && log == if ok then old(log) + [Published(message, encryptionPublicKey)] else old(log)
      ensures ok && |messages| % messageBatchSize == 0 ==> batchHashes == old(batchHashes) + [chainHash]
      ensures !ok || |messages| % messageBatchSize != 0 ==> batchHashes == old(batchHashes)
      ensures old(Publishing()) ==> Publishing()
    {
      hide Chain, MessageHash, BatchEnd, Publishing;
      if !(encryptionPublicKey.x < SNARK_FIELD_SIZE && encryptionPublicKey.y < SNARK_FIELD_SIZE)
         || exists d | d in message.data :: d >= SNARK_FIELD_SIZE {
        return false;
      }
      FullOnesIff();
      StoreMessage(message, encryptionPublicKey);
      UpdateChainHash(MessageHash(cfg.h, Published(message, encryptionPublicKey)));
      FullOnesIff();
      ok := true;
    }

    lemma FullOnesIff()
      requires Chained()
      ensures Publishing() <==>
                FullOnesClosed(|messages|) && totalBatchesProcessed == 0 && forall k :: k in sbSalts ==> sbSalts[k] == 0
    {
      hide Chain, BatchEnd;
    }

    method StoreMessage(message: Message, encryptionPublicKey: PublicKey)
      requires Linked()
      modifies `messages, `encryptionPublicKeys, `log
      ensures Linked() && log == old(log) + [Published(message, encryptionPublicKey)] && log[..|messages| - 1] == old(log)
      ensures old(FullOnesClosed(|messages|)) ==> FullOnesClosed(|messages| - 1)
    {
      hide Chain;
      encryptionPublicKeys := encryptionPublicKeys + [encryptionPublicKey];
      messages := messages + [message];
      log := log + [Published(message, encryptionPublicKey)];
      ghost var n := |messages| - 1;
      if old(FullOnesClosed(|messages|)) {
        forall j | 0 <= j < |batchHashes|
          ensures log[..BatchEnd(n, messageBatchSize, j)] == old(log)[..BatchEnd(n, messageBatchSize, j)]
        {
        }
      }
    }

    /** Called with the message already stored. */
    method UpdateChainHash(messageHash: int)
      requires messageBatchSize >= 1 && |messages| >= 1 && Linked()
      requires messageHash == MessageHash(cfg.h, log[|messages| - 1]) && chainHash == Chain(cfg.h, log[..|messages| - 1])
      modifies `chainHash, `batchHashes, `currentMessageBatchIndex
      ensures Chained()
      ensures batchHashes == old(batchHashes) + if |messages| % messageBatchSize == 0 then [chainHash] else []
      ensures currentMessageBatchIndex == old(currentMessageBatchIndex) + if |messages| % messageBatchSize == 0 then 1 else 0
      ensures old(FullOnesClosed(|messages| - 1)) ==> FullOnesClosed(|messages|)
    {
      ghost var n, b := |messages|, messageBatchSize;
      NextBatch(n - 1, b);
      if FullOnesClosed(n - 1) {
        forall j | 0 <= j < |batchHashes|
          ensures BatchEnd(n, b, j) == BatchEnd(n - 1, b, j)
        {
          FullBatches(n - 1, b, j);
        }
      }
      chainHash := cfg.h.hash2([chainHash, messageHash]);
      assert log[..n] == log;
      if |messages| % messageBatchSize == 0 {
        FullBatches(n, b, n / b);
        batchHashes := batchHashes + [chainHash];
        currentMessageBatchIndex := currentMessageBatchIndex + 1;
      }
    }

    // ----- processing batches

    /** Closes the last batch if it is not full. */
    method PadLastBatch()
      requires Waiting()
      modifies `batchHashes
      ensures batchHashes == old(batchHashes) + if |messages| % messageBatchSize != 0 then [chainHash] else []
      ensures HashesOk(|batchHashes| - 1) && |batchHashes| - 1 >= NumBatches(|messages|, messageBatchSize)
    {
      ghost var n, b := |messages|, messageBatchSize;
      LastBatch(n, b);
      BatchEndMonotonic(n, b, NumBatches(n, b), |batchHashes|);
      assert log[..n] == log;
      if |messages| % messageBatchSize != 0 {
        batchHashes := batchHashes + [chainHash];
      }
    }

    function HasUnprocessedMessages(): bool
      requires messageBatchSize >= 1
      reads `messages, `totalBatchesProcessed
    {
      var batchSize := messageBatchSize;
      var totalBatches := if |messages| <= batchSize then 1 else |messages| / batchSize;
      totalBatchesProcessed < if |messages| > batchSize && |messages| % batchSize > 0 then totalBatches + 1 else totalBatches
    }

    /** An empty poll counts as one unprocessed batch, so only polls with a message ever finish. */
    lemma UnprocessedIff()
      requires messageBatchSize >= 1
      ensures HasUnprocessedMessages() <==>
        totalBatchesProcessed < if |messages| == 0 then 1 else NumBatches(|messages|, messageBatchSize)
    {
      SourceBatchCount(|messages|, messageBatchSize);
      if |messages| > 0 {
        LastBatch(|messages|, messageBatchSize);
      }
    }

    /** The number of the batch the next call processes; batches are numbered from 1 and processed downwards. */
    function UpcomingBatch(): nat
      requires messageBatchSize >= 1 && |batchHashes| >= 1
      reads `messages, `totalBatchesProcessed, `currentMessageBatchIndex, `batchHashes
    {
      if totalBatchesProcessed > 0 then currentMessageBatchIndex
      else if |messages| % messageBatchSize != 0 then |batchHashes|
      else |batchHashes| - 1
    }

    method GenerateProcessMessagesCircuitInputsPartial(index: nat, padding: Published) returns (r: Result<BatchInputs>)
      requires Ready() && 1 <= index < |batchHashes| && HashesOk(|batchHashes| - 1) && index in sbSalts
      ensures r.Success? <==> index <= |messages|
      ensures r.Success? ==> PartialInputsOk(cfg, D(), St(), log, messageBatchSize, index, padding, r.value)
      ensures r.Success? ==> r.value.currentSbSalt == sbSalts[index] && r.value.totalSignups == totalSignups
    {
      hide Ready, NumBatches, StateRoot, BallotRoot, Chain, SlotAt, Valid, BatchEnd, PollOk, Static, Slice;
      if index > |messages| {
        return Failure("the index must be <= the number of messages");
      }
      ReadyIsPollOk();
      BatchSpan(|messages|, messageBatchSize, index);
      StartsWithin(|messages|, messageBatchSize, index);
      var paddedMessages, paddedKeys := PadLog(padding);
      var top := index * messageBatchSize;
      var batchEndIndex := top;
      if batchEndIndex > |messages| {
        batchEndIndex := |messages|;
      }
      var batchStartIndex := (index - 1) * messageBatchSize;
      var stateRoot, ballotRoot := Roots();
      r := Success(BatchInputs(totalSignups, batchStartIndex, batchEndIndex, batchHashes[index - 1], batchHashes[index],
                               Slice(paddedMessages, batchStartIndex, top), Slice(paddedKeys, batchStartIndex, top),
                               stateRoot, ballotRoot, cfg.h.hash3([stateRoot, ballotRoot, sbSalts[index]]), sbSalts[index], [], 0, 0));
    }

    /** The messages and keys, filled up to a multiple of the batch size. */
    method PadLog(padding: Published) returns (paddedMessages: seq<Message>, paddedKeys: seq<PublicKey>)
      requires messageBatchSize >= 1 && Linked()
      ensures |paddedMessages| == |paddedKeys| == NumBatches(|messages|, messageBatchSize) * messageBatchSize
      ensures forall j :: 0 <= j < |paddedMessages| ==>
        Published(paddedMessages[j], paddedKeys[j]) == SlotAt(log, j).GetOr(padding)
    {
      ghost var n, b := |messages|, messageBatchSize;
      LastBatch(n, b);
      paddedMessages, paddedKeys := messages, encryptionPublicKeys;
      while |paddedMessages| % messageBatchSize > 0
        invariant n <= |paddedMessages| == |paddedKeys| <= NumBatches(n, b) * b
        invariant forall j :: 0 <= j < |paddedMessages| ==>
          Published(paddedMessages[j], paddedKeys[j]) == SlotAt(log, j).GetOr(padding)
        decreases NumBatches(n, b) * b - |paddedMessages|
      {
        NotFullYet(NumBatches(n, b), b, |paddedMessages|);
        paddedMessages, paddedKeys := paddedMessages + [padding.message], paddedKeys + [padding.encryptionPublicKey];
      }
      FullNow(n, b, |paddedMessages|);
    }

    /** Everything of the batch from position lo up has been processed, starting in state st, and is shown by the slots. */
    ghost predicate DownTo(lo: nat, end: nat, st: Voters, slots: seq<SlotWitness>)
      reads this, pollStateTree, ballotTree, voteCountsTree
    {
      && Ready() && Linked() && VotersOk(cfg, st) && end <= |log| && (end < lo ==> end == |log|)
      && St() == Replay(cfg, st, log[Least(lo, end)..end])
      && slots == BatchSlots(cfg, D(), st, log, lo, |slots|, end)
    }

    lemma NothingProcessed(top: nat, end: nat)
      requires Ready() && Linked() && end == Least(top, |messages|)
      ensures DownTo(top, end, St(), [])
    {
    }

    /** The loop of processMessages over one batch of slots below `top`. */
    method ProcessDownFrom(top: nat, ghost end: nat) returns (slots: seq<SlotWitness>)
      requires Ready() && Linked() && messageBatchSize <= top && end == Least(top, |messages|)
      modifies `pollStateLeaves, `ballots, pollStateTree`nodes, pollStateTree`root, ballotTree`nodes, ballotTree`root
      ensures DownTo(top - messageBatchSize, end, old(St()), slots) && |slots| == messageBatchSize
    {
      hide DownTo, Ready, Linked;
      ghost var st := St();
      NothingProcessed(top, end);
      var lo := top;
      slots := [];
      for i := 0 to messageBatchSize
        invariant |slots| == i && lo == top - i
        invariant DownTo(lo, end, st, slots)
      {
        slots := PrependSlot(lo, slots, st, end);
        lo := lo - 1;
      }
    }

    /** The body of the batch loop: processes the log position below lo and puts its slot in front. */
    method PrependSlot(lo: nat, slots: seq<SlotWitness>, ghost st: Voters, ghost end: nat) returns (slots': seq<SlotWitness>)
      requires lo >= 1 && DownTo(lo, end, st, slots)
      modifies `pollStateLeaves, `ballots, pollStateTree`nodes, pollStateTree`root, ballotTree`nodes, ballotTree`root
      ensures DownTo(lo - 1, end, st, slots') && |slots'| == |slots| + 1
    {
      hide Ready, Linked, Replay, VotersOk, BatchSlots, WitnessOf, Apply;
      ReadyIsPollOk();
      BatchOneMore(cfg, D(), st, log, lo - 1, |slots|, end);
      var slot := ProcessIndex(lo - 1);
      slots' := [PadWitness(slot, stateTreeDepth)] + slots;
    }

    /** Processes batch k, newest message first, and collects its slots. */
    method ProcessBatch(k: nat) returns (slots: seq<SlotWitness>)
      requires Ready() && Linked() && k >= 1
      modifies `pollStateLeaves, `ballots, pollStateTree`nodes, pollStateTree`root, ballotTree`nodes, ballotTree`root
      ensures Ready() && BatchEnd(|messages|, messageBatchSize, k - 1) <= BatchEnd(|messages|, messageBatchSize, k)
      ensures St() == Replay(cfg, old(St()), BatchOf(log, messageBatchSize, k))
      ensures slots == BatchSlots(cfg, D(), old(St()), log, (k - 1) * messageBatchSize, messageBatchSize,
                                  BatchEnd(|messages|, messageBatchSize, k))
    {
      hide Replay, BatchSlots, Consistent, Padded, Row, WellFormed, VotersOk, BatchEnd;
      ghost var n, b := |messages|, messageBatchSize;
      BatchSpan(n, b, k);
      slots := ProcessDownFrom(k * messageBatchSize, BatchEnd(n, b, k));
    }

    /** Log position idx of the batch: a message, or padding past the end of the log. */
    method ProcessIndex(idx: nat) returns (slot: SlotWitness)
      requires Ready() && Linked()
      modifies `pollStateLeaves, `ballots, pollStateTree`nodes, pollStateTree`root, ballotTree`nodes, ballotTree`root
      ensures Ready() && St() == ApplySlot(cfg, old(St()), SlotAt(log, idx))
      ensures slot == WitnessOf(cfg, D(), old(St()), SlotAt(log, idx))
    {
      if idx < |messages| {
        slot := ProcessSlot(messages[idx], encryptionPublicKeys[idx]);
      } else {
        slot := Witness(0, 0, 1);
      }
    }

    /** The hash of the open batch, if there is one. */
    ghost function OpenBatch(): seq<int>
      requires messageBatchSize >= 1
      reads `messages, `chainHash
    {
      if |messages| % messageBatchSize != 0 then [chainHash] else []
    }

    /** The first call takes the lock, closes the open batch and starts at the last one closed. */
    method StartProcessing(pollId: int)
      requires Waiting()
      modifies maciStateRef`pollBeingProcessed, maciStateRef`currentPollBeingProcessed
      modifies `batchHashes, `currentMessageBatchIndex, `sbSalts
      ensures maciStateRef.pollBeingProcessed && maciStateRef.currentPollBeingProcessed == pollId
      ensures currentMessageBatchIndex == old(UpcomingBatch()) && sbSalts == old(sbSalts)[currentMessageBatchIndex := 0]
      ensures batchHashes == old(batchHashes) + if |messages| % messageBatchSize != 0 then [chainHash] else []
      ensures Waiting() && (Publishing() <==> |messages| % messageBatchSize == 0)
      ensures 1 <= currentMessageBatchIndex <= |messages| ==> Closed()
    {
      hide HashesOk, NumBatches;
      UnprocessedIff();
      maciStateRef.pollBeingProcessed := true;
      maciStateRef.currentPollBeingProcessed := pollId;
      PadLastBatch();
      currentMessageBatchIndex := |batchHashes| - 1;
      sbSalts := sbSalts[currentMessageBatchIndex := 0];
    }

    /** Whether the lock and the copied state let a call of processMessages go on. */
    predicate MayEnter(pollId: int)
      requires messageBatchSize >= 1
      reads `messages, `totalBatchesProcessed, `stateCopied, maciStateRef
    {
      && HasUnprocessedMessages() && stateCopied
      && (totalBatchesProcessed > 0 && maciStateRef.pollBeingProcessed ==> maciStateRef.currentPollBeingProcessed == pollId)
    }

    /** Whether a call of processMessages returns; in every other case it throws. */
    predicate CanProcess(pollId: int)
      requires messageBatchSize >= 1 && |batchHashes| >= 1
      reads `messages, `totalBatchesProcessed, `currentMessageBatchIndex, `batchHashes, `stateCopied, maciStateRef
    {
      MayEnter(pollId) && 1 <= UpcomingBatch() <= |messages|
    }

    /** The guards of processMessages; the first call also takes the lock and closes the open batch. */
    method PassGuards(pollId: int) returns (error: Option<string>)
      requires Static() && LogOk() && (stateCopied ==> Ready())
      modifies maciStateRef`pollBeingProcessed, maciStateRef`currentPollBeingProcessed
      modifies `batchHashes, `currentMessageBatchIndex, `sbSalts
      ensures LogOk() && (error.None? <==> old(MayEnter(pollId)))
      ensures !old(HasUnprocessedMessages()) ==> unchanged(this) && unchanged(maciStateRef)
      ensures old(HasUnprocessedMessages()) ==> currentMessageBatchIndex == old(UpcomingBatch())
      ensures old(HasUnprocessedMessages()) && totalBatchesProcessed == 0 ==>
        && maciStateRef.pollBeingProcessed && maciStateRef.currentPollBeingProcessed == pollId
        && sbSalts == old(sbSalts)[currentMessageBatchIndex := 0] && (Publishing() <==> |messages| % messageBatchSize == 0)
        && batchHashes == old(batchHashes) + OpenBatch()
        && (1 <= currentMessageBatchIndex <= |messages| ==> Closed())
      ensures totalBatchesProcessed > 0 ==> unchanged(maciStateRef) && sbSalts == old(sbSalts) && batchHashes == old(batchHashes)
    {
      hide Ready, HashesOk, HasUnprocessedMessages, NumBatches;
      if !HasUnprocessedMessages() {
        return Some("no more messages to process");
      }
      if totalBatchesProcessed == 0 {
        StartProcessing(pollId);
      }
      if maciStateRef.pollBeingProcessed && maciStateRef.currentPollBeingProcessed != pollId {
        return Some("another poll is currently being processed");
      }
      if !stateCopied {
        return Some("you must update the poll with the correct data first");
      }
      error := None;
    }

    /** The salt stored for the batch the next call processes. */
    ghost function CurrentSalt(): int
      requires totalBatchesProcessed > 0 ==> currentMessageBatchIndex in sbSalts
      reads `totalBatchesProcessed, `currentMessageBatchIndex, `sbSalts
    {
      if totalBatchesProcessed == 0 then 0 else sbSalts[currentMessageBatchIndex]
    }

    /** Which of the draws the next call takes: the first, unless a start that threw left a zero where it is stored. */
    ghost function SaltTaken(draws: seq<int>): int
      requires messageBatchSize >= 1 && |batchHashes| >= 1 && HasOther(draws, 0)
      reads `messages, `totalBatchesProcessed, `currentMessageBatchIndex, `batchHashes, `sbSalts
    {
      if UpcomingBatch() - 1 in sbSalts then FirstOther(draws, 0) else draws[0]
    }

    /**
     The new salt repeats the current one exactly when the draw taken does: in a first call when it is 0, unless a start
     that threw has left its zero below, and later whenever the first draw, or the first nonzero one above such a zero, is
     the current salt.
     */
    lemma SaltRepeatsIff(draws: seq<int>)
      requires LogOk() && HasOther(draws, 0) && UpcomingBatch() >= 1
      ensures totalBatchesProcessed == 0 ==> (SaltTaken(draws) == CurrentSalt() <==> UpcomingBatch() - 1 !in sbSalts && draws[0] == 0)
      ensures totalBatchesProcessed > 0 && UpcomingBatch() - 1 !in sbSalts ==>
        (SaltTaken(draws) == CurrentSalt() <==> draws[0] == sbSalts[currentMessageBatchIndex])
      ensures totalBatchesProcessed > 0 && UpcomingBatch() - 1 in sbSalts ==>
        (SaltTaken(draws) == CurrentSalt() <==> FirstOther(draws, 0) == sbSalts[currentMessageBatchIndex])
      ensures sbSalts == map[] ==> HasOther([0, 1], 0) && SaltTaken([0, 1]) == CurrentSalt()
    {
      hide HashesOk, FirstOther;
      assert 1 in [0, 1];
    }

    /**
     Processes the next batch; `draws` are what the random source would give. A call that throws leaves everything but
     the lock as it was, except that a first call has closed the open batch once more.
     */
    method ProcessMessages(pollId: int, padding: Published, draws: seq<int>) returns (r: Result<BatchInputs>)
      requires Static() && LogOk() && (stateCopied ==> Ready()) && HasOther(draws, 0)
      modifies maciStateRef`pollBeingProcessed, maciStateRef`currentPollBeingProcessed
      modifies `batchHashes, `currentMessageBatchIndex, `sbSalts, `totalBatchesProcessed, `pollStateLeaves, `ballots
      modifies pollStateTree, ballotTree
      ensures LogOk() && (stateCopied ==> Ready()) && (r.Success? <==> old(CanProcess(pollId)))
      ensures r.Failure? ==> St() == old(St()) && totalBatchesProcessed == old(totalBatchesProcessed)
      ensures r.Failure? && old(HasUnprocessedMessages()) && old(totalBatchesProcessed) == 0 ==>
        maciStateRef.pollBeingProcessed && (Publishing() <==> |messages| % messageBatchSize == 0)
      ensures old(HasUnprocessedMessages()) && old(totalBatchesProcessed) == 0 ==> batchHashes == old(batchHashes) + OpenBatch()
      ensures !old(HasUnprocessedMessages()) || old(totalBatchesProcessed) > 0 ==> batchHashes == old(batchHashes)
      ensures r.Success? ==> Ready() && old(UpcomingBatch()) >= 1
      ensures r.Success? ==> BatchDone(cfg, D(), old(St()), log, messageBatchSize, old(UpcomingBatch()), padding, r.value, St())
      ensures r.Success? ==> totalBatchesProcessed == old(totalBatchesProcessed) + 1 && currentMessageBatchIndex == old(UpcomingBatch()) - 1
      ensures r.Success? ==> currentMessageBatchIndex in sbSalts && sbSalts[currentMessageBatchIndex] == r.value.newSbSalt
      ensures r.Success? ==> r.value.currentSbSalt == old(CurrentSalt()) && r.value.newSbSalt == old(SaltTaken(draws))
      ensures r.Success? ==> r.value.totalSignups == totalSignups
      ensures r.Success? && old(totalBatchesProcessed) == 0 ==> maciStateRef.currentPollBeingProcessed == pollId
      ensures r.Success? && old(totalBatchesProcessed) > 0 ==> unchanged(maciStateRef`currentPollBeingProcessed)
      ensures r.Success? ==> (maciStateRef.pollBeingProcessed <==>
        && totalBatchesProcessed * messageBatchSize < |messages|
        && (old(totalBatchesProcessed) == 0 || old(maciStateRef.pollBeingProcessed)))
    {
      hide Ready, HashesOk, HasUnprocessedMessages, BatchDone, PartialInputsOk, FirstOther, Waiting, Closed, Publishing, CanProcess;
      var inputs := NextInputs(pollId, padding);
      if inputs.Failure? {
        return inputs;
      }
      var out := RunBatch(inputs.value, padding, draws);
      r := Success(out);
    }

    /** The part of processMessages before the messages are processed. */
    method NextInputs(pollId: int, padding: Published) returns (r: Result<BatchInputs>)
      requires Static() && LogOk() && (stateCopied ==> Ready())
      modifies maciStateRef`pollBeingProcessed, maciStateRef`currentPollBeingProcessed
      modifies `batchHashes, `currentMessageBatchIndex, `sbSalts
      ensures LogOk() && (r.Success? <==> old(CanProcess(pollId)))
      ensures old(HasUnprocessedMessages()) && totalBatchesProcessed == 0 ==>
        && maciStateRef.pollBeingProcessed && maciStateRef.currentPollBeingProcessed == pollId
        && batchHashes == old(batchHashes) + OpenBatch() && (Publishing() <==> |messages| % messageBatchSize == 0)
      ensures totalBatchesProcessed > 0 ==> unchanged(maciStateRef)
      ensures !old(HasUnprocessedMessages()) || totalBatchesProcessed > 0 ==> batchHashes == old(batchHashes)
      ensures r.Success? ==> Ready() && Closed() && old(HasUnprocessedMessages()) && currentMessageBatchIndex == old(UpcomingBatch()) >= 1
      ensures r.Success? ==> PartialInputsOk(cfg, D(), St(), log, messageBatchSize, currentMessageBatchIndex, padding, r.value)
      ensures r.Success? ==> r.value.currentSbSalt == old(CurrentSalt()) && r.value.totalSignups == totalSignups
      ensures r.Success? ==> (currentMessageBatchIndex - 1 in sbSalts <==> old(UpcomingBatch() - 1 in sbSalts))
    {
      hide Ready, HashesOk, HasUnprocessedMessages, NumBatches, PartialInputsOk;
      UnprocessedIff();
      var error := PassGuards(pollId);
      if error.Some? {
        return Failure(error.value);
      }
      if currentMessageBatchIndex == 0 {
        // the loop's own assertion, which fails for a poll without messages
        return Failure("the message index must be >= 0");
      }
      r := GenerateProcessMessagesCircuitInputsPartial(currentMessageBatchIndex, padding);
    }

    /** The part of processMessages after its guards. */
    method RunBatch(inputs: BatchInputs, padding: Published, draws: seq<int>) returns (out: BatchInputs)
      requires Ready() && Closed() && currentMessageBatchIndex >= 1 && HasUnprocessedMessages()
      requires PartialInputsOk(cfg, D(), St(), log, messageBatchSize, currentMessageBatchIndex, padding, inputs)
      requires HasOther(draws, 0)
      modifies maciStateRef`pollBeingProcessed
      modifies `currentMessageBatchIndex, `sbSalts, `totalBatchesProcessed, `pollStateLeaves, `ballots
      modifies pollStateTree`nodes, pollStateTree`root, ballotTree`nodes, ballotTree`root
      ensures Ready() && Closed()
      ensures BatchDone(cfg, D(), old(St()), log, messageBatchSize, old(currentMessageBatchIndex), padding, out, St())
      ensures out.newSbSalt == (if old(currentMessageBatchIndex - 1 in sbSalts) then FirstOther(draws, 0) else draws[0])
      ensures out.currentSbSalt == inputs.currentSbSalt && out.totalSignups == inputs.totalSignups
      ensures totalBatchesProcessed == old(totalBatchesProcessed) + 1
      ensures currentMessageBatchIndex == old(currentMessageBatchIndex) - 1
      ensures sbSalts == old(sbSalts)[currentMessageBatchIndex := out.newSbSalt]
      ensures maciStateRef.pollBeingProcessed <==>
        totalBatchesProcessed * messageBatchSize < |messages| && old(maciStateRef.pollBeingProcessed)
    {
      hide Replay, BatchSlots, BatchSlot, Consistent, Padded, Row, WellFormed, VotersOk, NumBatches, BatchEnd, StateRoot, BallotRoot, Chain;
      hide Ready, Valid, Closed, HashesOk, SlotAt, BatchOf, PartialInputsOk, BatchDone, FirstOther, HasUnprocessedMessages;
      var k := currentMessageBatchIndex;
      ghost var st, d := St(), D();
      ReadyIsPollOk();
      ClosedBatch();
      var slots := ProcessBatch(k);
      var newSbSalt := AdvanceBatch(draws);
      ReadyIsPollOk();
      var stateRoot, ballotRoot := Roots();
      var newSbCommitment := cfg.h.hash3([stateRoot, ballotRoot, newSbSalt]);
      AssembleBatch(cfg, d, st, log, messageBatchSize, k, padding, inputs, slots, newSbSalt, newSbCommitment, St());
      out := inputs.(slots := slots, newSbSalt := newSbSalt, newSbCommitment := newSbCommitment);
    }

    lemma ClosedBatch()
      requires Closed()
      ensures Linked()
    {
    }

    /**
     Records a processed batch, draws its salt and releases the lock after the last batch. The redraw loop compares a draw
     with the entry of the batch below, where at most a start that threw can have left a zero.
     */
    method AdvanceBatch(draws: seq<int>) returns (newSbSalt: int)
      requires Closed() && currentMessageBatchIndex >= 1 && HasUnprocessedMessages()
      requires HasOther(draws, 0)
      modifies maciStateRef`pollBeingProcessed
      modifies `currentMessageBatchIndex, `sbSalts, `totalBatchesProcessed
      ensures Closed() && totalBatchesProcessed == old(totalBatchesProcessed) + 1
      ensures currentMessageBatchIndex == old(currentMessageBatchIndex) - 1
      ensures newSbSalt == (if old(currentMessageBatchIndex - 1 in sbSalts) then FirstOther(draws, 0) else draws[0])
      ensures sbSalts == old(sbSalts)[currentMessageBatchIndex := newSbSalt]
      ensures maciStateRef.pollBeingProcessed <==>
        totalBatchesProcessed * messageBatchSize < |messages| && old(maciStateRef.pollBeingProcessed)
    {
      hide HashesOk, NumBatches;
      UnprocessedIff();
      totalBatchesProcessed := totalBatchesProcessed + 1;
      if currentMessageBatchIndex > 0 {
        currentMessageBatchIndex := currentMessageBatchIndex - 1;
      }
      newSbSalt := DrawSalt(draws);
      sbSalts := sbSalts[currentMessageBatchIndex := newSbSalt];
      if totalBatchesProcessed * messageBatchSize >= |messages| {
        maciStateRef.pollBeingProcessed := false;
      }
    }

    /** The redraw loop: draws again while the draw is the entry already stored for the batch. */
    method DrawSalt(draws: seq<int>) returns (newSbSalt: int)
      requires |draws| > 0
      requires currentMessageBatchIndex in sbSalts ==> HasOther(draws, sbSalts[currentMessageBatchIndex])
      ensures newSbSalt == if currentMessageBatchIndex in sbSalts then FirstOther(draws, sbSalts[currentMessageBatchIndex]) else draws[0]
    {
      var drawn := 0;
      newSbSalt := draws[drawn];
      while currentMessageBatchIndex in sbSalts && sbSalts[currentMessageBatchIndex] == newSbSalt
        invariant 0 <= drawn < |draws| && newSbSalt == draws[drawn]
        invariant currentMessageBatchIndex in sbSalts ==>
          && HasOther(draws[drawn..], sbSalts[currentMessageBatchIndex])
          && FirstOther(draws[drawn..], sbSalts[currentMessageBatchIndex]) == FirstOther(draws, sbSalts[currentMessageBatchIndex])
        invariant currentMessageBatchIndex !in sbSalts ==> drawn == 0
        decreases |draws| - drawn
      {
        assert draws[drawn..][1..] == draws[drawn + 1..];
        drawn := drawn + 1;
        newSbSalt := draws[drawn];
      }
    }

    /** After |outs| calls of a run that started at batch k in state st, with `first` batches processed before it. */
    ghost predicate Underway(pollId: int, first: nat, k: nat, st: Voters, paddings: nat -> Published, states: seq<Voters>,
                             outs: seq<BatchInputs>)
      reads this, pollStateTree, ballotTree, voteCountsTree, maciStateRef
    {
      && messageBatchSize >= 1 && Ready() && LogOk() && |messages| >= 1
      && Run(cfg, D(), log, messageBatchSize, k, paddings, states, outs)
      && states[0] == st && states[|outs|] == St() && UpcomingBatch() + |outs| == k && totalBatchesProcessed == first + |outs|
      && (totalBatchesProcessed == 0 ==> UpcomingBatch() <= |messages|)
      && (totalBatchesProcessed > 0 && maciStateRef.pollBeingProcessed ==> maciStateRef.currentPollBeingProcessed == pollId)
      && (|outs| > 0 ==>
            && outs[|outs| - 1].newSbSalt == sbSalts[currentMessageBatchIndex]
            && (maciStateRef.pollBeingProcessed ==> totalBatchesProcessed * messageBatchSize < |messages|))
    }

    /** There is a batch to process as long as one is unprocessed. */
    lemma UpcomingIsThere()
      requires LogOk() && |messages| >= 1 && HasUnprocessedMessages()
      ensures UpcomingBatch() >= 1 && (totalBatchesProcessed > 0 ==> UpcomingBatch() <= |messages|)
    {
      hide HashesOk;
      UnprocessedIff();
      LastBatch(|messages|, messageBatchSize);
    }

    lemma StartOfRun(pollId: int, paddings: nat -> Published)
      requires Static() && LogOk() && CanProcess(pollId) && Ready()
      ensures Underway(pollId, totalBatchesProcessed, UpcomingBatch(), St(), paddings, [St()], [])
    {
      ReadyIsPollOk();
    }

    method ThrowingCall(pollId: int, padding: Published, draws: seq<int>) returns (error: string)
      requires Static() && LogOk() && (stateCopied ==> Ready()) && !CanProcess(pollId) && HasOther(draws, 0)
      modifies maciStateRef`pollBeingProcessed, maciStateRef`currentPollBeingProcessed
      modifies `batchHashes, `currentMessageBatchIndex, `sbSalts, `totalBatchesProcessed, `pollStateLeaves, `ballots
      modifies pollStateTree, ballotTree
      ensures LogOk() && (stateCopied ==> Ready()) && totalBatchesProcessed == old(totalBatchesProcessed)
      ensures old(HasUnprocessedMessages()) && totalBatchesProcessed == 0 ==> (Publishing() <==> |messages| % messageBatchSize == 0)
    {
      hide Ready, HashesOk, HasUnprocessedMessages;
      var out := ProcessMessages(pollId, padding, draws);
      error := out.error;
    }

    /** One round of the loop of processAllMessages. */
    method NextCall(pollId: int, padding: Published, draws: seq<int>, ghost first: nat, ghost k: nat, ghost st: Voters,
                    ghost paddings: nat -> Published, ghost states: seq<Voters>, ghost outs: seq<BatchInputs>)
      returns (ghost states': seq<Voters>, ghost outs': seq<BatchInputs>)
      requires Underway(pollId, first, k, st, paddings, states, outs) && HasUnprocessedMessages() && HasOther(draws, 0)
      requires padding == paddings(UpcomingBatch())
      modifies maciStateRef`pollBeingProcessed, maciStateRef`currentPollBeingProcessed
      modifies `batchHashes, `currentMessageBatchIndex, `sbSalts, `totalBatchesProcessed, `pollStateLeaves, `ballots
      modifies pollStateTree, ballotTree
      ensures Underway(pollId, first, k, st, paddings, states', outs') && |outs'| == |outs| + 1
      ensures totalBatchesProcessed == old(totalBatchesProcessed) + 1
    {
      hide ArraysOk, TreesOk, HashesOk, BatchDone, VotersOk, FirstOther, HasUnprocessedMessages;
      ReadyIsPollOk();
      UpcomingIsThere();
      assert CanProcess(pollId);
      var out := ProcessMessages(pollId, padding, draws);
      ReadyIsPollOk();
      RunExtends(cfg, D(), log, messageBatchSize, k, paddings, states, outs, out.value, St());
      states', outs' := states + [St()], outs + [out.value];
    }

    /** How many of the oldest messages a first run leaves out: those of as many batches as starts threw with an open batch. */
    ghost function Skipped(): nat
      requires messageBatchSize >= 1 && |batchHashes| - 1 >= |messages| / messageBatchSize
      reads `messages, `batchHashes
    {
      BatchEnd(|messages|, messageBatchSize, |batchHashes| - 1 - |messages| / messageBatchSize)
    }

    /** A start that throws is harmless iff it finds no open batch; otherwise the run that comes after it leaves messages out. */
    lemma NothingSkippedIff()
      requires Waiting() && |messages| >= 1
      ensures Skipped() == 0 <==> Publishing()
      ensures |messages| % messageBatchSize == 0 ==> Skipped() == 0
      ensures !Publishing() ==> Skipped() >= Least(messageBatchSize, |messages|)
    {
      var extra := |batchHashes| - 1 - |messages| / messageBatchSize;
      if extra > 0 {
        MulMonotonic(messageBatchSize, 1, extra);
      }
    }

    /** The open batch was closed so often that the next batch lies past the number of messages. */
    ghost predicate Stuck()
      reads `messages, `encryptionPublicKeys, `log, `chainHash, `batchHashes, `currentMessageBatchIndex, `totalBatchesProcessed, `sbSalts
    {
      Waiting() && |messages| % messageBatchSize != 0 && |batchHashes| > |messages|
    }

    lemma StuckThrows(pollId: int)
      requires Stuck()
      ensures !CanProcess(pollId) && HasUnprocessedMessages()
    {
      hide HashesOk;
      UnprocessedIff();
      LastBatch(|messages|, messageBatchSize);
    }

    /** A poll that is stuck stays so: as long as no message is published, every call throws, whatever poll it names. */
    method KeepsThrowing(pollIds: seq<int>, padding: Published, draws: seq<int>) returns (results: seq<Result<BatchInputs>>)
      requires Static() && Stuck() && (stateCopied ==> Ready()) && HasOther(draws, 0)
      modifies maciStateRef`pollBeingProcessed, maciStateRef`currentPollBeingProcessed
      modifies `batchHashes, `currentMessageBatchIndex, `sbSalts, `totalBatchesProcessed, `pollStateLeaves, `ballots
      modifies pollStateTree, ballotTree
      ensures |results| == |pollIds| && forall i :: 0 <= i < |results| ==> results[i].Failure?
      ensures Stuck() && St() == old(St()) && |batchHashes| == |old(batchHashes)| + |pollIds|
    {
      hide Ready, HashesOk, HasUnprocessedMessages, NumBatches;
      results := [];
      for i := 0 to |pollIds|
        invariant |results| == i && forall j :: 0 <= j < i ==> results[j].Failure?
        invariant Stuck() && (stateCopied ==> Ready()) && St() == old(St()) && |batchHashes| == |old(batchHashes)| + i
      {
        StuckThrows(pollIds[i]);
        var r := ProcessMessages(pollIds[i], padding, draws);
        results := results + [r];
      }
    }

    /** Starts that threw make a poll stuck exactly when there were as many of them as messages beyond one for each full batch. */
    lemma StuckIff(starts: nat)
      requires Waiting() && |messages| % messageBatchSize != 0 && |batchHashes| == 1 + |messages| / messageBatchSize + starts
      ensures Stuck() <==> starts >= |messages| - |messages| / messageBatchSize
      ensures |messages| - |messages| / messageBatchSize >= 1
    {
      hide HashesOk;
      LastBatch(|messages|, messageBatchSize);
    }

    ghost function ReplayFrom(st: Voters, from: nat): Voters
      reads `log
    {
      if VotersOk(cfg, st) && from <= |log| then Replay(cfg, st, log[from..]) else st
    }

    /**
     Processes everything that is left, batch by batch, and returns the leaves and ballots as they were before.
     Fails where the first call of processMessages throws. The ghost results are the run: its states and its outputs.
     */
    method ProcessAllMessages(pollId: int, paddings: nat -> Published, draws: nat -> seq<int>)
      returns (r: Result<(seq<StateLeaf>, seq<Ballot>)>, ghost states: seq<Voters>, ghost outs: seq<BatchInputs>)
      requires Static() && LogOk() && (stateCopied ==> Ready()) && forall i :: HasOther(draws(i), 0)
      modifies maciStateRef`pollBeingProcessed, maciStateRef`currentPollBeingProcessed
      modifies `batchHashes, `currentMessageBatchIndex, `sbSalts, `totalBatchesProcessed, `pollStateLeaves, `ballots
      modifies pollStateTree, ballotTree
      ensures LogOk() && (stateCopied ==> Ready()) && (r.Success? <==> old(!HasUnprocessedMessages() || CanProcess(pollId)))
      ensures r.Failure? && old(HasUnprocessedMessages()) && old(totalBatchesProcessed) == 0 ==>
        totalBatchesProcessed == 0 && (Publishing() <==> |messages| % messageBatchSize == 0)
      ensures r.Success? ==> r.value == (old(pollStateLeaves), old(ballots)) && !HasUnprocessedMessages()
      ensures r.Success? && old(HasUnprocessedMessages()) ==>
        && Underway(pollId, old(totalBatchesProcessed), old(UpcomingBatch()), old(St()), paddings, states, outs)
        && totalBatchesProcessed == NumBatches(|messages|, messageBatchSize) && !maciStateRef.pollBeingProcessed
      ensures r.Success? && old(HasUnprocessedMessages()) && old(totalBatchesProcessed) == 0 ==>
        St() == ReplayFrom(old(St()), old(Skipped()))
    {
      hide Ready, HashesOk, Run, ReplayFrom, HasUnprocessedMessages;
      r, states, outs := Success((pollStateLeaves, ballots)), [St()], [];
      ghost var st, k, first, skipped := St(), UpcomingBatch(), totalBatchesProcessed, if totalBatchesProcessed == 0 then Skipped() else 0;
      if !HasUnprocessedMessages() {
        return;
      }
      if !CanProcess(pollId) {
        var error := ThrowingCall(pollId, paddings(UpcomingBatch()), draws(UpcomingBatch()));
        return Failure(error), states, outs;
      }
      StartOfRun(pollId, paddings);
      while HasUnprocessedMessages()
        invariant Underway(pollId, first, k, st, paddings, states, outs) && (outs == [] ==> HasUnprocessedMessages())
        decreases k - |outs|
      {
        states, outs := NextCall(pollId, paddings(UpcomingBatch()), draws(UpcomingBatch()), first, k, st, paddings, states, outs);
      }
      RunOver(pollId, first, k, st, paddings, states, outs);
      if first == 0 {
        FirstRunOver(pollId, k, st, paddings, states, outs);
        assert BatchEnd(|messages|, messageBatchSize, k - |outs|) == skipped;
      }
    }

    lemma RunOver(pollId: int, first: nat, k: nat, st: Voters, paddings: nat -> Published, states: seq<Voters>, outs: seq<BatchInputs>)
      requires Underway(pollId, first, k, st, paddings, states, outs) && !HasUnprocessedMessages() && outs != []
      ensures totalBatchesProcessed == NumBatches(|messages|, messageBatchSize) && !maciStateRef.pollBeingProcessed
    {
      hide Ready, HashesOk, Run;
      UnprocessedIff();
      LastBatch(|messages|, messageBatchSize);
    }

    /** A first run has processed the log from the end of the batches below the last one processed. */
    lemma FirstRunOver(pollId: int, k: nat, st: Voters, paddings: nat -> Published, states: seq<Voters>, outs: seq<BatchInputs>)
      requires Underway(pollId, 0, k, st, paddings, states, outs) && k >= NumBatches(|messages|, messageBatchSize)
      ensures |outs| <= k && St() == ReplayFrom(st, BatchEnd(|messages|, messageBatchSize, k - |outs|))
    {
      hide Ready, BatchDone, Replay, NumBatches, BatchEnd, Chain;
      var n, b := |messages|, messageBatchSize;
      assert |log| == n;
      RunIsReplay(cfg, D(), log, b, k, paddings, states, outs, |outs|);
      LastBatch(n, b);
      BatchEndMonotonic(n, b, NumBatches(n, b), k);
      assert log[BatchEnd(n, b, k - |outs|)..n] == log[BatchEnd(n, b, k - |outs|)..];
    }

    /** The last commitment of a run is the one tallyVotes recomputes from the stored salt. */
    lemma LastCommitment(pollId: int, first: nat, k: nat, st: Voters, paddings: nat -> Published, states: seq<Voters>,
                         outs: seq<BatchInputs>)
      requires Underway(pollId, first, k, st, paddings, states, outs) && |outs| > 0
      ensures currentMessageBatchIndex in sbSalts
      ensures outs[|outs| - 1].newSbCommitment == SbCommitment(cfg, D(), St(), sbSalts[currentMessageBatchIndex])
    {
      hide Ready, HashesOk, VotersOk, PartialInputsOk, BatchSlots;
      ghost var t := |outs| - 1;
      assert BatchDone(cfg, D(), states[t], log, messageBatchSize, k - t, paddings(k - t), outs[t], states[t + 1]);
    }

    // ----- tallying

    predicate HasUntalliedBallots()
      reads `numBatchesTallied, `ballots
    {
      numBatchesTallied * tallyBatchSize < |ballots|
    }

    ghost function RunningTotals(): Totals
      reads `tallyResult, `perVoteOptionSpentVoiceCredits, `totalSpentVoiceCredits
    {
      Totals(tallyResult, perVoteOptionSpentVoiceCredits, totalSpentVoiceCredits)
    }

    ghost predicate BallotsFit()
      reads `ballots
    {
      forall i :: 0 <= i < |ballots| ==> BallotOk(cfg, ballots[i])
    }

    /** Some totals are those of the first `done` ballots. */
    ghost predicate TotalsOf(x: Totals, done: nat)
      reads `ballots
    {
      && BallotsFit() && done <= |ballots| && |x.results| == |x.perOption| == cfg.maxVoteOptions
      && (forall j :: 0 <= j < cfg.maxVoteOptions ==> x.results[j] == Column(ballots[..done], j))
      && (forall j :: 0 <= j < cfg.maxVoteOptions ==> x.perOption[j] == if cfg.mode == QV then ColumnCost(QV, ballots[..done], j) else 0)
      && x.spent == TotalCost(cfg.mode, ballots[..done])
    }

    ghost predicate TotalsAre(done: nat)
      reads `pollStateLeaves, `ballots, `voteCounts, `tallyResult, `perVoteOptionSpentVoiceCredits, `totalSpentVoiceCredits
    {
      ArraysOk() && TotalsOf(RunningTotals(), done)
    }

    /** The running totals are some earlier ones and those of the ballots from `start` up to `done`. */
    ghost predicate Added(x: Totals, start: nat, done: nat)
      reads `ballots, `tallyResult, `perVoteOptionSpentVoiceCredits, `totalSpentVoiceCredits
    {
      && BallotsFit() && start <= done <= |ballots| && |x.results| == |x.perOption| == cfg.maxVoteOptions
      && |tallyResult| == |perVoteOptionSpentVoiceCredits| == cfg.maxVoteOptions
      && (forall j :: 0 <= j < cfg.maxVoteOptions ==>
            tallyResult[j] == x.results[j] + Column(ballots[..done], j) - Column(ballots[..start], j))
      && (forall j :: 0 <= j < cfg.maxVoteOptions ==>
            perVoteOptionSpentVoiceCredits[j] == x.perOption[j]
              + if cfg.mode == QV then ColumnCost(QV, ballots[..done], j) - ColumnCost(QV, ballots[..start], j) else 0)
      && totalSpentVoiceCredits == x.spent + TotalCost(cfg.mode, ballots[..done]) - TotalCost(cfg.mode, ballots[..start])
    }

    /** The first `done` vote counts have been counted, once each. */
    ghost predicate CountsOf(counts: seq<VoteCounts>, done: nat)
      reads `pollStateLeaves, `ballots, `voteCounts
    {
      && ArraysOk() && |counts| == |ballots|
      && forall i :: 0 <= i < |counts| ==> counts[i] == if i < done then Counted(cfg, ballots[i]) else BlankCountsOf(cfg)
    }

    ghost predicate CountsAre(done: nat)
      reads `pollStateLeaves, `ballots, `voteCounts
    {
      CountsOf(voteCounts, done)
    }

    /** The counts are some earlier ones, with the ballots from `start` up to `done` added once. */
    ghost predicate CountsAdded(counts: seq<VoteCounts>, start: nat, done: nat)
      reads `pollStateLeaves, `ballots, `voteCounts
    {
      && ArraysOk() && |counts| == |ballots| && (forall i :: 0 <= i < |counts| ==> CountsOk(cfg, counts[i]))
      && forall i :: 0 <= i < |counts| ==> voteCounts[i] == if start <= i < done then CountedAlso(counts[i], ballots[i]) else counts[i]
    }

    /** What tallyVotes works on, also after calls that threw. */
    ghost predicate Tallyable()
      reads `pollStateLeaves, `ballots, `voteCounts, `tallyResult, `perVoteOptionSpentVoiceCredits
      reads `numBatchesTallied, `resultRootSalts, `spentVoiceCreditSubtotalSalts, `perVoteOptionSpentVoiceCreditsRootSalts
    {
      ArraysOk() && |tallyResult| == |perVoteOptionSpentVoiceCredits| == cfg.maxVoteOptions && SaltsStored()
    }

    lemma OkIsTallyable()
      requires TallyOk()
      ensures Tallyable()
    {
    }

    lemma NothingAdded(start: nat)
      requires Tallyable() && start <= |ballots|
      ensures Added(RunningTotals(), start, start) && CountsAdded(voteCounts, start, start) && SaltsStored()
    {
    }

    lemma AddedIsTallyable(x: Totals, start: nat, done: nat)
      requires Added(x, start, done) && ArraysOk() && SaltsStored()
      ensures Tallyable()
    {
    }

    /** Added to the totals of the first ballots, the next ones give theirs. */
    lemma AddedToFirst(x: Totals, counts: seq<VoteCounts>, start: nat, done: nat)
      requires Added(x, start, done) && CountsAdded(counts, start, done)
      ensures TotalsOf(x, start) ==> TotalsAre(done)
      ensures CountsOf(counts, start) ==> CountsAre(done)
    {
      if CountsOf(counts, start) {
        forall i | start <= i < done
          ensures CountedAlso(counts[i], ballots[i]) == Counted(cfg, ballots[i])
        {
          assert CountedAlso(counts[i], ballots[i]).counts == Counted(cfg, ballots[i]).counts;
        }
      }
    }

    ghost function Tallied(): nat
      reads `numBatchesTallied, `ballots
    {
      Least(numBatchesTallied * tallyBatchSize, |ballots|)
    }

    /** Before the first batch of ballots. */
    ghost predicate NotTallied()
      reads `voteCounts, `tallyResult, `perVoteOptionSpentVoiceCredits, `totalSpentVoiceCredits, `numBatchesTallied
    {
      && numBatchesTallied == 0 && totalSpentVoiceCredits == 0
      && tallyResult == perVoteOptionSpentVoiceCredits == Zeros(cfg.maxVoteOptions)
      && forall i :: 0 <= i < |voteCounts| ==> voteCounts[i] == BlankCountsOf(cfg)
    }

    lemma NothingTallied()
      requires ArraysOk() && NotTallied()
      ensures TallyOk()
    {
    }

    /** Adds one ballot's votes to the running totals: the inner loop of tallyVotes. */
    method TallyBallot(i: nat, ghost x: Totals, ghost start: nat)
      requires Added(x, start, i) && i < |ballots|
      modifies `tallyResult, `perVoteOptionSpentVoiceCredits, `totalSpentVoiceCredits
      ensures Added(x, start, i + 1)
    {
      hide Column, ColumnCost, TotalCost;
      ghost var results, perOption, total := tallyResult, perVoteOptionSpentVoiceCredits, totalSpentVoiceCredits;
      var ballotVotes := ballots[i].votes;
      for j := 0 to cfg.maxVoteOptions
        invariant |tallyResult| == |perVoteOptionSpentVoiceCredits| == cfg.maxVoteOptions
        invariant forall x :: 0 <= x < cfg.maxVoteOptions ==> tallyResult[x] == results[x] + if x < j then ballotVotes[x] else 0
        invariant forall x :: 0 <= x < cfg.maxVoteOptions ==>
          perVoteOptionSpentVoiceCredits[x] == perOption[x] + if x < j && cfg.mode == QV then Price(QV, ballotVotes[x]) else 0
        invariant totalSpentVoiceCredits == total + Cost(cfg.mode, ballotVotes[..j])
      {
        var votes := ballotVotes[j];
        CostStep(cfg.mode, ballotVotes, j);
        tallyResult := tallyResult[j := tallyResult[j] + votes];
        if cfg.mode == QV {
          perVoteOptionSpentVoiceCredits := perVoteOptionSpentVoiceCredits[j := perVoteOptionSpentVoiceCredits[j] + votes * votes];
          totalSpentVoiceCredits := totalSpentVoiceCredits + votes * votes;
        } else {
          totalSpentVoiceCredits := totalSpentVoiceCredits + votes;
        }
      }
      assert ballotVotes[..cfg.maxVoteOptions] == ballotVotes;
      TotalStep(cfg.mode, ballots, i);
      forall j | 0 <= j < cfg.maxVoteOptions
        ensures Column(ballots[..i + 1], j) == Column(ballots[..i], j) + ballotVotes[j]
        ensures ColumnCost(QV, ballots[..i + 1], j) == ColumnCost(QV, ballots[..i], j) + Price(QV, ballotVotes[j])
      {
        ColumnStep(QV, ballots, cfg.maxVoteOptions, i, j);
      }
    }

    /** Counts the options one ballot votes for, in the array and in the tree. */
    method CountBallot(i: nat, ghost before: seq<VoteCounts>, ghost start: nat)
      requires Valid() && stateCopied && CountsAdded(before, start, i) && start <= i < |ballots|
      modifies `voteCounts, voteCountsTree`nodes, voteCountsTree`root
      ensures Valid() && CountsAdded(before, start, i + 1)
    {
      ghost var hashes := VoteCountsHashes(cfg.h, voteCounts);
      var ballotVotes, counts := ballots[i].votes, voteCounts[i].counts;
      var newVoteCounts := voteCounts[i].(counts := seq(|ballotVotes|, j requires 0 <= j < |ballotVotes| =>
        counts[j] + if ballotVotes[j] != 0 then 1 else 0));
      assert newVoteCounts.counts == CountedAlso(before[i], ballots[i]).counts;
      var hash := VoteCountsHash(cfg.h, newVoteCounts);
      SetLeaf(voteCountsTree, hashes, i, hash);
      voteCounts := voteCounts[i := newVoteCounts];
      assert VoteCountsHashes(cfg.h, voteCounts) == hashes[i := hash];
    }

    /** Recomputes the spent credits of the first ballots from scratch and commits to them. */
    method GenerateSpentVoiceCreditSubtotalCommitment(salt: int, ballotsToCount: nat) returns (commitment: int)
      requires Static() && ArraysOk() && |tallyResult| == cfg.maxVoteOptions
      ensures commitment == cfg.h.LeftRight(TotalCost(cfg.mode, FirstBallots(ballots, ballotsToCount)), salt)
    {
      var subtotal := 0;
      ghost var counted := 0;
      for i := 0 to ballotsToCount
        invariant counted == i <= |ballots| && subtotal == TotalCost(cfg.mode, ballots[..i])
      {
        if |ballots| <= i {
          assert ballots[..i] == ballots;
          break;
        }
        ghost var before := subtotal;
        for j := 0 to |tallyResult|
          invariant subtotal == before + Cost(cfg.mode, ballots[i].votes[..j])
        {
          var vote := ballots[i].votes[j];
          CostStep(cfg.mode, ballots[i].votes, j);
          subtotal := subtotal + if cfg.mode == QV then vote * vote else vote;
        }
        assert ballots[i].votes[..cfg.maxVoteOptions] == ballots[i].votes;
        TotalStep(cfg.mode, ballots, i);
        counted := counted + 1;
      }
      assert ballots[..counted] == FirstBallots(ballots, ballotsToCount);
      commitment := cfg.h.LeftRight(subtotal, salt);
    }

    /** Recomputes the spent credits per option of the first ballots from scratch and commits to them. */
    method GeneratePerVoteOptionSpentVoiceCreditsCommitment(salt: int, ballotsToCount: nat) returns (commitment: int)
      requires Static() && ArraysOk() && |tallyResult| == cfg.maxVoteOptions
      ensures forall i :: 0 <= i < |FirstBallots(ballots, ballotsToCount)| ==>
        |FirstBallots(ballots, ballotsToCount)[i].votes| == cfg.maxVoteOptions
      ensures commitment == TreeCommitment(cfg.h, ColumnCosts(cfg.mode, FirstBallots(ballots, ballotsToCount), cfg.maxVoteOptions),
                                           salt, cfg.voteOptionTreeDepth)
    {
      var leaves := Zeros(|tallyResult|);
      ghost var counted := 0;
      for i := 0 to ballotsToCount
        invariant counted == i <= |ballots| && |leaves| == cfg.maxVoteOptions
        invariant forall x :: 0 <= x < cfg.maxVoteOptions ==> leaves[x] == ColumnCost(cfg.mode, ballots[..i], x)
      {
        if i >= |ballots| {
          assert ballots[..i] == ballots;
          break;
        }
        leaves := AddPrices(leaves, i);
        counted := counted + 1;
      }
      assert ballots[..counted] == FirstBallots(ballots, ballotsToCount);
      assert leaves == ColumnCosts(cfg.mode, FirstBallots(ballots, ballotsToCount), cfg.maxVoteOptions);
      var r := GenerateTreeCommitment(cfg.h, leaves, salt, cfg.voteOptionTreeDepth);
      commitment := r.value;
    }

    /** The inner loop of the recomputation above. */
    method AddPrices(row: seq<int>, i: nat) returns (leaves: seq<int>)
      requires Static() && ArraysOk() && |tallyResult| == |row| == cfg.maxVoteOptions && i < |ballots|
      requires forall x :: 0 <= x < cfg.maxVoteOptions ==> row[x] == ColumnCost(cfg.mode, ballots[..i], x)
      ensures |leaves| == cfg.maxVoteOptions
      ensures forall x :: 0 <= x < cfg.maxVoteOptions ==> leaves[x] == ColumnCost(cfg.mode, ballots[..i + 1], x)
    {
      leaves := row;
      for j := 0 to |tallyResult|
        invariant |leaves| == cfg.maxVoteOptions
        invariant forall x :: 0 <= x < cfg.maxVoteOptions ==>
          leaves[x] == row[x] + if x < j then Price(cfg.mode, ballots[i].votes[x]) else 0
      {
        var vote := ballots[i].votes[j];
        leaves := leaves[j := leaves[j] + if cfg.mode == QV then vote * vote else vote];
      }
      forall x | 0 <= x < cfg.maxVoteOptions
        ensures ColumnCost(cfg.mode, ballots[..i + 1], x) == row[x] + Price(cfg.mode, ballots[i].votes[x])
      {
        ColumnStep(cfg.mode, ballots, cfg.maxVoteOptions, i, x);
      }
    }

    /** A tally commitment: the running results, with the spent credits recomputed over the first `count` ballots. */
    method CommitTotals(salts: TallySalts, count: nat) returns (commitment: int)
      requires Static() && ArraysOk() && |tallyResult| == cfg.maxVoteOptions
      ensures forall i :: 0 <= i < |FirstBallots(ballots, count)| ==> |FirstBallots(ballots, count)[i].votes| == cfg.maxVoteOptions
      ensures TotalsAre(Least(count, |ballots|)) ==> commitment == TallyCommitment(cfg, FirstBallots(ballots, count), salts)
    {
      assert ballots[..Least(count, |ballots|)] == FirstBallots(ballots, count);
      var results := GenerateTreeCommitment(cfg.h, tallyResult, salts.results, cfg.voteOptionTreeDepth);
      var spent := GenerateSpentVoiceCreditSubtotalCommitment(salts.spent, count);
      var perOption := GeneratePerVoteOptionSpentVoiceCreditsCommitment(salts.perOption, count);
      assert TotalsAre(Least(count, |ballots|)) ==> tallyResult == Columns(FirstBallots(ballots, count), cfg.maxVoteOptions);
      commitment := if cfg.mode == QV then cfg.h.hash3([results.value, spent, perOption]) else cfg.h.LeftRight(results.value, spent);
    }

    // ----- one tally batch

    /** The salts stored by the latest tally batch. */
    ghost predicate SaltsStored()
      reads `numBatchesTallied, `resultRootSalts, `spentVoiceCreditSubtotalSalts, `perVoteOptionSpentVoiceCreditsRootSalts
    {
      numBatchesTallied > 0 ==>
        var last := numBatchesTallied * tallyBatchSize - tallyBatchSize;
        last in resultRootSalts && last in spentVoiceCreditSubtotalSalts && last in perVoteOptionSpentVoiceCreditsRootSalts
    }

    function LastSalts(): TallySalts
      requires SaltsStored()
      reads `numBatchesTallied, `resultRootSalts, `spentVoiceCreditSubtotalSalts, `perVoteOptionSpentVoiceCreditsRootSalts
    {
      if numBatchesTallied == 0 then TallySalts(0, 0, 0)
      else
        var last := numBatchesTallied * tallyBatchSize - tallyBatchSize;
        TallySalts(resultRootSalts[last], spentVoiceCreditSubtotalSalts[last], perVoteOptionSpentVoiceCreditsRootSalts[last])
    }

    ghost predicate TallyOk()
      reads `pollStateLeaves, `ballots, `voteCounts, `tallyResult, `perVoteOptionSpentVoiceCredits, `totalSpentVoiceCredits
      reads `numBatchesTallied, `resultRootSalts, `spentVoiceCreditSubtotalSalts, `perVoteOptionSpentVoiceCreditsRootSalts
    {
      TotalsAre(Tallied()) && CountsAre(Tallied()) && SaltsStored()
    }

    /** The loop of tallyVotes over the ballots of one batch. */
    method TallyRange(startIndex: nat, endIndex: nat)
      requires Valid() && stateCopied && Tallyable() && startIndex <= endIndex && startIndex <= |ballots|
      modifies `tallyResult, `perVoteOptionSpentVoiceCredits, `totalSpentVoiceCredits
      modifies `voteCounts, voteCountsTree`nodes, voteCountsTree`root
      ensures Valid() && Tallyable() && Added(old(RunningTotals()), startIndex, Least(endIndex, |ballots|))
      ensures CountsAdded(old(voteCounts), startIndex, Least(endIndex, |ballots|))
      ensures old(TotalsAre(startIndex)) ==> TotalsAre(Least(endIndex, |ballots|))
      ensures old(CountsAre(startIndex)) ==> CountsAre(Least(endIndex, |ballots|))
    {
      hide Valid, ArraysOk, Tallyable, Added, CountsAdded, TotalsOf, SaltsStored;
      ghost var x, before := RunningTotals(), voteCounts;
      ghost var done := startIndex;
      NothingAdded(startIndex);
      for i := startIndex to endIndex
        invariant i <= |ballots| && done == i && Valid() && Added(x, startIndex, i) && CountsAdded(before, startIndex, i)
      {
        if i >= |ballots| {
          break;
        }
        CountBallot(i, before, startIndex);
        TallyBallot(i, x, startIndex);
        done := done + 1;
      }
      AddedToFirst(x, before, startIndex, done);
      ValidIsArraysOk();
      AddedIsTallyable(x, startIndex, done);
    }

    /** The ballots of one batch, filled up with blank ones. */
    method BatchBallots(start: nat) returns (batch: seq<Ballot>)
      requires Static() && start <= |ballots|
      ensures batch == BallotBatch(cfg, ballots, start, tallyBatchSize)
    {
      batch := [];
      for i := start to start + tallyBatchSize
        invariant |batch| == Least(i, |ballots|) - start && forall j :: 0 <= j < |batch| ==> batch[j] == ballots[start + j]
      {
        if i >= |ballots| {
          break;
        }
        batch := batch + [ballots[i]];
      }
      ghost var found := |batch|;
      while |batch| < tallyBatchSize
        invariant found <= |batch| <= tallyBatchSize && found == Least(start + tallyBatchSize, |ballots|) - start
        invariant forall j :: 0 <= j < found ==> batch[j] == ballots[start + j]
        invariant forall j :: found <= j < |batch| ==> batch[j] == BlankBallotOf(cfg)
      {
        batch := batch + [BlankBallotOf(cfg)];
      }
      assert batch == BallotBatch(cfg, ballots, start, tallyBatchSize);
    }

    /** The sizes generateSubrootProof takes: the others throw. */
    predicate SizeFits() { tallyBatchSize % STATE_TREE_ARITY == 0 && tallyBatchSize < Pow(STATE_TREE_ARITY, stateTreeDepth) }

    /** The ballot path of a batch. */
    method BatchPath(start: nat) returns (r: Result<seq<seq<int>>>)
      requires Valid() && stateCopied && start % tallyBatchSize == 0 && start < |ballots|
      ensures ballotTree != null && (r.Success? <==> SizeFits())
      ensures r.Success? ==> PathFits(cfg, stateTreeDepth, tallyBatchSize, start, r.value, ballotTree.root,
                                      BallotBatch(cfg, ballots, start, tallyBatchSize))
    {
      hide Valid, PathFits, SubrootProofOf, PathElements, PathIndices, BallotBatch, ValidRange, Is;
      TreeIsThere();
      StartIsLeaf(start);
      var proof := ballotTree.GenerateSubrootProof(start, start + tallyBatchSize);
      if proof.Failure? {
        return Failure(proof.error);
      }
      PathIsFitting(start, proof.value.pathElements);
      r := Success(proof.value.pathElements);
    }

    lemma TreeIsThere()
      requires Valid() && stateCopied
      ensures ballotTree != null && ballotTree.Valid() && ballotTree.S() == BallotShape(cfg, stateTreeDepth)
    {
    }

    lemma StartIsLeaf(start: nat)
      requires Valid() && stateCopied && start < |ballots| && ballotTree != null
      ensures start < Capacity(ballotTree.S()) == Pow(STATE_TREE_ARITY, stateTreeDepth) == ballotTree.capacity
      ensures ValidRange(ballotTree.S(), start, start + tallyBatchSize) <==> SizeFits()
    {
      hide Consistent, StateTreeOk, CountsTreeOk, BallotOk, CountsOk;
    }

    lemma PathIsFitting(start: nat, path: seq<seq<int>>)
      requires Valid() && stateCopied && start % tallyBatchSize == 0 && start < |ballots| && SizeFits()
      requires ballotTree != null && ballotTree.Valid()
      requires path == PathElements(ballotTree.S(), ballotTree.Leaves(), start)[SubDepthFrom(2, stateTreeDepth, tallyBatchSize, 0)..]
      ensures PathFits(cfg, stateTreeDepth, tallyBatchSize, start, path, ballotTree.root, BallotBatch(cfg, ballots, start, tallyBatchSize))
    {
      hide Valid, PathLeads, BallotBatch, PathElements, SubrootProofOf;
      TreeIsThere();
      forall k: nat | k < stateTreeDepth && Pow(2, k) == tallyBatchSize
        ensures PathLeads(cfg, stateTreeDepth, k, start, path, ballotTree.root, BallotBatch(cfg, ballots, start, tallyBatchSize))
      {
        SubDepthOfPower(2, stateTreeDepth, k, 0);
        BatchProofLeads(start, k);
      }
      if forall k: nat :: k < stateTreeDepth ==> Pow(2, k) != tallyBatchSize {
        assert |PathElements(ballotTree.S(), ballotTree.Leaves(), start)| == stateTreeDepth;
      }
    }

    /** The path of a batch of 2^k ballots leads from the padded batch to the ballot root. */
    lemma BatchProofLeads(start: nat, k: nat)
      requires Valid() && stateCopied && tallyBatchSize == Pow(2, k) && k < stateTreeDepth
      requires start % tallyBatchSize == 0 && start < |ballots|
      ensures ballotTree != null && ballotTree.Valid() && start + tallyBatchSize <= ballotTree.capacity
      ensures PathLeads(cfg, stateTreeDepth, k, start, PathElements(ballotTree.S(), ballotTree.Leaves(), start)[k..],
                        ballotTree.root, BallotBatch(cfg, ballots, start, tallyBatchSize))
    {
      hide Consistent, Climb, PathElements, PathIndices, NodeAt, StateTreeOk, CountsTreeOk, BallotOk, CountsOk;
      ghost var s, leaves := BallotShape(cfg, stateTreeDepth), ballotTree.Leaves();
      AlignedSubrootProof(s, leaves, k, start);
      SubDepthOfPower(2, stateTreeDepth, k, 0);
      BatchIsSlice(start);
      ballotTree.RootIsRoot();
    }

    /** The leaves of the ballot tree from `start` on are the hashes of the batch, absent ballots hashing like blank ones. */
    lemma BatchIsSlice(start: nat)
      requires Valid() && stateCopied && start + tallyBatchSize <= |ballotTree.Leaves()|
      ensures BallotHashes(cfg, BallotBatch(cfg, ballots, start, tallyBatchSize)) == ballotTree.Leaves()[start..start + tallyBatchSize]
    {
      hide Consistent, StateTreeOk, CountsTreeOk, BallotOk, CountsOk;
      ghost var s, leaves, hashes := BallotShape(cfg, stateTreeDepth), ballotTree.Leaves(), BallotHashes(cfg, ballots);
      ghost var batch := BallotHashes(cfg, BallotBatch(cfg, ballots, start, tallyBatchSize));
      forall i | 0 <= i < tallyBatchSize
        ensures batch[i] == leaves[start..start + tallyBatchSize][i]
      {
        assert leaves[start + i] == LeafAt(s, hashes, start + i);
      }
    }

    /** The inputs of one tally batch: its totals and commitments, its path, and the roots and salt processing left. */
    ghost predicate BatchTallied(start: nat, out: TallyInputs)
      reads `pollStateLeaves, `ballots, `actualStateTreeDepth, `currentMessageBatchIndex, `sbSalts
    {
      && TallyDone(cfg, ballots, start, tallyBatchSize, out)
      && PathFits(cfg, stateTreeDepth, tallyBatchSize, start, out.ballotPathElements, out.ballotRoot, out.ballots)
      && out.stateRoot == StateRoot(cfg, D(), St()) && out.ballotRoot == BallotRoot(cfg, D(), St())
      && currentMessageBatchIndex in sbSalts && out.sbSalt == sbSalts[currentMessageBatchIndex]
      && out.sbCommitment == SbCommitment(cfg, D(), St(), out.sbSalt)
    }

    /**
     Tallies the next batch of ballots. The new salts are random in the source. A call fails before changing anything
     when no batch of messages was ever started or when every ballot has been tallied. With a batch size no subroot proof
     takes it fails after the totals and counts went on over the batch, which is not recorded as tallied, so the next call
     adds the same ballots again.
     */
    method TallyVotes(newSalts: TallySalts) returns (r: Result<TallyInputs>)
      requires Valid() && stateCopied && Tallyable()
      modifies `tallyResult, `perVoteOptionSpentVoiceCredits, `totalSpentVoiceCredits, `numBatchesTallied
      modifies `resultRootSalts, `spentVoiceCreditSubtotalSalts, `perVoteOptionSpentVoiceCreditsRootSalts
      modifies `voteCounts, voteCountsTree`nodes, voteCountsTree`root
      ensures Valid() && Tallyable() && (r.Success? <==> old(MayTally()) && SizeFits())
      ensures !old(MayTally()) ==> unchanged(this)
      ensures old(MayTally()) ==>
        && Added(old(RunningTotals()), old(Tallied()), Least(old(Tallied()) + tallyBatchSize, |ballots|))
        && CountsAdded(old(voteCounts), old(Tallied()), Least(old(Tallied()) + tallyBatchSize, |ballots|))
      ensures numBatchesTallied == old(numBatchesTallied) + if r.Success? then 1 else 0
      ensures r.Success? ==> r.value.currentSalts == old(LastSalts()) && r.value.newSalts == newSalts == LastSalts()
      ensures r.Success? && old(TallyOk()) ==> TallyOk() && BatchTallied(old(Tallied()), r.value)
      ensures r.Success? ==> old(Tallied()) == old(numBatchesTallied) * tallyBatchSize
    {
      hide Valid, ArraysOk, Added, CountsAdded, TotalsAre, CountsAre, Tallied, TallyDone, PathFits, StateRoot, BallotRoot;
      if currentMessageBatchIndex !in sbSalts {
        return Failure("you must process the messages first");
      }
      if !HasUntalliedBallots() {
        return Failure("no more ballots to tally");
      }
      var batchStartIndex := numBatchesTallied * tallyBatchSize;
      var currentSalts := LastSalts();
      var sbSalt := sbSalts[currentMessageBatchIndex];
      StartIsTallied(batchStartIndex);
      r := TallyBatch(batchStartIndex, currentSalts, newSalts, sbSalt);
    }

    predicate MayTally()
      reads `numBatchesTallied, `ballots, `currentMessageBatchIndex, `sbSalts
    {
      currentMessageBatchIndex in sbSalts && HasUntalliedBallots()
    }

    lemma StartIsTallied(start: nat)
      requires start == numBatchesTallied * tallyBatchSize && HasUntalliedBallots()
      ensures Tallied() == start
    {
    }

    /** The inputs of a batch as tallyVotes assembles them from its salts. */
    ghost predicate BatchShown(start: nat, currentSalts: TallySalts, newSalts: TallySalts, sbSalt: int, out: TallyInputs)
      reads `pollStateLeaves, `ballots, `actualStateTreeDepth
    {
      && TallyDone(cfg, ballots, start, tallyBatchSize, out)
      && PathFits(cfg, stateTreeDepth, tallyBatchSize, start, out.ballotPathElements, out.ballotRoot, out.ballots)
      && out.index == start && out.currentSalts == currentSalts && out.newSalts == newSalts
      && out.stateRoot == StateRoot(cfg, D(), St()) && out.ballotRoot == BallotRoot(cfg, D(), St())
      && out.sbSalt == sbSalt && out.sbCommitment == SbCommitment(cfg, D(), St(), sbSalt)
    }

    /** The part of tallyVotes after its guards. */
    method TallyBatch(start: nat, currentSalts: TallySalts, newSalts: TallySalts, sbSalt: int) returns (r: Result<TallyInputs>)
      requires Valid() && stateCopied && Tallyable() && start == numBatchesTallied * tallyBatchSize < |ballots|
      modifies `tallyResult, `perVoteOptionSpentVoiceCredits, `totalSpentVoiceCredits, `numBatchesTallied
      modifies `resultRootSalts, `spentVoiceCreditSubtotalSalts, `perVoteOptionSpentVoiceCreditsRootSalts
      modifies `voteCounts, voteCountsTree`nodes, voteCountsTree`root
      ensures Valid() && Tallyable() && (r.Success? <==> SizeFits())
      ensures Added(old(RunningTotals()), start, Least(start + tallyBatchSize, |ballots|))
      ensures CountsAdded(old(voteCounts), start, Least(start + tallyBatchSize, |ballots|))
      ensures numBatchesTallied == old(numBatchesTallied) + if r.Success? then 1 else 0
      ensures r.Success? ==> LastSalts() == newSalts == r.value.newSalts && r.value.currentSalts == currentSalts
      ensures r.Success? && old(TallyOk()) ==> TallyOk() && BatchShown(start, currentSalts, newSalts, sbSalt, r.value)
    {
      hide Valid, ArraysOk, Added, CountsAdded, TotalsAre, CountsAre, BatchShown, SaltsStored, SaltsAre, Tallied, LastSalts;
      ValidIsStatic();
      StartsAligned(numBatchesTallied, tallyBatchSize);
      StartIsTallied(start);
      StoreSalts(start, newSalts);
      r := TallyOutputs(start, currentSalts, newSalts, sbSalt);
      if r.Success? {
        numBatchesTallied := numBatchesTallied + 1;
        BatchCounted(start, newSalts);
      }
    }

    ghost predicate SaltsAre(start: nat, salts: TallySalts)
      reads `resultRootSalts, `spentVoiceCreditSubtotalSalts, `perVoteOptionSpentVoiceCreditsRootSalts
    {
      && start in resultRootSalts && resultRootSalts[start] == salts.results
      && start in spentVoiceCreditSubtotalSalts && spentVoiceCreditSubtotalSalts[start] == salts.spent
      && start in perVoteOptionSpentVoiceCreditsRootSalts && perVoteOptionSpentVoiceCreditsRootSalts[start] == salts.perOption
    }

    method StoreSalts(start: nat, salts: TallySalts)
      modifies `resultRootSalts, `spentVoiceCreditSubtotalSalts, `perVoteOptionSpentVoiceCreditsRootSalts
      ensures SaltsAre(start, salts) && (old(SaltsStored()) ==> SaltsStored())
    {
      resultRootSalts := resultRootSalts[start := salts.results];
      perVoteOptionSpentVoiceCreditsRootSalts := perVoteOptionSpentVoiceCreditsRootSalts[start := salts.perOption];
      spentVoiceCreditSubtotalSalts := spentVoiceCreditSubtotalSalts[start := salts.spent];
    }

    /** Once a batch is recorded its salts are the latest. */
    lemma BatchCounted(start: nat, salts: TallySalts)
      requires SaltsAre(start, salts) && numBatchesTallied >= 1 && start + tallyBatchSize == numBatchesTallied * tallyBatchSize
      ensures SaltsStored() && LastSalts() == salts && Tallied() == Least(start + tallyBatchSize, |ballots|)
    {
    }

    /** The totals before a batch, and the commitments to those before and after it. */
    ghost predicate StepShown(start: nat, currentSalts: TallySalts, newSalts: TallySalts, before: Totals, current: int, next: int)
      reads `ballots
    {
      && TotalsOf(before, start)
      && current == (if start == 0 then 0 else TallyCommitment(cfg, FirstBallots(ballots, start), currentSalts))
      && next == TallyCommitment(cfg, FirstBallots(ballots, start + tallyBatchSize), newSalts)
    }

    /** Advances the totals over one batch. */
    method AdvanceTotals(start: nat, currentSalts: TallySalts, newSalts: TallySalts) returns (before: Totals, current: int, next: int)
      requires Valid() && stateCopied && Tallyable() && start < |ballots|
      modifies `tallyResult, `perVoteOptionSpentVoiceCredits, `totalSpentVoiceCredits
      modifies `voteCounts, voteCountsTree`nodes, voteCountsTree`root
      ensures Valid() && Tallyable()
      ensures Added(old(RunningTotals()), start, Least(start + tallyBatchSize, |ballots|))
      ensures CountsAdded(old(voteCounts), start, Least(start + tallyBatchSize, |ballots|))
      ensures old(TotalsAre(start)) ==> TotalsAre(Least(start + tallyBatchSize, |ballots|))
      ensures old(CountsAre(start)) ==> CountsAre(Least(start + tallyBatchSize, |ballots|))
      ensures old(TotalsAre(start)) ==> StepShown(start, currentSalts, newSalts, before, current, next)
    {
      hide Valid, TallyCommitment, TotalsOf, Added, CountsAre, CountsAdded, BallotOk, CountsOk, FirstBallots;
      ValidIsArraysOk();
      current := CommitTotals(currentSalts, start);
      if start == 0 {
        current := 0;
      }
      before := Totals(tallyResult, perVoteOptionSpentVoiceCredits, totalSpentVoiceCredits);
      TallyRange(start, start + tallyBatchSize);
      next := CommitTotals(newSalts, start + tallyBatchSize);
    }

    /** Advances the totals over one batch and assembles its inputs. */
    method TallyOutputs(start: nat, currentSalts: TallySalts, newSalts: TallySalts, sbSalt: int) returns (r: Result<TallyInputs>)
      requires Valid() && stateCopied && Tallyable() && start < |ballots| && start % tallyBatchSize == 0
      modifies `tallyResult, `perVoteOptionSpentVoiceCredits, `totalSpentVoiceCredits
      modifies `voteCounts, voteCountsTree`nodes, voteCountsTree`root
      ensures Valid() && Tallyable() && (r.Success? <==> SizeFits())
      ensures Added(old(RunningTotals()), start, Least(start + tallyBatchSize, |ballots|))
      ensures CountsAdded(old(voteCounts), start, Least(start + tallyBatchSize, |ballots|))
      ensures r.Success? ==> r.value.currentSalts == currentSalts && r.value.newSalts == newSalts
      ensures old(TotalsAre(start)) ==> TotalsAre(Least(start + tallyBatchSize, |ballots|))
      ensures old(CountsAre(start)) ==> CountsAre(Least(start + tallyBatchSize, |ballots|))
      ensures r.Success? && old(TotalsAre(start)) ==> BatchShown(start, currentSalts, newSalts, sbSalt, r.value)
    {
      hide Valid, ArraysOk, TotalsAre, CountsAre, Added, CountsAdded, PathFits, BallotBatch, StateRoot, BallotRoot, StepShown, BatchShown;
      hide Tallyable, RunningTotals;
      ValidIsStatic();
      var before, current, next := AdvanceTotals(start, currentSalts, newSalts);
      var batch := BatchBallots(start);
      var path := BatchPath(start);
      if path.Failure? {
        return Failure(path.error);
      }
      var stateRoot, ballotRoot := Roots();
      var out := TallyInputs(stateRoot, ballotRoot, sbSalt, start, cfg.h.hash3([stateRoot, ballotRoot, sbSalt]), current, next,
                             batch, path.value, before.results, before.spent, before.perOption, currentSalts, newSalts);
      if StepShown(start, currentSalts, newSalts, before, current, next) {
        StepIsShown(start, before, sbSalt, out);
      }
      r := Success(out);
    }

    lemma StepIsShown(start: nat, before: Totals, sbSalt: int, out: TallyInputs)
      requires StepShown(start, out.currentSalts, out.newSalts, before, out.currentTallyCommitment, out.newTallyCommitment)
      requires out.index == start && out.ballots == BallotBatch(cfg, ballots, start, tallyBatchSize) && out.sbSalt == sbSalt
      requires out.sbCommitment == cfg.h.hash3([out.stateRoot, out.ballotRoot, out.sbSalt])
      requires Totals(out.currentResults, out.currentPerVoteOptionSpentVoiceCredits, out.currentSpentVoiceCreditSubtotal) == before
      requires out.stateRoot == StateRoot(cfg, D(), St()) && out.ballotRoot == BallotRoot(cfg, D(), St())
      requires PathFits(cfg, stateTreeDepth, tallyBatchSize, start, out.ballotPathElements, out.ballotRoot, out.ballots)
      ensures BatchShown(start, out.currentSalts, out.newSalts, sbSalt, out)
    {
      hide PathFits, StateRoot, BallotRoot, TallyCommitment, BallotBatch, Column, ColumnCost, TotalCost;
      TotalsOfAreColumns(before, start);
    }

    lemma TotalsOfAreColumns(x: Totals, start: nat)
      requires TotalsOf(x, start)
      ensures forall i :: 0 <= i < |ballots| ==> |ballots[i].votes| == cfg.maxVoteOptions
      ensures FirstBallots(ballots, start) == ballots[..start]
      ensures x.results == Columns(FirstBallots(ballots, start), cfg.maxVoteOptions)
      ensures x.spent == TotalCost(cfg.mode, FirstBallots(ballots, start))
      ensures cfg.mode == QV ==> x.perOption == ColumnCosts(QV, FirstBallots(ballots, start), cfg.maxVoteOptions)
    {
      assert start == |ballots| ==> ballots[..start] == ballots;
      assert x.results == Columns(ballots[..start], cfg.maxVoteOptions);
      assert cfg.mode == QV ==> x.perOption == ColumnCosts(QV, ballots[..start], cfg.maxVoteOptions);
    }

    method Roots() returns (stateRoot: int, ballotRoot: int)
      requires Valid() && stateCopied
      ensures stateRoot == pollStateTree.root == StateRoot(cfg, D(), St())
      ensures ballotRoot == ballotTree.root == BallotRoot(cfg, D(), St())
    {
      HoldsRoot(pollStateTree, StateHashes(cfg, pollStateLeaves));
      HoldsRoot(ballotTree, BallotHashes(cfg, ballots));
      stateRoot, ballotRoot := pollStateTree.root, ballotTree.root;
    }

    lemma StartsAligned(t: nat, size: nat)
      requires size >= 1
      ensures t * size % size == 0 && (t + 1) * size == t * size + size
    {
      DivDigit(t, 0, size);
      assert (t + 1) * size == t * size + size;
    }

    // ----- a finished tally

    /** Once no ballot is left, for every batch size, the results are the column sums over all the ballots. */
    lemma FinishedTally()
      requires Static() && TallyOk() && !HasUntalliedBallots()
      ensures forall j :: 0 <= j < cfg.maxVoteOptions ==> |tallyResult| > j && tallyResult[j] == Column(ballots, j)
      ensures forall i :: 0 <= i < |ballots| ==> |ballots[i].votes| == |voteCounts[i].counts| == cfg.maxVoteOptions
      ensures forall j :: 0 <= j < cfg.maxVoteOptions ==> CountColumn(voteCounts, j) == |VotingFor(ballots, j)|
      ensures totalSpentVoiceCredits == TotalCost(cfg.mode, ballots)
      ensures cfg.mode == QV ==> perVoteOptionSpentVoiceCredits == ColumnCosts(QV, ballots, cfg.maxVoteOptions)
      ensures cfg.mode == QV ==> Sum(perVoteOptionSpentVoiceCredits) == totalSpentVoiceCredits
      ensures cfg.mode != QV ==> Sum(tallyResult) == totalSpentVoiceCredits
    {
      assert ballots[..|ballots|] == ballots;
      forall j: nat | j < cfg.maxVoteOptions
        ensures CountColumn(voteCounts, j) == |VotingFor(ballots, j)|
      {
        CountsCountVoters(cfg, ballots, voteCounts, j);
      }
      RowsAndColumns(cfg.mode, ballots, cfg.maxVoteOptions);
      if cfg.mode == QV {
        assert perVoteOptionSpentVoiceCredits == ColumnCosts(QV, ballots, cfg.maxVoteOptions);
      } else {
        VotesAreTheirPrice(cfg.mode, ballots, cfg.maxVoteOptions);
        assert tallyResult == ColumnCosts(cfg.mode, ballots, cfg.maxVoteOptions);
      }
    }

    /** In QV and NON_QV the tallied total and the remaining balances add up to everything that was joined with. */
    lemma TallyConservesCredits(st: Voters)
      requires Static() && TallyOk() && !HasUntalliedBallots() && cfg.mode != FULL
      requires VotersOk(cfg, st) && Joined(cfg, st) && St() == Replay(cfg, st, log)
      ensures totalSpentVoiceCredits + Balances(pollStateLeaves) == Balances(st.leaves)
    {
      FinishedTally();
      PollConservesCredits(cfg, st, log);
    }
  }
}
