/** packages/domainobjs/ts and packages/crypto/ts/utils.ts: leaves, ballots, vote counts and commitments. */
module DomainObjects {
  import opened Powers
  import opened Merkle
  import opened NodeStore
  import opened QuinTree
  import opened Results

  /** The Poseidon hashes, uninterpreted; hashLeftRight is hash2 of a pair. */
  datatype Hashes = Hashes(hash2: seq<int> -> int, hash3: seq<int> -> int, hash5: seq<int> -> int, hash12: seq<int> -> int) {
    ghost predicate NonZero() {
      (forall xs :: hash2(xs) != 0) && (forall xs :: hash3(xs) != 0) && (forall xs :: hash5(xs) != 0)
    }

    function LeftRight(left: int, right: int): int { hash2([left, right]) }
  }

  datatype PublicKey = PublicKey(x: int, y: int)

  datatype StateLeaf = StateLeaf(publicKey: PublicKey, voiceCreditBalance: int) {
    function Hash(h: Hashes): int { h.hash3([publicKey.x, publicKey.y, voiceCreditBalance]) }
  }

  const VOTE_OPTION_TREE_ARITY: nat := 5
  const STATE_TREE_ARITY: nat := 2

  function VoteShape(h: Hashes, depth: nat): Shape {
    Shape(VOTE_OPTION_TREE_ARITY, depth, 0, h.hash5)
  }

  /** The root of the vote option tree over all the votes, padded with zeros. */
  function VoteRoot(h: Hashes, depth: nat, votes: seq<int>): int {
    Root(VoteShape(h, depth), votes)
  }

  function Zeros(n: nat): (zs: seq<int>)
    ensures |zs| == n && forall i :: 0 <= i < n ==> zs[i] == 0
  {
    seq(n, _ => 0)
  }

  datatype Ballot = Ballot(votes: seq<int>, nonce: int, voteOptionTreeDepth: nat) {
    predicate Fits() { voteOptionTreeDepth >= 1 && |votes| <= Pow(5, voteOptionTreeDepth) }

    /** What hash() must be: the nonce with the root of all the votes, none of them trimmed. */
    function Hash(h: Hashes): int {
      h.LeftRight(nonce, VoteRoot(h, voteOptionTreeDepth, votes))
    }
  }

  datatype VoteCounts = VoteCounts(counts: seq<int>, nonce: int, voteOptionTreeDepth: nat) {
    predicate Fits() { voteOptionTreeDepth >= 1 && |counts| <= Pow(5, voteOptionTreeDepth) }

    function Hash(h: Hashes): int {
      h.LeftRight(nonce, VoteRoot(h, voteOptionTreeDepth, counts))
    }
  }

  function BlankBallot(totalVoteOptions: nat, depth: nat): Ballot {
    Ballot(Zeros(totalVoteOptions), 0, depth)
  }

  function BlankVoteCounts(totalVoteOptions: nat, depth: nat): VoteCounts {
    VoteCounts(Zeros(totalVoteOptions), 0, depth)
  }

  /** A tree holding some values in its first leaves. */
  ghost predicate Holds(tree: IncrementalQuinTree, values: seq<int>)
    reads tree
  {
    tree.Valid() && |values| <= tree.capacity && tree.Leaves() == Padded(tree.S(), values)
  }

  lemma HoldsRoot(tree: IncrementalQuinTree, values: seq<int>)
    requires Holds(tree, values)
    ensures tree.root == Root(tree.S(), values)
  {
    tree.RootIsRoot();
    SameRowSameNodes(tree.S(), tree.Leaves(), values, tree.depth, 0);
  }

  lemma HoldsProof(tree: IncrementalQuinTree, values: seq<int>, i: nat)
    requires Holds(tree, values) && i < tree.capacity
    ensures ProofOf(tree.S(), tree.Leaves(), i) == ProofOf(tree.S(), values, i)
  {
    SameRowSameProof(tree.S(), tree.Leaves(), values, i);
  }

  /** Inserts values one by one into a new tree; fails where an insert would throw. */
  method FilledTree(depth: nat, zeroValue: int, arity: nat, hashFunc: seq<int> -> int, values: seq<int>)
    returns (tree: IncrementalQuinTree, ok: bool)
    requires WellFormed(Shape(arity, depth, zeroValue, hashFunc))
    requires forall i :: 0 <= i < |values| ==> values[i] != 0 || zeroValue == 0
    ensures fresh(tree) && tree.S() == Shape(arity, depth, zeroValue, hashFunc)
    ensures ok <==> |values| <= Pow(arity, depth)
    ensures ok ==> Holds(tree, values) && tree.nextIndex == |values|
  {
    tree := new IncrementalQuinTree(depth, zeroValue, arity, hashFunc);
    ghost var s := tree.S();
    for i := 0 to |values|
      invariant fresh(tree) && tree.Valid() && tree.S() == s && tree.nextIndex == i <= tree.capacity
      invariant tree.Leaves() == Padded(s, values[..i])
    {
      if i < tree.capacity {
        InsertPads(s, values, i, values[i]);
      }
      var inserted := tree.Insert(values[i]);
      if !inserted {
        return tree, false;
      }
    }
    assert values[..|values|] == values;
    ok := true;
  }

  /** One past the last nonzero value: what asArray inserts, the trailing zeros being left to the tree. */
  method TrimmedLength(values: seq<int>) returns (n: nat)
    ensures n <= |values| && (n > 0 ==> values[n - 1] != 0) && forall i :: n <= i < |values| ==> values[i] == 0
  {
    n := |values|;
    while n > 0 && values[n - 1] == 0
      invariant n <= |values| && forall i :: n <= i < |values| ==> values[i] == 0
    {
      n := n - 1;
    }
  }

  /** The root of the tree into which only the values up to the last nonzero one are inserted. */
  method TrimmedRoot(h: Hashes, depth: nat, values: seq<int>) returns (root: int)
    requires h.NonZero() && depth >= 1 && |values| <= Pow(5, depth)
    ensures root == VoteRoot(h, depth, values)
  {
    var n := TrimmedLength(values);
    var tree, _ := FilledTree(depth, 0, VOTE_OPTION_TREE_ARITY, h.hash5, values[..n]);
    HoldsRoot(tree, values[..n]);
    SameLeavesSameNodes(VoteShape(h, depth), values[..n], values, depth, 0);
    root := tree.root;
  }

  method BallotAsArray(h: Hashes, ballot: Ballot) returns (a: seq<int>)
    requires h.NonZero() && ballot.Fits()
    ensures a == [ballot.nonce, VoteRoot(h, ballot.voteOptionTreeDepth, ballot.votes)]
  {
    var root := TrimmedRoot(h, ballot.voteOptionTreeDepth, ballot.votes);
    a := [ballot.nonce, root];
  }

  method BallotHash(h: Hashes, ballot: Ballot) returns (v: int)
    requires h.NonZero() && ballot.Fits()
    ensures v == ballot.Hash(h)
  {
    var vals := BallotAsArray(h, ballot);
    v := h.LeftRight(vals[0], vals[1]);
  }

  method VoteCountsAsArray(h: Hashes, voteCounts: VoteCounts) returns (a: seq<int>)
    requires h.NonZero() && voteCounts.Fits()
    ensures a == [voteCounts.nonce, VoteRoot(h, voteCounts.voteOptionTreeDepth, voteCounts.counts)]
  {
    var root := TrimmedRoot(h, voteCounts.voteOptionTreeDepth, voteCounts.counts);
    a := [voteCounts.nonce, root];
  }

  method VoteCountsHash(h: Hashes, voteCounts: VoteCounts) returns (v: int)
    requires h.NonZero() && voteCounts.Fits()
    ensures v == voteCounts.Hash(h)
  {
    var vals := VoteCountsAsArray(h, voteCounts);
    v := h.LeftRight(vals[0], vals[1]);
  }

  /** Two vote vectors of one tree have the same root exactly when they agree up to trailing zeros. */
  lemma VoteRootsAgreeIff(h: Hashes, depth: nat, xs: seq<int>, ys: seq<int>)
    requires Injective(h.hash5) && |xs| <= Pow(5, depth) && |ys| <= Pow(5, depth)
    ensures VoteRoot(h, depth, xs) == VoteRoot(h, depth, ys)
       <==> Padded(VoteShape(h, depth), xs) == Padded(VoteShape(h, depth), ys)
  {
    var s := VoteShape(h, depth);
    if VoteRoot(h, depth, xs) == VoteRoot(h, depth, ys) {
      forall i | 0 <= i < Capacity(s)
        ensures Padded(s, xs)[i] == Padded(s, ys)[i]
      {
        RootDeterminesLeaves(s, xs, ys, i);
      }
    }
    if Padded(s, xs) == Padded(s, ys) {
      forall i: nat
        ensures LeafAt(s, xs, i) == LeafAt(s, ys, i)
      {
        if i < Capacity(s) {
          assert Padded(s, xs)[i] == Padded(s, ys)[i];
        }
      }
      SameLeavesSameNodes(s, xs, ys, depth, 0);
    }
  }

  function TreeCommitment(h: Hashes, leaves: seq<int>, salt: int, depth: nat): int {
    h.LeftRight(VoteRoot(h, depth, leaves), salt)
  }

  method GenerateTreeCommitment(h: Hashes, leaves: seq<int>, salt: int, depth: nat) returns (r: Result<int>)
    requires h.NonZero() && depth >= 1
    ensures r.Success? <==> |leaves| <= Pow(5, depth)
    ensures r.Success? ==> r.value == TreeCommitment(h, leaves, salt, depth)
  {
    var tree, ok := FilledTree(depth, 0, 5, h.hash5, leaves);
    if !ok {
      return Failure("index out of bounds");
    }
    HoldsRoot(tree, leaves);
    r := Success(h.LeftRight(tree.root, salt));
  }

  method GenerateTreeProof(h: Hashes, index: int, leaves: seq<int>, depth: nat) returns (r: Result<seq<seq<int>>>)
    requires h.NonZero() && depth >= 1
    ensures r.Success? <==> |leaves| <= Pow(5, depth) && 0 <= index < Pow(5, depth)
    ensures r.Success? ==> r.value == PathElements(VoteShape(h, depth), leaves, index)
  {
    var tree, ok := FilledTree(depth, 0, 5, h.hash5, leaves);
    if !ok {
      return Failure("index out of bounds");
    }
    var proof := tree.GenerateProof(index);
    if proof.Failure? {
      return Failure(proof.error);
    }
    HoldsProof(tree, leaves, index);
    assert ProofOf(tree.S(), leaves, index).pathElements == PathElements(VoteShape(h, depth), leaves, index);
    r := Success(proof.value.pathElements);
  }

  /** The least depth >= 1 whose tree holds numLeaves leaves. */
  method CalcDepthFromNumLeaves(hashLength: nat, numLeaves: int) returns (depth: nat)
    requires hashLength >= 2
    ensures depth >= 1 && numLeaves <= Pow(hashLength, depth)
    ensures forall d: nat :: 1 <= d < depth ==> Pow(hashLength, d) < numLeaves
  {
    depth := 1;
    var max := Pow(hashLength, depth);
    while max < numLeaves
      invariant depth >= 1 && max == Pow(hashLength, depth)
      invariant forall d: nat :: 1 <= d < depth ==> Pow(hashLength, d) < numLeaves
      decreases numLeaves - max
    {
      PowStrict(hashLength, depth, depth + 1);
      depth := depth + 1;
      max := Pow(hashLength, depth);
    }
  }
}
