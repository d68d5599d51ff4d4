/**
 What the published commitments commit to, for hashes that are injective on lists of one length: the state commitment fixes
 every key, balance, nonce and vote, and the tally commitment opens exactly to the totals it was made for.
 */
module Commitments {
  import opened Powers
  import opened Merkle
  import opened DomainObjects
  import opened Results
  import opened Voting
  import opened Witnesses
  import opened BatchRuns
  import opened TallySpec

  ghost predicate AllInjective(h: Hashes) {
    Injective(h.hash2) && Injective(h.hash3) && Injective(h.hash5)
  }

  lemma PairBinds(h: Hashes, a: int, b: int, c: int, d: int)
    requires Injective(h.hash2)
    ensures h.LeftRight(a, b) == h.LeftRight(c, d) <==> a == c && b == d
  {
    if h.LeftRight(a, b) == h.LeftRight(c, d) {
      assert [a, b] == [c, d];
      assert [a, b][0] == [c, d][0] && [a, b][1] == [c, d][1];
    }
  }

  lemma TripleBinds(h: Hashes, a: int, b: int, c: int, x: int, y: int, z: int)
    requires Injective(h.hash3)
    ensures h.hash3([a, b, c]) == h.hash3([x, y, z]) <==> a == x && b == y && c == z
  {
    if h.hash3([a, b, c]) == h.hash3([x, y, z]) {
      assert [a, b, c] == [x, y, z];
      assert [a, b, c][0] == [x, y, z][0] && [a, b, c][1] == [x, y, z][1] && [a, b, c][2] == [x, y, z][2];
    }
  }

  // ----- the state

  /** A leaf's hash fixes its key and its balance. */
  lemma LeafHashBinds(h: Hashes, a: StateLeaf, b: StateLeaf)
    requires Injective(h.hash3)
    ensures a.Hash(h) == b.Hash(h) <==> a.publicKey.x == b.publicKey.x && a.publicKey.y == b.publicKey.y
                                        && a.voiceCreditBalance == b.voiceCreditBalance
  {
    TripleBinds(h, a.publicKey.x, a.publicKey.y, a.voiceCreditBalance, b.publicKey.x, b.publicKey.y, b.voiceCreditBalance);
  }

  /** A ballot's hash fixes its nonce and all its votes. */
  lemma BallotHashBinds(cfg: Config, a: Ballot, b: Ballot)
    requires Injective(cfg.h.hash2) && Injective(cfg.h.hash5) && BallotOk(cfg, a) && BallotOk(cfg, b)
    requires cfg.maxVoteOptions <= Pow(5, cfg.voteOptionTreeDepth)
    ensures a.Hash(cfg.h) == b.Hash(cfg.h) <==> a.nonce == b.nonce && a.votes == b.votes
  {
    var s := VoteShape(cfg.h, cfg.voteOptionTreeDepth);
    PairBinds(cfg.h, a.nonce, VoteRoot(cfg.h, cfg.voteOptionTreeDepth, a.votes),
              b.nonce, VoteRoot(cfg.h, cfg.voteOptionTreeDepth, b.votes));
    VoteRootsAgreeIff(cfg.h, cfg.voteOptionTreeDepth, a.votes, b.votes);
    if Padded(s, a.votes) == Padded(s, b.votes) {
      forall j | 0 <= j < cfg.maxVoteOptions
        ensures a.votes[j] == b.votes[j]
      {
        assert Padded(s, a.votes)[j] == Padded(s, b.votes)[j];
      }
    }
  }

  /** A vote count's hash fixes its nonce and all its counts. */
  lemma CountsHashBinds(cfg: Config, a: VoteCounts, b: VoteCounts)
    requires Injective(cfg.h.hash2) && Injective(cfg.h.hash5) && |a.counts| == |b.counts| <= Pow(5, cfg.voteOptionTreeDepth)
    requires a.voteOptionTreeDepth == b.voteOptionTreeDepth == cfg.voteOptionTreeDepth
    ensures a.Hash(cfg.h) == b.Hash(cfg.h) <==> a.nonce == b.nonce && a.counts == b.counts
  {
    BallotHashBinds(cfg.(maxVoteOptions := |a.counts|), Ballot(a.counts, a.nonce, a.voteOptionTreeDepth),
                    Ballot(b.counts, b.nonce, b.voteOptionTreeDepth));
  }

  /** Participant i of the tree, which holds a blank leaf where nobody joined. */
  function LeafOf(st: Voters, i: nat): StateLeaf { if i < |st.leaves| then st.leaves[i] else BLANK_STATE_LEAF }

  function BallotOf(cfg: Config, st: Voters, i: nat): Ballot { if i < |st.ballots| then st.ballots[i] else BlankBallotOf(cfg) }

  /** The same participants and ballots at every index of the trees. */
  ghost predicate SameState(cfg: Config, d: Depths, st: Voters, st': Voters) {
    && (forall i: nat :: i < Pow(2, d.state) ==> LeafOf(st, i) == LeafOf(st', i))
    && forall i: nat :: i < Pow(2, d.ballot) ==> BallotOf(cfg, st, i) == BallotOf(cfg, st', i)
  }

  lemma StateRootBinds(cfg: Config, d: Depths, st: Voters, st': Voters)
    requires AllInjective(cfg.h) && PollOk(cfg, d, st) && PollOk(cfg, d, st')
    ensures StateRoot(cfg, d, st) == StateRoot(cfg, d, st') <==>
            forall i: nat :: i < Pow(2, d.state) ==> LeafOf(st, i) == LeafOf(st', i)
  {
    var s, xs, ys := StateShape(cfg, d.state), StateHashes(cfg, st.leaves), StateHashes(cfg, st'.leaves);
    forall i: nat | i < Pow(2, d.state)
      ensures LeafAt(s, xs, i) == LeafAt(s, ys, i) <==> LeafOf(st, i) == LeafOf(st', i)
    {
      LeafHashBinds(cfg.h, LeafOf(st, i), LeafOf(st', i));
    }
    RootBindsLeaves(s, xs, ys);
  }

  lemma BallotRootBinds(cfg: Config, d: Depths, st: Voters, st': Voters)
    requires AllInjective(cfg.h) && PollOk(cfg, d, st) && PollOk(cfg, d, st')
    ensures BallotRoot(cfg, d, st) == BallotRoot(cfg, d, st') <==>
            forall i: nat :: i < Pow(2, d.ballot) ==> BallotOf(cfg, st, i) == BallotOf(cfg, st', i)
  {
    var s, xs, ys := BallotShape(cfg, d.ballot), BallotHashes(cfg, st.ballots), BallotHashes(cfg, st'.ballots);
    forall i: nat | i < Pow(2, d.ballot)
      ensures LeafAt(s, xs, i) == LeafAt(s, ys, i) <==> BallotOf(cfg, st, i) == BallotOf(cfg, st', i)
    {
      BallotHashBinds(cfg, BallotOf(cfg, st, i), BallotOf(cfg, st', i));
    }
    RootBindsLeaves(s, xs, ys);
  }

  lemma RootBindsLeaves(s: Shape, xs: seq<int>, ys: seq<int>)
    requires s.arity >= 1 && Injective(s.hash)
    ensures Root(s, xs) == Root(s, ys) <==> forall i: nat :: i < Capacity(s) ==> LeafAt(s, xs, i) == LeafAt(s, ys, i)
  {
    if Root(s, xs) == Root(s, ys) {
      forall i: nat | i < Capacity(s)
        ensures LeafAt(s, xs, i) == LeafAt(s, ys, i)
      {
        RootDeterminesLeaves(s, xs, ys, i);
      }
    }
    if forall i: nat :: i < Capacity(s) ==> LeafAt(s, xs, i) == LeafAt(s, ys, i) {
      SameRowSameNodes(s, xs, ys, s.depth, 0);
    }
  }

  /** Two state commitments are the same exactly for the same salt and the same participants and ballots. */
  lemma StateCommitmentBinds(cfg: Config, d: Depths, st: Voters, salt: int, st': Voters, salt': int)
    requires AllInjective(cfg.h) && PollOk(cfg, d, st) && PollOk(cfg, d, st')
    ensures SbCommitment(cfg, d, st, salt) == SbCommitment(cfg, d, st', salt') <==> salt == salt' && SameState(cfg, d, st, st')
  {
    hide StateRoot, BallotRoot, PollOk;
    TripleBinds(cfg.h, StateRoot(cfg, d, st), BallotRoot(cfg, d, st), salt, StateRoot(cfg, d, st'), BallotRoot(cfg, d, st'), salt');
    StateRootBinds(cfg, d, st, st');
    BallotRootBinds(cfg, d, st, st');
  }

  // ----- the tally

  /** Some values are these ones, padded with zeros to the leaves of the vote option tree. */
  ghost predicate SamePadded(cfg: Config, xs: seq<int>, ys: seq<int>) {
    forall j: nat :: j < Pow(5, cfg.voteOptionTreeDepth) ==> (if j < |xs| then xs[j] else 0) == (if j < |ys| then ys[j] else 0)
  }

  /** These are the totals of the ballots. */
  ghost predicate AreTotals(cfg: Config, ballots: seq<Ballot>, results: seq<int>, spent: int, perOption: seq<int>)
    requires forall i :: 0 <= i < |ballots| ==> |ballots[i].votes| == cfg.maxVoteOptions
  {
    && SamePadded(cfg, results, Columns(ballots, cfg.maxVoteOptions)) && spent == TotalCost(cfg.mode, ballots)
    && (cfg.mode == QV ==> SamePadded(cfg, perOption, ColumnCosts(QV, ballots, cfg.maxVoteOptions)))
  }

  /** Two rows of the vote option tree, salted, have the same commitment exactly if rows and salts are the same. */
  lemma RowCommitmentBinds(cfg: Config, xs: seq<int>, salt: int, ys: seq<int>, salt': int)
    requires Injective(cfg.h.hash2) && Injective(cfg.h.hash5)
    ensures cfg.h.LeftRight(VoteRoot(cfg.h, cfg.voteOptionTreeDepth, xs), salt)
         == cfg.h.LeftRight(VoteRoot(cfg.h, cfg.voteOptionTreeDepth, ys), salt')
       <==> SamePadded(cfg, xs, ys) && salt == salt'
  {
    var s := VoteShape(cfg.h, cfg.voteOptionTreeDepth);
    PairBinds(cfg.h, VoteRoot(cfg.h, cfg.voteOptionTreeDepth, xs), salt, VoteRoot(cfg.h, cfg.voteOptionTreeDepth, ys), salt');
    RootBindsLeaves(s, xs, ys);
    assert forall j: nat :: LeafAt(s, xs, j) == (if j < |xs| then xs[j] else 0);
    assert forall j: nat :: LeafAt(s, ys, j) == (if j < |ys| then ys[j] else 0);
  }

  /** What the contract recomputes from published totals and their salts. */
  function Recomputed(cfg: Config, results: seq<int>, spent: int, perOption: seq<int>, salts: TallySalts): int {
    var x := cfg.h.LeftRight(VoteRoot(cfg.h, cfg.voteOptionTreeDepth, results), salts.results);
    var y := cfg.h.LeftRight(spent, salts.spent);
    var z := cfg.h.LeftRight(VoteRoot(cfg.h, cfg.voteOptionTreeDepth, perOption), salts.perOption);
    if cfg.mode == QV then cfg.h.hash3([x, y, z]) else cfg.h.LeftRight(x, y)
  }

  ghost predicate SameSalts(mode: EMode, a: TallySalts, b: TallySalts) {
    a.results == b.results && a.spent == b.spent && (mode == QV ==> a.perOption == b.perOption)
  }

  lemma TotalsOpen(cfg: Config, ballots: seq<Ballot>, salts: TallySalts, results: seq<int>, spent: int, perOption: seq<int>,
                   shown: TallySalts)
    requires AllInjective(cfg.h) && forall i :: 0 <= i < |ballots| ==> |ballots[i].votes| == cfg.maxVoteOptions
    ensures Recomputed(cfg, results, spent, perOption, shown) == TallyCommitment(cfg, ballots, salts)
       <==> AreTotals(cfg, ballots, results, spent, perOption) && SameSalts(cfg.mode, shown, salts)
  {
    hide VoteRoot, SamePadded;
    var h, depth, n := cfg.h, cfg.voteOptionTreeDepth, cfg.maxVoteOptions;
    var columns, costs := Columns(ballots, n), ColumnCosts(QV, ballots, n);
    RowCommitmentBinds(cfg, results, shown.results, columns, salts.results);
    RowCommitmentBinds(cfg, perOption, shown.perOption, costs, salts.perOption);
    PairBinds(h, spent, shown.spent, TotalCost(cfg.mode, ballots), salts.spent);
    var x, y, z := h.LeftRight(VoteRoot(h, depth, results), shown.results), h.LeftRight(spent, shown.spent),
                   h.LeftRight(VoteRoot(h, depth, perOption), shown.perOption);
    var x', y', z' := h.LeftRight(VoteRoot(h, depth, columns), salts.results), h.LeftRight(TotalCost(cfg.mode, ballots), salts.spent),
                      h.LeftRight(VoteRoot(h, depth, costs), salts.perOption);
    TripleBinds(h, x, y, z, x', y', z');
    PairBinds(h, x, y, x', y');
  }

  /**
   Recomputing a tally batch's new commitment from some totals and salts succeeds exactly if they are the totals of all the
   ballots counted so far and the batch's salts; its current one opens in the same way to the ballots before the batch.
   */
  lemma TallyBatchOpens(cfg: Config, ballots: seq<Ballot>, start: nat, size: nat, out: TallyInputs,
                        results: seq<int>, spent: int, perOption: seq<int>, shown: TallySalts)
    requires AllInjective(cfg.h) && TallyDone(cfg, ballots, start, size, out)
    ensures forall i :: 0 <= i < |ballots| ==> |ballots[i].votes| == cfg.maxVoteOptions
    ensures Recomputed(cfg, results, spent, perOption, shown) == out.newTallyCommitment
       <==> AreTotals(cfg, FirstBallots(ballots, start + size), results, spent, perOption) && SameSalts(cfg.mode, shown, out.newSalts)
    ensures start > 0 ==>
      (Recomputed(cfg, results, spent, perOption, shown) == out.currentTallyCommitment
       <==> AreTotals(cfg, FirstBallots(ballots, start), results, spent, perOption) && SameSalts(cfg.mode, shown, out.currentSalts))
  {
    hide Recomputed, AreTotals, SameSalts;
    TotalsOpen(cfg, FirstBallots(ballots, start + size), out.newSalts, results, spent, perOption, shown);
    TotalsOpen(cfg, FirstBallots(ballots, start), out.currentSalts, results, spent, perOption, shown);
  }
}
