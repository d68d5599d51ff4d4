/** What a tally must come to: column sums, spent credits, and their relation to what was joined with. */
module TallySpec {
  import opened Powers
  import opened Merkle
  import opened DomainObjects
  import opened Results
  import opened Voting
  import opened VotingProperties
  import opened Witnesses

  /** The votes for option j over all ballots. */
  function Column(ballots: seq<Ballot>, j: nat): int
    requires forall i :: 0 <= i < |ballots| ==> j < |ballots[i].votes|
  {
    if ballots == [] then 0
    else Column(ballots[..|ballots| - 1], j) + ballots[|ballots| - 1].votes[j]
  }

  /** The credits spent on option j over all ballots. */
  function ColumnCost(mode: EMode, ballots: seq<Ballot>, j: nat): int
    requires forall i :: 0 <= i < |ballots| ==> j < |ballots[i].votes|
  {
    if ballots == [] then 0
    else ColumnCost(mode, ballots[..|ballots| - 1], j) + Price(mode, ballots[|ballots| - 1].votes[j])
  }

  /** The credits spent over all ballots. */
  function TotalCost(mode: EMode, ballots: seq<Ballot>): int {
    if ballots == [] then 0
    else TotalCost(mode, ballots[..|ballots| - 1]) + Cost(mode, ballots[|ballots| - 1].votes)
  }

  function Sum(xs: seq<int>): int {
    if xs == [] then 0 else Sum(xs[..|xs| - 1]) + xs[|xs| - 1]
  }

  function ColumnCosts(mode: EMode, ballots: seq<Ballot>, n: nat): (r: seq<int>)
    requires forall i :: 0 <= i < |ballots| ==> |ballots[i].votes| == n
    ensures |r| == n && forall j :: 0 <= j < n ==> r[j] == ColumnCost(mode, ballots, j)
  {
    seq(n, j requires 0 <= j < n => ColumnCost(mode, ballots, j))
  }

  lemma {:induction false} SumOfZeros(xs: seq<int>)
    requires forall j :: 0 <= j < |xs| ==> xs[j] == 0
    ensures Sum(xs) == 0
  {
    if xs != [] {
      SumOfZeros(xs[..|xs| - 1]);
    }
  }

  /** Adding the prices of one vote vector to a row of sums adds its cost to the row's sum. */
  lemma {:induction false} SumOfAdded(mode: EMode, row: seq<int>, votes: seq<int>, row': seq<int>)
    requires |row| == |votes| == |row'| && forall j :: 0 <= j < |row| ==> row'[j] == row[j] + Price(mode, votes[j])
    ensures Sum(row') == Sum(row) + Cost(mode, votes)
  {
    if row != [] {
      var n := |row| - 1;
      SumOfAdded(mode, row[..n], votes[..n], row'[..n]);
    }
  }

  /** Summing the spent credits by option or by ballot comes to the same. */
  lemma {:induction false} RowsAndColumns(mode: EMode, ballots: seq<Ballot>, n: nat)
    requires forall i :: 0 <= i < |ballots| ==> |ballots[i].votes| == n
    ensures Sum(ColumnCosts(mode, ballots, n)) == TotalCost(mode, ballots)
  {
    var row' := ColumnCosts(mode, ballots, n);
    if ballots == [] {
      SumOfZeros(row');
    } else {
      var last := |ballots| - 1;
      var row := ColumnCosts(mode, ballots[..last], n);
      RowsAndColumns(mode, ballots[..last], n);
      SumOfAdded(mode, row, ballots[last].votes, row');
    }
  }

  /** Outside QV a vote costs itself. */
  lemma {:induction false} VotesAreTheirPrice(mode: EMode, ballots: seq<Ballot>, n: nat)
    requires mode != QV && forall i :: 0 <= i < |ballots| ==> |ballots[i].votes| == n
    ensures forall j :: 0 <= j < n ==> ColumnCost(mode, ballots, j) == Column(ballots, j)
  {
    if ballots != [] {
      VotesAreTheirPrice(mode, ballots[..|ballots| - 1], n);
    }
  }

  // ----- conservation over the whole poll

  function Balances(leaves: seq<StateLeaf>): int {
    if leaves == [] then 0 else Balances(leaves[..|leaves| - 1]) + leaves[|leaves| - 1].voiceCreditBalance
  }

  /** Nobody has voted and no balance is negative. */
  ghost predicate Joined(cfg: Config, st: Voters) {
    && (forall i :: 0 <= i < |st.leaves| ==> st.leaves[i].voiceCreditBalance >= 0)
    && forall i :: 0 <= i < |st.ballots| ==> st.ballots[i] == BlankBallotOf(cfg)
  }

  lemma {:induction false} SpareBallotsAreFree(mode: EMode, ballots: seq<Ballot>, n: nat)
    requires n <= |ballots| && forall i :: n <= i < |ballots| ==> Cost(mode, ballots[i].votes) == 0
    ensures TotalCost(mode, ballots) == TotalCost(mode, ballots[..n])
    decreases |ballots|
  {
    if n < |ballots| {
      var shorter := ballots[..|ballots| - 1];
      SpareBallotsAreFree(mode, shorter, n);
      assert shorter[..n] == ballots[..n];
    } else {
      assert ballots[..n] == ballots;
    }
  }

  /** Participant by participant holdings add up. */
  lemma {:induction false} HoldingsAddUp(mode: EMode, leaves: seq<StateLeaf>, ballots: seq<Ballot>, start: seq<StateLeaf>)
    requires |leaves| == |ballots| == |start|
    requires forall i :: 0 <= i < |leaves| ==> Holdings(mode, Voter(leaves[i], ballots[i])) == start[i].voiceCreditBalance
    ensures TotalCost(mode, ballots) + Balances(leaves) == Balances(start)
  {
    if leaves != [] {
      var n := |leaves| - 1;
      forall i | 0 <= i < n
        ensures Holdings(mode, Voter(leaves[..n][i], ballots[..n][i])) == start[..n][i].voiceCreditBalance
      {
        assert Holdings(mode, Voter(leaves[i], ballots[i])) == start[i].voiceCreditBalance;
      }
      HoldingsAddUp(mode, leaves[..n], ballots[..n], start[..n]);
      assert Holdings(mode, Voter(leaves[n], ballots[n])) == start[n].voiceCreditBalance;
    }
  }

  lemma VoterConserved(cfg: Config, st: Voters, log: seq<Published>, i: nat)
    requires VotersOk(cfg, st) && Joined(cfg, st) && cfg.mode != FULL && i < |st.leaves|
    ensures Holdings(cfg.mode, Replay(cfg, st, log).At(i)) == st.leaves[i].voiceCreditBalance
    ensures Replay(cfg, st, log).leaves[i].voiceCreditBalance >= 0
  {
    ReplayIsPointwise(cfg, st, log);
    CostOfZeros(cfg.mode, st.ballots[i].votes);
    assert Holdings(cfg.mode, st.At(i)) == st.leaves[i].voiceCreditBalance;
    if i > 0 {
      CreditsAreConserved(cfg, i, st.At(i), log);
      assert Replay(cfg, st, log).At(i) == VoterReplay(cfg, i, st.At(i), log);
    }
  }

  /** In QV and NON_QV all spent credits and all remaining balances add up to what was joined with, for every log. */
  lemma PollConservesCredits(cfg: Config, st: Voters, log: seq<Published>)
    requires VotersOk(cfg, st) && Joined(cfg, st) && cfg.mode != FULL
    ensures TotalCost(cfg.mode, Replay(cfg, st, log).ballots) + Balances(Replay(cfg, st, log).leaves) == Balances(st.leaves)
  {
    var st' := Replay(cfg, st, log);
    var n := |st.leaves|;
    assert n <= |st.ballots| == |st'.ballots|;
    ReplayIsPointwise(cfg, st, log);
    forall i | n <= i < |st'.ballots|
      ensures Cost(cfg.mode, st'.ballots[i].votes) == 0
    {
      assert st'.ballots[i] == st.ballots[i];
      CostOfZeros(cfg.mode, st.ballots[i].votes);
    }
    SpareBallotsAreFree(cfg.mode, st'.ballots, n);
    forall i | 0 <= i < n
      ensures Holdings(cfg.mode, Voter(st'.leaves[i], st'.ballots[..n][i])) == st.leaves[i].voiceCreditBalance
    {
      VoterConserved(cfg, st, log, i);
      assert st'.At(i) == Voter(st'.leaves[i], st'.ballots[i]);
    }
    HoldingsAddUp(cfg.mode, st'.leaves, st'.ballots[..n], st.leaves);
  }

  /** Another ballot in the place of one moves the results by the difference, option by option. */
  lemma {:induction false} ColumnOfUpdate(ballots: seq<Ballot>, i: nat, b: Ballot, j: nat)
    requires i < |ballots| && j < |b.votes| && forall x :: 0 <= x < |ballots| ==> j < |ballots[x].votes|
    ensures Column(ballots[i := b], j) == Column(ballots, j) - ballots[i].votes[j] + b.votes[j]
  {
    var last := |ballots| - 1;
    if i == last {
      assert ballots[i := b][..last] == ballots[..last];
    } else {
      assert ballots[i := b][..last] == ballots[..last][i := b];
      ColumnOfUpdate(ballots[..last], i, b, j);
    }
  }

  /** Outside FULL an accepted message moves the result of the option it votes for, by the change of weight, and of no other. */
  lemma VoteMovesItsOption(cfg: Config, st: Voters, m: Published, j: nat)
    requires VotersOk(cfg, st) && VerdictOn(cfg, st, m).Accepted? && cfg.mode != FULL && j < cfg.maxVoteOptions
    ensures cfg.decrypt(m).Some?
    ensures var cmd := cfg.decrypt(m).value.0;
            && cmd.stateIndex < |st.ballots| && cmd.voteOptionIndex < cfg.maxVoteOptions
            && Column(Apply(cfg, st, m).ballots, j) == Column(st.ballots, j)
                 + if j == cmd.voteOptionIndex then cmd.newVoteWeight - st.ballots[cmd.stateIndex].votes[j] else 0
  {
    AcceptedMessage(cfg, st, m);
    var i, st' := cfg.decrypt(m).value.0.stateIndex, Apply(cfg, st, m);
    assert st'.ballots == st.ballots[i := st'.ballots[i]];
    ColumnOfUpdate(st.ballots, i, st'.ballots[i], j);
  }

  // ----- one ballot at a time

  lemma ColumnStep(mode: EMode, ballots: seq<Ballot>, n: nat, i: nat, j: nat)
    requires i < |ballots| && j < n && forall x :: 0 <= x < |ballots| ==> |ballots[x].votes| == n
    ensures Column(ballots[..i + 1], j) == Column(ballots[..i], j) + ballots[i].votes[j]
    ensures ColumnCost(mode, ballots[..i + 1], j) == ColumnCost(mode, ballots[..i], j) + Price(mode, ballots[i].votes[j])
  {
    assert ballots[..i + 1][..i] == ballots[..i];
  }

  lemma TotalStep(mode: EMode, ballots: seq<Ballot>, i: nat)
    requires i < |ballots|
    ensures TotalCost(mode, ballots[..i + 1]) == TotalCost(mode, ballots[..i]) + Cost(mode, ballots[i].votes)
  {
    assert ballots[..i + 1][..i] == ballots[..i];
  }

  lemma CostStep(mode: EMode, votes: seq<int>, j: nat)
    requires j < |votes|
    ensures Cost(mode, votes[..j + 1]) == Cost(mode, votes[..j]) + Price(mode, votes[j])
  {
    assert votes[..j + 1][..j] == votes[..j];
  }

  /** The column sums of the first ballots. */
  function Columns(ballots: seq<Ballot>, n: nat): (r: seq<int>)
    requires forall i :: 0 <= i < |ballots| ==> |ballots[i].votes| == n
    ensures |r| == n && forall j :: 0 <= j < n ==> r[j] == Column(ballots, j)
  {
    seq(n, j requires 0 <= j < n => Column(ballots, j))
  }

  /** Each option voted for at all counts once. */
  function Counted(cfg: Config, b: Ballot): VoteCounts
    requires |b.votes| == cfg.maxVoteOptions
  {
    VoteCounts(seq(cfg.maxVoteOptions, j requires 0 <= j < cfg.maxVoteOptions => if b.votes[j] != 0 then 1 else 0), 0,
               cfg.voteOptionTreeDepth)
  }

  /** A count to which one more ballot is added. */
  function CountedAlso(c: VoteCounts, b: Ballot): VoteCounts
    requires |c.counts| == |b.votes|
  {
    c.(counts := seq(|c.counts|, j requires 0 <= j < |c.counts| => c.counts[j] + if b.votes[j] != 0 then 1 else 0))
  }

  /** All the counts of option j together. */
  function CountColumn(counts: seq<VoteCounts>, j: nat): int
    requires forall i :: 0 <= i < |counts| ==> j < |counts[i].counts|
  {
    if counts == [] then 0
    else CountColumn(counts[..|counts| - 1], j) + counts[|counts| - 1].counts[j]
  }

  /** The ballots that vote for option j at all. */
  function VotingFor(ballots: seq<Ballot>, j: nat): set<nat>
    requires forall i :: 0 <= i < |ballots| ==> j < |ballots[i].votes|
  {
    set i: nat | i < |ballots| && ballots[i].votes[j] != 0
  }

  lemma OneMoreVoter(ballots: seq<Ballot>, j: nat)
    requires ballots != [] && forall i :: 0 <= i < |ballots| ==> j < |ballots[i].votes|
    ensures var n := |ballots| - 1;
            |VotingFor(ballots, j)| == |VotingFor(ballots[..n], j)| + if ballots[n].votes[j] != 0 then 1 else 0
  {
    var n := |ballots| - 1;
    var before := VotingFor(ballots[..n], j);
    assert n !in before;
    if ballots[n].votes[j] != 0 {
      assert VotingFor(ballots, j) == before + {n};
    } else {
      assert VotingFor(ballots, j) == before;
    }
  }

  /** Counted once each, the ballots give for every option how many of them vote for it. */
  lemma {:induction false} CountsCountVoters(cfg: Config, ballots: seq<Ballot>, counts: seq<VoteCounts>, j: nat)
    requires |counts| == |ballots| && j < cfg.maxVoteOptions
    requires forall i :: 0 <= i < |ballots| ==> |ballots[i].votes| == cfg.maxVoteOptions && counts[i] == Counted(cfg, ballots[i])
    ensures forall i :: 0 <= i < |counts| ==> |counts[i].counts| == cfg.maxVoteOptions
    ensures CountColumn(counts, j) == |VotingFor(ballots, j)|
  {
    if ballots == [] {
      assert VotingFor(ballots, j) == {};
    } else {
      var n := |ballots| - 1;
      CountsCountVoters(cfg, ballots[..n], counts[..n], j);
      OneMoreVoter(ballots, j);
    }
  }

  /** The running totals of a poll. */
  datatype Totals = Totals(results: seq<int>, perOption: seq<int>, spent: int)

  // ----- commitments

  datatype TallySalts = TallySalts(results: int, spent: int, perOption: int)

  /** The commitment to the totals of some ballots: results, spent credits and, in QV, spent credits per option. */
  function TallyCommitment(cfg: Config, ballots: seq<Ballot>, salts: TallySalts): int
    requires forall i :: 0 <= i < |ballots| ==> |ballots[i].votes| == cfg.maxVoteOptions
  {
    var results := TreeCommitment(cfg.h, Columns(ballots, cfg.maxVoteOptions), salts.results, cfg.voteOptionTreeDepth);
    var spent := cfg.h.LeftRight(TotalCost(cfg.mode, ballots), salts.spent);
    if cfg.mode == QV
    then
      var perOption := ColumnCosts(QV, ballots, cfg.maxVoteOptions);
      cfg.h.hash3([results, spent, TreeCommitment(cfg.h, perOption, salts.perOption, cfg.voteOptionTreeDepth)])
    else cfg.h.LeftRight(results, spent)
  }

  /** The circuit inputs of one tally batch. */
  datatype TallyInputs = TallyInputs(
    stateRoot: int, ballotRoot: int, sbSalt: int, index: nat, sbCommitment: int,
    currentTallyCommitment: int, newTallyCommitment: int,
    ballots: seq<Ballot>, ballotPathElements: seq<seq<int>>,
    currentResults: seq<int>, currentSpentVoiceCreditSubtotal: int, currentPerVoteOptionSpentVoiceCredits: seq<int>,
    currentSalts: TallySalts, newSalts: TallySalts)

  function FirstBallots(ballots: seq<Ballot>, n: nat): seq<Ballot> {
    if n < |ballots| then ballots[..n] else ballots
  }

  /** Ballots start .. start + size, padded with blank ones past the end. */
  function BallotBatch(cfg: Config, ballots: seq<Ballot>, start: nat, size: nat): (r: seq<Ballot>)
    ensures |r| == size
  {
    seq(size, i requires 0 <= i < size => if start + i < |ballots| then ballots[start + i] else BlankBallotOf(cfg))
  }

  /** One call of tallyVotes, for the batch starting at ballot `start`. */
  ghost predicate TallyDone(cfg: Config, ballots: seq<Ballot>, start: nat, size: nat, out: TallyInputs) {
    && (forall i :: 0 <= i < |ballots| ==> |ballots[i].votes| == cfg.maxVoteOptions)
    && out.index == start && out.ballots == BallotBatch(cfg, ballots, start, size)
    && out.sbCommitment == cfg.h.hash3([out.stateRoot, out.ballotRoot, out.sbSalt])
    && out.currentTallyCommitment ==
         (if start == 0 then 0 else TallyCommitment(cfg, FirstBallots(ballots, start), out.currentSalts))
    && out.newTallyCommitment == TallyCommitment(cfg, FirstBallots(ballots, start + size), out.newSalts)
    && out.currentResults == Columns(FirstBallots(ballots, start), cfg.maxVoteOptions)
    && out.currentSpentVoiceCreditSubtotal == TotalCost(cfg.mode, FirstBallots(ballots, start))
    && (cfg.mode == QV ==>
          out.currentPerVoteOptionSpentVoiceCredits == ColumnCosts(QV, FirstBallots(ballots, start), cfg.maxVoteOptions))
  }

  /** Consecutive tally batches share their commitment. */
  lemma TallyCallsAreLinked(cfg: Config, ballots: seq<Ballot>, start: nat, size: nat, out: TallyInputs, next: TallyInputs)
    requires TallyDone(cfg, ballots, start, size, out) && TallyDone(cfg, ballots, start + size, size, next)
    requires size >= 1 && next.currentSalts == out.newSalts
    ensures next.currentTallyCommitment == out.newTallyCommitment
  {
  }

  /**
   The path of a tally batch leads from the tree of its padded ballots to the ballot root, because absent ballots
   hash to the zero leaf of the ballot tree.
   */
  ghost predicate PathLeads(cfg: Config, depth: nat, k: nat, start: nat, path: seq<seq<int>>, root: int, batch: seq<Ballot>)
    requires k <= depth
  {
    Accepts(cfg.h.hash2, Proof(path, PathIndices(BallotShape(cfg, depth), start)[k..], root,
                               Root(BallotShape(cfg, depth).(depth := k), BallotHashes(cfg, batch))))
  }

  /** A batch of 2^k ballots gets a path that leads to the ballot root; a batch of any other size gets a path without levels. */
  ghost predicate PathFits(cfg: Config, depth: nat, size: nat, start: nat, path: seq<seq<int>>, root: int, batch: seq<Ballot>) {
    && (forall k: nat :: k < depth && Pow(2, k) == size ==> PathLeads(cfg, depth, k, start, path, root, batch))
    && ((forall k: nat :: k < depth ==> Pow(2, k) != size) ==> path == [])
  }
}
