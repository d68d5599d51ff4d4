/**
 From the logs of the contracts to the published tally: generateMaciState.ts replays the logs, ProofGenerator.ts runs the
 poll. Neither the ranges the logs are fetched in, nor batch sizes, salts or the number of spare ballots show in the tally.
 */
module ChainToTally {
  import opened Powers
  import opened DomainObjects
  import opened Results
  import opened Voting
  import opened VotingProperties
  import opened Witnesses
  import opened BatchRuns
  import opened TallySpec
  import opened PollActions
  import opened PollMachine
  import opened PollLifeCycle
  import Logs = LogReplay

  /** What a run is set up with besides the logs and the voting rules. */
  datatype Settings = Settings(
    blocksPerRequest: nat, stateTreeDepth: nat, messageBatchSize: nat, tallyBatchSize: nat, totalSignups: nat,
    paddings: nat -> Published, draws: nat -> seq<int>, tallySalts: nat -> TallySalts)
  {
    ghost predicate Valid() {
      messageBatchSize >= 1 && tallyBatchSize >= 1 && stateTreeDepth >= 1 && forall i :: HasOther(draws(i), 0)
    }
  }

  /** The blocks whose logs are read, and the poll that is looked for. */
  datatype Source = Source(chain: Logs.Chain, pollId: int, fromBlock: int, lastBlock: int) {
    ghost function Generated(): Result<Logs.MaciReplay>
      requires chain.WellTyped()
    {
      Logs.Generated(chain, pollId, fromBlock, lastBlock)
    }

    /** The poll the logs describe, with its joins and messages. */
    ghost function ThePoll(): Logs.PollReplay
      requires chain.WellTyped() && Generated().Success?
    {
      Generated().value.PollOf(pollId).value
    }

    /** Only those who have signed up join. */
    ghost predicate JoinersSignedUp(totalSignups: nat)
      requires chain.WellTyped()
    {
      Generated().Success? ==>
        1 + |JoinersIn(ThePoll().actions)| <= totalSignups && 1 + |JoinersIn(ThePoll().actions)| <= |Generated().value.publicKeys|
    }

    /** The replay has already passed every check on joins and messages. */
    lemma ThePollIsReplayable()
      requires chain.WellTyped() && Generated().Success?
      ensures Generated().value.PollOf(pollId) == Some(ThePoll()) && Replayable(ThePoll().actions)
    {
      hide Logs.Readable, Logs.Deployed, Logs.MaciRound, Logs.PollRound, Logs.SortActions, Replayable;
      var actions := Logs.SortActions(Logs.MaciRound(chain, fromBlock, lastBlock) + Logs.PollRound(chain, fromBlock, lastBlock));
      var k := Logs.PollStartsAtDeployment(pollId, Logs.MaciReplay([chain.padKey], []), actions);
    }
  }

  /**
   Fetches and replays the logs and runs the poll they describe, in the mode it was deployed with. No call throws exactly
   if the logs replay to a poll with messages and the sizes fit; and then the tally is that of one backward pass over the
   messages in the order of the replay, from the participants who joined.
   */
  method TallyFromLogs(source: Source, cfg: Config, s: Settings) returns (r: Result<Poll>, ghost start: Voters)
    requires source.chain.WellTyped() && source.JoinersSignedUp(s.totalSignups) && s.Valid()
    requires cfg.h.NonZero() && cfg.voteOptionTreeDepth >= 1
    requires cfg.maxVoteOptions == Pow(VOTE_OPTION_TREE_ARITY, cfg.voteOptionTreeDepth)
    ensures r.Success? <==>
      && cfg.voteOptions <= cfg.maxVoteOptions && source.Generated().Success? && MessagesIn(source.ThePoll().actions) != []
      && Least(s.totalSignups, |source.Generated().value.publicKeys|) <= Pow(2, s.stateTreeDepth)
      && s.tallyBatchSize % 2 == 0 && s.tallyBatchSize < Pow(2, s.stateTreeDepth)
    ensures r.Success? ==> r.value.cfg == cfg.(mode := source.ThePoll().mode)
    ensures r.Success? ==> ResultsAre(r.value, source.ThePoll().actions, start)
  {
    hide Logs.Generated, ResultsAre, Complete, JoinersIn, MessagesIn, Replayable, HasOther;
    start := Voters([], []);
    var state := Logs.GenerateMaciStateFromContract(source.chain, source.pollId, source.fromBlock, source.lastBlock, s.blocksPerRequest);
    if state.Failure? {
      return Failure(state.error), start;
    }
    source.ThePollIsReplayable();
    var poll := state.value.PollOf(source.pollId).value;
    var maci := new MaciState(state.value.publicKeys);
    var tallied, from, _, _, _ := RunPoll(cfg.(mode := poll.mode), s.stateTreeDepth, s.messageBatchSize, s.tallyBatchSize, maci,
                                          source.pollId, poll.actions, s.totalSignups, s.paddings, s.draws, s.tallySalts);
    r, start := tallied, from;
  }

  // ----- what the settings do not change

  /** The same results, spent credits and final participants. */
  ghost predicate SameTally(one: Poll, other: Poll)
    reads one, other
  {
    && one.tallyResult == other.tallyResult && one.totalSpentVoiceCredits == other.totalSpentVoiceCredits
    && (one.cfg.mode == QV ==> one.perVoteOptionSpentVoiceCredits == other.perVoteOptionSpentVoiceCredits)
    && one.pollStateLeaves == other.pollStateLeaves
  }

  /** A ballot without votes. */
  predicate NoVotes(b: Ballot) { forall j :: 0 <= j < |b.votes| ==> b.votes[j] == 0 }

  /** Spare ballots without votes add nothing to an option. */
  lemma {:induction false} SpareColumns(mode: EMode, ballots: seq<Ballot>, n: nat, j: nat)
    requires n <= |ballots| && forall i :: 0 <= i < |ballots| ==> j < |ballots[i].votes|
    requires forall i :: n <= i < |ballots| ==> NoVotes(ballots[i])
    ensures Column(ballots, j) == Column(ballots[..n], j) && ColumnCost(mode, ballots, j) == ColumnCost(mode, ballots[..n], j)
    decreases |ballots|
  {
    if n < |ballots| {
      var shorter := ballots[..|ballots| - 1];
      SpareColumns(mode, shorter, n, j);
      assert shorter[..n] == ballots[..n] && NoVotes(ballots[|ballots| - 1]);
    } else {
      assert ballots[..n] == ballots;
    }
  }

  /** Ballots that agree but for spare ones without votes have the same totals. */
  lemma SameTotals(mode: EMode, ballots: seq<Ballot>, ballots': seq<Ballot>, n: nat, m: nat)
    requires n <= |ballots| && n <= |ballots'| && ballots[..n] == ballots'[..n]
    requires forall i :: n <= i < |ballots| ==> NoVotes(ballots[i])
    requires forall i :: n <= i < |ballots'| ==> NoVotes(ballots'[i])
    requires forall i :: 0 <= i < |ballots| ==> |ballots[i].votes| == m
    requires forall i :: 0 <= i < |ballots'| ==> |ballots'[i].votes| == m
    ensures Columns(ballots, m) == Columns(ballots', m) && ColumnCosts(mode, ballots, m) == ColumnCosts(mode, ballots', m)
    ensures TotalCost(mode, ballots) == TotalCost(mode, ballots')
  {
    forall j | 0 <= j < m
      ensures Column(ballots, j) == Column(ballots', j) && ColumnCost(mode, ballots, j) == ColumnCost(mode, ballots', j)
    {
      SpareColumns(mode, ballots, n, j);
      SpareColumns(mode, ballots', n, j);
    }
    RowsAndColumns(mode, ballots, m);
    RowsAndColumns(mode, ballots', m);
  }

  /** Participants replay alike, however many spare ballots there are. */
  lemma SameVoters(cfg: Config, st: Voters, st': Voters, log: seq<Published>)
    requires VotersOk(cfg, st) && VotersOk(cfg, st') && st.leaves == st'.leaves
    requires forall i :: 0 <= i < |st.leaves| ==> st.ballots[i] == st'.ballots[i]
    ensures Replay(cfg, st, log).leaves == Replay(cfg, st', log).leaves
    ensures Replay(cfg, st, log).ballots[..|st.leaves|] == Replay(cfg, st', log).ballots[..|st.leaves|]
  {
    hide Replay, VoterReplay;
    var end, end' := Replay(cfg, st, log), Replay(cfg, st', log);
    ReplayIsPointwise(cfg, st, log);
    ReplayIsPointwise(cfg, st', log);
    forall i | 0 <= i < |st.leaves|
      ensures end.leaves[i] == end'.leaves[i] && end.ballots[i] == end'.ballots[i]
    {
      assert st.At(i) == st'.At(i);
      assert end.At(i) == end'.At(i);
    }
  }

  /** The tally is a function of the actions and the voting rules. */
  lemma TallyIsDetermined(one: Poll, other: Poll, actions: seq<PollAction>, start: Voters, start': Voters)
    requires one.cfg == other.cfg && ResultsAre(one, actions, start) && ResultsAre(other, actions, start')
    ensures SameTally(one, other)
  {
    hide Replay, JoinersIn, MessagesIn;
    var cfg, log, n := one.cfg, MessagesIn(actions), |start.leaves|;
    SameVoters(cfg, start, start', log);
    SpareAreBlank(cfg, start, log);
    SpareAreBlank(cfg, start', log);
    SameTotals(cfg.mode, one.ballots, other.ballots, n, cfg.maxVoteOptions);
  }

  lemma SpareAreBlank(cfg: Config, start: Voters, log: seq<Published>)
    requires VotersOk(cfg, start) && forall i :: 0 <= i < |start.ballots| ==> start.ballots[i] == BlankBallotOf(cfg)
    ensures forall i :: |start.leaves| <= i < |start.ballots| ==> NoVotes(Replay(cfg, start, log).ballots[i])
  {
    ReplayIsPointwise(cfg, start, log);
  }

  /** Two runs over the same logs, with any settings: if both go through they publish the same tally. */
  method TallyTwice(source: Source, cfg: Config, s: Settings, s': Settings) returns (one: Result<Poll>, other: Result<Poll>)
    requires source.chain.WellTyped() && source.JoinersSignedUp(s.totalSignups) && source.JoinersSignedUp(s'.totalSignups)
    requires s.Valid() && s'.Valid() && cfg.h.NonZero() && cfg.voteOptionTreeDepth >= 1
    requires cfg.maxVoteOptions == Pow(VOTE_OPTION_TREE_ARITY, cfg.voteOptionTreeDepth)
    ensures one.Success? && other.Success? ==> SameTally(one.value, other.value)
  {
    hide ResultsAre, SameTally, Replayable, MessagesIn, JoinersIn;
    ghost var start, start';
    one, start := TallyFromLogs(source, cfg, s);
    other, start' := TallyFromLogs(source, cfg, s');
    if one.Success? && other.Success? {
      TallyIsDetermined(one.value, other.value, source.ThePoll().actions, start, start');
    }
  }
}
