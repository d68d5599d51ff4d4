/**
 A poll from its first action to its published tally, as generateMaciState.ts replays it and ProofGenerator.ts runs it:
 every state the operations of PollMachine reach keeps what the next one needs, and the tally is that of one backward
 pass over the messages.
 */
module PollLifeCycle {
  import opened Powers
  import opened DomainObjects
  import opened Results
  import opened Field
  import opened Voting
  import opened Witnesses
  import opened MessageLog
  import opened BatchRuns
  import opened TallySpec
  import opened VotingProperties
  import opened PollMachine
  import opened PollActions
  import opened Commitments

  /** Joins and messages in any order, before processing. */
  ghost predicate Collecting(poll: Poll, actions: seq<PollAction>)
    reads poll, poll.pollStateTree, poll.ballotTree, poll.voteCountsTree
  {
    poll.Publishing() && Collected(poll, actions)
  }

  /** What the actions have put into the poll, whatever batches are closed. */
  ghost predicate Collected(poll: Poll, actions: seq<PollAction>)
    reads poll, poll.pollStateTree, poll.ballotTree, poll.voteCountsTree
  {
    && poll.Valid() && !poll.stateCopied && poll.NotTallied()
    && poll.pollStateLeaves == [BLANK_STATE_LEAF] + JoinersIn(actions) && poll.log == MessagesIn(actions)
    && poll.ballots == [BlankBallotOf(poll.cfg)] && poll.voteCounts == [BlankCountsOf(poll.cfg)]
    && poll.pollNullifiers == NullifiersIn(actions) && Replayable(actions)
  }

  /** `ok` is false where an action throws. */
  method Collect(poll: Poll, actions: seq<PollAction>) returns (ok: bool)
    requires Collecting(poll, [])
    modifies poll`pollNullifiers, poll`pollStateLeaves, poll`messages, poll`encryptionPublicKeys, poll`log, poll`chainHash
    modifies poll`batchHashes, poll`currentMessageBatchIndex
    ensures ok <==> Replayable(actions)
    ensures ok ==> Collecting(poll, actions)
  {
    hide Replayable;
    for i := 0 to |actions|
      invariant Collecting(poll, actions[..i])
    {
      ok := CollectOne(poll, actions[..i], actions[i]);
      assert actions[..i] + [actions[i]] == actions[..i + 1];
      if !ok {
        if Replayable(actions) {
          ReplayablePrefix(actions, i + 1);
          assert false;
        }
        return;
      }
    }
    assert actions[..|actions|] == actions;
    ok := true;
  }

  method CollectOne(poll: Poll, ghost before: seq<PollAction>, action: PollAction) returns (ok: bool)
    requires Collecting(poll, before)
    modifies poll`pollNullifiers, poll`pollStateLeaves, poll`messages, poll`encryptionPublicKeys, poll`log, poll`chainHash
    modifies poll`batchHashes, poll`currentMessageBatchIndex
    ensures ok <==> Replayable(before + [action])
    ensures ok ==> Collecting(poll, before + [action])
  {
    match action
    case Join(nullifier, publicKey, credits) =>
      ok := CollectJoin(poll, before, nullifier, publicKey, credits);
    case Publish(message, key) =>
      ok := CollectMessage(poll, before, message, key);
  }

  method CollectJoin(poll: Poll, ghost before: seq<PollAction>, nullifier: int, publicKey: PublicKey, credits: int) returns (ok: bool)
    requires Collecting(poll, before)
    modifies poll`pollNullifiers, poll`pollStateLeaves
    ensures ok <==> Replayable(before + [Join(nullifier, publicKey, credits)])
    ensures ok ==> Collecting(poll, before + [Join(nullifier, publicKey, credits)])
  {
    hide Poll.HashesOk, JoinersIn, MessagesIn, NullifiersIn, Replayable;
    OneMore(before, Join(nullifier, publicKey, credits));
    var joined := poll.JoinPoll(nullifier, publicKey, credits);
    ok := joined.Success?;
  }

  method CollectMessage(poll: Poll, ghost before: seq<PollAction>, message: Message, key: PublicKey) returns (ok: bool)
    requires Collecting(poll, before)
    modifies poll`messages, poll`encryptionPublicKeys, poll`log, poll`chainHash, poll`batchHashes, poll`currentMessageBatchIndex
    ensures ok <==> Replayable(before + [Publish(message, key)])
    ensures ok ==> Collecting(poll, before + [Publish(message, key)])
  {
    hide JoinersIn, MessagesIn, NullifiersIn, Replayable;
    OneMore(before, Publish(message, key));
    ok := poll.PublishMessage(message, key);
    assert poll.log == MessagesIn(before) + if ok then [Published(message, key)] else [];
  }

  // ----- tallying every batch

  /** Call t tallies ballots t * size on, and starts from the commitment and the salts of the call before. */
  ghost predicate TallyRun(cfg: Config, ballots: seq<Ballot>, size: nat, outs: seq<TallyInputs>) {
    && size >= 1 && (forall t {:trigger outs[t]} :: 0 <= t < |outs| ==> TallyDone(cfg, ballots, t * size, size, outs[t]))
    && forall t :: 0 < t < |outs| ==> outs[t].currentSalts == outs[t - 1].newSalts
  }

  /** Consecutive tally batches share their commitment. */
  lemma TallyRunIsLinked(cfg: Config, ballots: seq<Ballot>, size: nat, outs: seq<TallyInputs>, t: nat)
    requires TallyRun(cfg, ballots, size, outs) && 0 < t < |outs|
    ensures outs[t].currentTallyCommitment == outs[t - 1].newTallyCommitment
  {
    hide TallyDone;
    assert (t - 1) * size + size == t * size;
    assert TallyDone(cfg, ballots, (t - 1) * size, size, outs[t - 1]) && TallyDone(cfg, ballots, t * size, size, outs[t]);
    TallyCallsAreLinked(cfg, ballots, (t - 1) * size, size, outs[t - 1], outs[t]);
  }

  /** Call t emits the inputs of its batch, with the roots, the salt and the commitment processing left. */
  ghost predicate AllTallied(poll: Poll, outs: seq<TallyInputs>)
    reads poll
  {
    forall t: nat {:trigger outs[t]} :: t < |outs| ==> poll.BatchTallied(t * poll.tallyBatchSize, outs[t])
  }

  ghost predicate Tallying(poll: Poll, outs: seq<TallyInputs>)
    reads poll, poll.pollStateTree, poll.ballotTree, poll.voteCountsTree
  {
    && poll.Valid() && poll.stateCopied && poll.TallyOk()
    && poll.currentMessageBatchIndex in poll.sbSalts && poll.numBatchesTallied == |outs|
    && (|outs| > 0 ==> poll.SizeFits() && (|outs| - 1) * poll.tallyBatchSize < |poll.ballots|)
    && TallyRun(poll.cfg, poll.ballots, poll.tallyBatchSize, outs)
    && (|outs| > 0 ==> poll.LastSalts() == outs[|outs| - 1].newSalts)
    && AllTallied(poll, outs)
  }

  method TallyNext(poll: Poll, salts: TallySalts, ghost outs: seq<TallyInputs>) returns (ok: bool, ghost outs': seq<TallyInputs>)
    requires Tallying(poll, outs) && poll.HasUntalliedBallots()
    modifies poll`tallyResult, poll`perVoteOptionSpentVoiceCredits, poll`totalSpentVoiceCredits, poll`numBatchesTallied
    modifies poll`resultRootSalts, poll`spentVoiceCreditSubtotalSalts, poll`perVoteOptionSpentVoiceCreditsRootSalts
    modifies poll`voteCounts, poll.voteCountsTree`nodes, poll.voteCountsTree`root
    ensures ok <==> poll.SizeFits()
    ensures ok ==> Tallying(poll, outs') && |outs'| == |outs| + 1
  {
    hide Poll.Valid, Poll.TallyOk, Poll.BatchTallied, TallyDone, PathFits, StateRoot, BallotRoot;
    hide Poll.Tallyable, Poll.Added, Poll.CountsAdded, Poll.LastSalts, Poll.SaltsStored, Poll.Tallied;
    outs' := outs;
    poll.OkIsTallyable();
    var out := poll.TallyVotes(salts);
    ok := out.Success?;
    if ok {
      BatchIsDone(poll, |outs| * poll.tallyBatchSize, out.value);
      outs' := outs + [out.value];
    }
  }

  lemma BatchIsDone(poll: Poll, start: nat, out: TallyInputs)
    requires poll.BatchTallied(start, out)
    ensures TallyDone(poll.cfg, poll.ballots, start, poll.tallyBatchSize, out)
  {
  }

  /** Tallies batch after batch until no ballot is left; with a size that gets no subroot proof the first batch throws. */
  method TallyAll(poll: Poll, salts: nat -> TallySalts) returns (ok: bool, ghost outs: seq<TallyInputs>)
    requires Tallying(poll, []) && poll.HasUntalliedBallots()
    modifies poll`tallyResult, poll`perVoteOptionSpentVoiceCredits, poll`totalSpentVoiceCredits, poll`numBatchesTallied
    modifies poll`resultRootSalts, poll`spentVoiceCreditSubtotalSalts, poll`perVoteOptionSpentVoiceCreditsRootSalts
    modifies poll`voteCounts, poll.voteCountsTree`nodes, poll.voteCountsTree`root
    ensures ok <==> poll.SizeFits()
    ensures ok ==> Tallying(poll, outs) && !poll.HasUntalliedBallots() && |outs| > 0
  {
    hide TallyRun, AllTallied, Poll.TallyOk;
    poll.ValidIsStatic();
    outs := [];
    while poll.HasUntalliedBallots()
      invariant Tallying(poll, outs) && (outs == [] ==> poll.HasUntalliedBallots())
      decreases |poll.ballots| - poll.numBatchesTallied
    {
      AtLeast(poll.numBatchesTallied, poll.tallyBatchSize);
      ok, outs := TallyNext(poll, salts(poll.numBatchesTallied), outs);
      if !ok {
        return;
      }
    }
    ok := true;
  }

  lemma AtLeast(t: nat, size: nat)
    requires size >= 1
    ensures t * size >= t
  {
  }

  // ----- the whole poll

  /** The participants when processing starts: those who joined, with a blank ballot each, and blank ballots to spare. */
  ghost predicate Starts(cfg: Config, actions: seq<PollAction>, start: Voters) {
    && VotersOk(cfg, start) && start.leaves == [BLANK_STATE_LEAF] + JoinersIn(actions)
    && forall i :: 0 <= i < |start.ballots| ==> start.ballots[i] == BlankBallotOf(cfg)
  }

  /** Replays the actions and prepares the poll for processing; everyone who joined must have signed up. */
  method Prepare(poll: Poll, actions: seq<PollAction>, totalSignups: nat) returns (ok: bool)
    requires Collecting(poll, []) && 1 + |JoinersIn(actions)| <= poll.Signups(totalSignups)
    modifies poll
    ensures ok <==> Replayable(actions) && poll.Signups(totalSignups) <= Pow(2, poll.stateTreeDepth)
    ensures ok ==> poll.Ready() && poll.Publishing() && poll.NotTallied() && poll.log == MessagesIn(actions)
    ensures ok ==> Starts(poll.cfg, actions, poll.St())
    ensures ok ==> fresh(poll.pollStateTree) && fresh(poll.ballotTree) && fresh(poll.voteCountsTree)
  {
    hide Collected, Poll.Ready, Poll.Publishing, Poll.NotTallied, Starts, Replayable, JoinersIn, MessagesIn;
    ok := Collect(poll, actions);
    if ok {
      ok := CopyState(poll, actions, totalSignups);
    }
  }

  method CopyState(poll: Poll, ghost actions: seq<PollAction>, totalSignups: nat) returns (ok: bool)
    requires Collected(poll, actions) && 1 + |JoinersIn(actions)| <= poll.Signups(totalSignups)
    modifies poll`totalSignups, poll`actualStateTreeDepth, poll`pollStateTree, poll`ballotTree, poll`ballots, poll`voteCountsTree
    modifies poll`voteCounts, poll`stateCopied
    ensures ok <==> poll.Signups(totalSignups) <= Pow(2, poll.stateTreeDepth)
    ensures ok ==> poll.Ready() && poll.NotTallied() && poll.log == MessagesIn(actions)
    ensures ok ==> Starts(poll.cfg, actions, poll.St())
    ensures ok ==> fresh(poll.pollStateTree) && fresh(poll.ballotTree) && fresh(poll.voteCountsTree)
  {
    hide Poll.TreesOk, Poll.StateTreeOk, JoinersIn, MessagesIn, NullifiersIn, Replayable;
    ok := poll.UpdatePoll(totalSignups);
  }

  /** Everything processed, in one run over all batches, from `start`. */
  ghost predicate Processed(poll: Poll, actions: seq<PollAction>, start: Voters, paddings: nat -> Published, states: seq<Voters>,
                            outs: seq<BatchInputs>)
    reads poll, poll.pollStateTree, poll.ballotTree, poll.voteCountsTree
  {
    && poll.Ready() && poll.NotTallied() && !poll.HasUnprocessedMessages() && Starts(poll.cfg, actions, start)
    && poll.log == MessagesIn(actions) && poll.St() == Replay(poll.cfg, start, poll.log)
    && FullRun(poll, actions, start, paddings, states, outs)
    && poll.currentMessageBatchIndex in poll.sbSalts
    && outs[|outs| - 1].newSbCommitment == SbCommitment(poll.cfg, poll.D(), poll.St(), poll.sbSalts[poll.currentMessageBatchIndex])
  }

  /** One call for each batch of the messages, from the start to the final leaves and ballots. */
  ghost predicate FullRun(poll: Poll, actions: seq<PollAction>, start: Voters, paddings: nat -> Published, states: seq<Voters>,
                          outs: seq<BatchInputs>)
    reads poll
  {
    && poll.messageBatchSize >= 1 && |outs| == NumBatches(|MessagesIn(actions)|, poll.messageBatchSize) >= 1
    && Run(poll.cfg, poll.D(), MessagesIn(actions), poll.messageBatchSize, |outs|, paddings, states, outs)
    && states[0] == start && states[|outs|] == poll.St()
  }

  method Process(poll: Poll, pollId: int, paddings: nat -> Published, draws: nat -> seq<int>, ghost actions: seq<PollAction>)
    returns (ok: bool, ghost start: Voters, ghost states: seq<Voters>, ghost outs: seq<BatchInputs>)
    requires poll.Ready() && poll.Publishing() && poll.NotTallied() && poll.log == MessagesIn(actions)
    requires Starts(poll.cfg, actions, poll.St()) && forall i :: HasOther(draws(i), 0)
    modifies poll.maciStateRef`pollBeingProcessed, poll.maciStateRef`currentPollBeingProcessed
    modifies poll`batchHashes, poll`currentMessageBatchIndex, poll`sbSalts, poll`totalBatchesProcessed, poll`pollStateLeaves, poll`ballots
    modifies poll.pollStateTree, poll.ballotTree
    ensures ok <==> MessagesIn(actions) != []
    ensures ok ==> start == old(poll.St()) && Processed(poll, actions, start, paddings, states, outs)
  {
    hide Poll.Ready, Poll.HashesOk, Poll.HasUnprocessedMessages, Run, Replay, BatchDone;
    start := poll.St();
    BeforeProcessing(poll, pollId);
    var r, run, runs := poll.ProcessAllMessages(pollId, paddings, draws);
    ok, states, outs := r.Success?, run, runs;
    if ok {
      FinishedRun(poll, pollId, paddings, states, outs, start);
    }
  }

  lemma BeforeProcessing(poll: Poll, pollId: int)
    requires poll.Ready() && poll.Publishing()
    ensures poll.Static() && poll.LogOk() && VotersOk(poll.cfg, poll.St()) && |poll.messages| == |poll.log| && poll.Skipped() == 0
    ensures poll.HasUnprocessedMessages() && (poll.CanProcess(pollId) <==> |poll.messages| >= 1)
    ensures poll.totalBatchesProcessed == 0 && poll.UpcomingBatch() == NumBatches(|poll.log|, poll.messageBatchSize)
  {
    poll.ReadyIsPollOk();
    poll.UnprocessedIff();
    LastBatch(|poll.messages|, poll.messageBatchSize);
  }

  lemma FinishedRun(poll: Poll, pollId: int, paddings: nat -> Published, states: seq<Voters>, outs: seq<BatchInputs>, start: Voters)
    requires poll.messageBatchSize >= 1
    requires poll.Underway(pollId, 0, NumBatches(|poll.log|, poll.messageBatchSize), start, paddings, states, outs)
    requires poll.totalBatchesProcessed == NumBatches(|poll.log|, poll.messageBatchSize)
    requires VotersOk(poll.cfg, start) && poll.St() == poll.ReplayFrom(start, 0)
    ensures |outs| == NumBatches(|poll.log|, poll.messageBatchSize) >= 1 && poll.currentMessageBatchIndex in poll.sbSalts
    ensures Run(poll.cfg, poll.D(), poll.log, poll.messageBatchSize, |outs|, paddings, states, outs)
    ensures states[0] == start && states[|outs|] == poll.St() == Replay(poll.cfg, start, poll.log)
    ensures outs[|outs| - 1].newSbCommitment == SbCommitment(poll.cfg, poll.D(), poll.St(), poll.sbSalts[poll.currentMessageBatchIndex])
  {
    hide Poll.Ready, Replay, BatchDone, VotersOk;
    LastBatch(|poll.log|, poll.messageBatchSize);
    poll.LastCommitment(pollId, 0, |outs|, start, paddings, states, outs);
    assert poll.log[0..] == poll.log;
  }

  // ----- starting too early

  /** How many of n messages a run leaves out after one start that threw. */
  function LeftOut(n: nat, b: nat): nat
    requires b >= 1
  {
    if n % b == 0 then 0 else Least(b, n)
  }

  /** The batches of n messages, and one more for an open one, are no more than the messages. */
  predicate EnoughMessages(n: nat, b: nat)
    requires b >= 1
  {
    n >= 1 && NumBatches(n, b) + (if n % b != 0 then 1 else 0) <= n
  }

  /**
   Processing is started before the state is copied, which throws, and then done properly. It goes through exactly if the
   batches, and one more for an open one, are no more than the messages; and then the oldest messages are left out, up to
   the batch size, unless the batch size divides their number.
   */
  method StartTooEarly(poll: Poll, ghost actions: seq<PollAction>, totalSignups: nat, pollId: int, padding: Published, draws: seq<int>,
                       paddings: nat -> Published, more: nat -> seq<int>)
    returns (ok: bool, ghost start: Voters)
    requires Collecting(poll, actions) && 1 + |JoinersIn(actions)| <= poll.Signups(totalSignups) <= Pow(2, poll.stateTreeDepth)
    requires HasOther(draws, 0) && forall i :: HasOther(more(i), 0)
    modifies poll, poll.pollStateTree, poll.ballotTree
    modifies poll.maciStateRef`pollBeingProcessed, poll.maciStateRef`currentPollBeingProcessed
    ensures Starts(poll.cfg, actions, start) && |MessagesIn(actions)| == |poll.log|
    ensures ok <==> EnoughMessages(|poll.log|, poll.messageBatchSize)
    ensures ok ==> !poll.HasUnprocessedMessages()
                   && poll.St() == Replay(poll.cfg, start, MessagesIn(actions)[LeftOut(|poll.log|, poll.messageBatchSize)..])
  {
    hide Poll.HashesOk, Poll.Ready, Poll.HasUnprocessedMessages, Replay, Starts, JoinersIn, MessagesIn, Collected, Poll.Underway, HasOther;
    EarlyCall(poll, actions, pollId, padding, draws);
    var copied := CopyState(poll, actions, totalSignups);
    start := poll.St();
    AfterEarlyCall(poll, actions, pollId, start);
    var r, states, outs := poll.ProcessAllMessages(pollId, paddings, more);
    ok := r.Success?;
  }

  /** The call that throws, and what it has changed. */
  method EarlyCall(poll: Poll, ghost actions: seq<PollAction>, pollId: int, padding: Published, draws: seq<int>)
    requires Collecting(poll, actions) && HasOther(draws, 0)
    modifies poll, poll.pollStateTree, poll.ballotTree
    modifies poll.maciStateRef`pollBeingProcessed, poll.maciStateRef`currentPollBeingProcessed
    ensures Collected(poll, actions) && poll.Waiting()
    ensures |poll.batchHashes| == 1 + NumBatches(|poll.messages|, poll.messageBatchSize)
  {
    hide Poll.HashesOk, Poll.ArraysOk, Poll.Static, JoinersIn, MessagesIn, NullifiersIn, Replayable;
    poll.ValidIsArraysOk();
    poll.UnprocessedIff();
    var r := poll.ProcessMessages(pollId, padding, draws);
  }

  lemma AfterEarlyCall(poll: Poll, actions: seq<PollAction>, pollId: int, start: Voters)
    requires poll.Ready() && poll.Waiting() && poll.St() == start && poll.log == MessagesIn(actions)
    requires |poll.batchHashes| == 1 + NumBatches(|poll.messages|, poll.messageBatchSize)
    ensures poll.Static() && poll.LogOk() && poll.HasUnprocessedMessages() && |poll.messages| == |poll.log|
    ensures poll.Skipped() == LeftOut(|poll.log|, poll.messageBatchSize) <= |poll.log|
    ensures poll.CanProcess(pollId) <==> EnoughMessages(|poll.log|, poll.messageBatchSize)
    ensures VotersOk(poll.cfg, start) && poll.ReplayFrom(start, poll.Skipped())
         == Replay(poll.cfg, start, MessagesIn(actions)[LeftOut(|poll.log|, poll.messageBatchSize)..])
  {
    hide Replay, MessagesIn, Poll.Ready, Poll.HasUnprocessedMessages, VotersOk, NumBatches;
    poll.ReadyIsPollOk();
    poll.UnprocessedIff();
    WaitingLog(poll);
    LastBatch(|poll.messages|, poll.messageBatchSize);
    OneBatchMore(|poll.messages|, poll.messageBatchSize);
  }

  lemma WaitingLog(poll: Poll)
    requires poll.Waiting()
    ensures |poll.messages| == |poll.log|
  {
  }

  lemma OneBatchMore(n: nat, b: nat)
    requires b >= 1
    ensures NumBatches(n, b) >= n / b && BatchEnd(n, b, NumBatches(n, b) - n / b) == LeftOut(n, b) <= n
  {
  }

  /** Three messages in batches of two: after one start that threw only the newest of them is processed. */
  method TwoOfThreeAreSkipped(poll: Poll, ghost actions: seq<PollAction>, totalSignups: nat, pollId: int, padding: Published,
                              draws: seq<int>, paddings: nat -> Published, more: nat -> seq<int>)
    returns (ghost start: Voters)
    requires Collecting(poll, actions) && 1 + |JoinersIn(actions)| <= poll.Signups(totalSignups) <= Pow(2, poll.stateTreeDepth)
    requires HasOther(draws, 0) && forall i :: HasOther(more(i), 0)
    requires |MessagesIn(actions)| == 3 && poll.messageBatchSize == 2
    modifies poll, poll.pollStateTree, poll.ballotTree
    modifies poll.maciStateRef`pollBeingProcessed, poll.maciStateRef`currentPollBeingProcessed
    ensures Starts(poll.cfg, actions, start) && !poll.HasUnprocessedMessages()
    ensures poll.St() == Replay(poll.cfg, start, [MessagesIn(actions)[2]])
  {
    hide Replay, Starts, JoinersIn, MessagesIn, Collecting;
    var ok;
    ok, start := StartTooEarly(poll, actions, totalSignups, pollId, padding, draws, paddings, more);
    assert 3 % 2 == 1 && 3 / 2 == 1;
    assert MessagesIn(actions)[2..] == [MessagesIn(actions)[2]];
  }

  /** The published results: those of one backward pass over all messages, whatever the batch sizes were. */
  ghost predicate ResultsAre(poll: Poll, actions: seq<PollAction>, start: Voters)
    reads poll
  {
    && Starts(poll.cfg, actions, start) && poll.St() == Replay(poll.cfg, start, MessagesIn(actions))
    && (forall i :: 0 <= i < |poll.ballots| ==> |poll.ballots[i].votes| == poll.cfg.maxVoteOptions)
    && poll.tallyResult == Columns(poll.ballots, poll.cfg.maxVoteOptions)
    && poll.totalSpentVoiceCredits == TotalCost(poll.cfg.mode, poll.ballots)
    && (poll.cfg.mode == QV ==> poll.perVoteOptionSpentVoiceCredits == ColumnCosts(QV, poll.ballots, poll.cfg.maxVoteOptions))
    && (poll.cfg.mode == QV ==> Sum(poll.perVoteOptionSpentVoiceCredits) == poll.totalSpentVoiceCredits)
    && (poll.cfg.mode != QV ==> Sum(poll.tallyResult) == poll.totalSpentVoiceCredits)
    && (poll.cfg.mode != FULL && (forall i :: 0 <= i < |start.leaves| ==> start.leaves[i].voiceCreditBalance >= 0) ==>
          poll.totalSpentVoiceCredits + Balances(poll.pollStateLeaves) == Balances(start.leaves))
  }

  lemma FinishedResults(poll: Poll, actions: seq<PollAction>, start: Voters)
    requires poll.Static() && poll.TallyOk() && !poll.HasUntalliedBallots()
    requires Starts(poll.cfg, actions, start) && poll.log == MessagesIn(actions) && poll.St() == Replay(poll.cfg, start, poll.log)
    ensures ResultsAre(poll, actions, start)
  {
    hide Replay;
    poll.FinishedTally();
    assert poll.ArraysOk();
    assert poll.tallyResult == Columns(poll.ballots, poll.cfg.maxVoteOptions);
    if poll.cfg.mode != FULL && forall i :: 0 <= i < |start.leaves| ==> start.leaves[i].voiceCreditBalance >= 0 {
      poll.TallyConservesCredits(start);
    }
  }

  /** The chain from all the messages to the last commitment, and the batches that tally it. */
  ghost predicate Complete(poll: Poll, actions: seq<PollAction>, start: Voters, paddings: nat -> Published, states: seq<Voters>,
                           outs: seq<BatchInputs>, tallies: seq<TallyInputs>)
    reads poll
  {
    && FullRun(poll, actions, start, paddings, states, outs)
    && TallyRun(poll.cfg, poll.ballots, poll.tallyBatchSize, tallies) && AllTallied(poll, tallies)
    && |tallies| >= 1 && (|tallies| - 1) * poll.tallyBatchSize < |poll.ballots| <= |tallies| * poll.tallyBatchSize
    && forall t :: 0 <= t < |tallies| ==> tallies[t].sbCommitment == outs[|outs| - 1].newSbCommitment
  }

  /**
   A poll run from its construction to its tally; the result says exactly when no call throws. There is one processing call
   for every batch of the messages, each starting from the state and the salt the one before left, and just enough tally
   batches for the ballots; the commitment every tally batch shows is the last one processing made.
   */
  method RunPoll(cfg: Config, stateTreeDepth: nat, messageBatchSize: nat, tallyBatchSize: nat, maci: MaciState, pollId: int,
                 actions: seq<PollAction>, totalSignups: nat, paddings: nat -> Published, draws: nat -> seq<int>,
                 tallySalts: nat -> TallySalts)
    returns (r: Result<Poll>, ghost start: Voters, ghost states: seq<Voters>, ghost outs: seq<BatchInputs>, ghost tallies: seq<TallyInputs>)
    requires cfg.h.NonZero() && cfg.voteOptionTreeDepth >= 1 && messageBatchSize >= 1 && tallyBatchSize >= 1 && stateTreeDepth >= 1
    requires cfg.maxVoteOptions == Pow(VOTE_OPTION_TREE_ARITY, cfg.voteOptionTreeDepth) && forall i :: HasOther(draws(i), 0)
    requires 1 + |JoinersIn(actions)| <= totalSignups && 1 + |JoinersIn(actions)| <= |maci.publicKeys|
    modifies maci`pollBeingProcessed, maci`currentPollBeingProcessed
    ensures r.Success? <==>
      && cfg.voteOptions <= cfg.maxVoteOptions && Replayable(actions) && MessagesIn(actions) != []
      && Least(totalSignups, |maci.publicKeys|) <= Pow(2, stateTreeDepth)
      && tallyBatchSize % 2 == 0 && tallyBatchSize < Pow(2, stateTreeDepth)
    ensures r.Success? ==>
      && r.value.cfg == cfg && r.value.stateTreeDepth == stateTreeDepth
      && r.value.messageBatchSize == messageBatchSize && r.value.tallyBatchSize == tallyBatchSize
    ensures r.Success? ==> ResultsAre(r.value, actions, start) && Complete(r.value, actions, start, paddings, states, outs, tallies)
    ensures r.Success? ==>
      outs[0].outputBatchHash == Chain(cfg.h, MessagesIn(actions)) && outs[|outs| - 1].inputBatchHash == NOTHING_UP_MY_SLEEVE
  {
    hide Poll.Publishing, Poll.ArraysOk, Poll.TreesOk, Replay, Starts, JoinersIn, MessagesIn, Processed, ResultsAre, Complete, FullRun;
    start, states, outs, tallies := Voters([], []), [], [], [];
    r := Poll.Create(cfg, stateTreeDepth, messageBatchSize, tallyBatchSize, maci);
    if r.Failure? {
      return;
    }
    var poll := r.value;
    NothingCollected(poll);
    var ok := Prepare(poll, actions, totalSignups);
    if !ok {
      r := Failure("an action throws, or a tree is too small");
      return;
    }
    ok, start, states, outs := Process(poll, pollId, paddings, draws, actions);
    if !ok {
      r := Failure("there is no message to process");
      return;
    }
    ok, tallies := Finish(poll, actions, start, paddings, states, outs, tallySalts);
    if !ok {
      r := Failure("the tally batch size gets no subroot proof");
      return;
    }
    RunEnds(poll, actions, start, paddings, states, outs, tallies);
  }

  lemma RunEnds(poll: Poll, actions: seq<PollAction>, start: Voters, paddings: nat -> Published, states: seq<Voters>,
                outs: seq<BatchInputs>, tallies: seq<TallyInputs>)
    requires Complete(poll, actions, start, paddings, states, outs, tallies)
    ensures |outs| >= 1 && outs[0].outputBatchHash == Chain(poll.cfg.h, MessagesIn(actions))
    ensures outs[|outs| - 1].inputBatchHash == NOTHING_UP_MY_SLEEVE
  {
    hide Run, TallyRun, AllTallied;
    RunEndpoints(poll.cfg, poll.D(), MessagesIn(actions), poll.messageBatchSize, paddings, states, outs);
  }

  /** The last tally commitment of a complete poll opens exactly to the published results, with the salts of the last batch. */
  lemma PublishedResultsOpen(poll: Poll, actions: seq<PollAction>, start: Voters, paddings: nat -> Published, states: seq<Voters>,
                             outs: seq<BatchInputs>, tallies: seq<TallyInputs>,
                             results: seq<int>, spent: int, perOption: seq<int>, salts: TallySalts)
    requires AllInjective(poll.cfg.h) && Complete(poll, actions, start, paddings, states, outs, tallies) && ResultsAre(poll, actions, start)
    ensures |tallies| >= 1
    ensures Recomputed(poll.cfg, results, spent, perOption, salts) == tallies[|tallies| - 1].newTallyCommitment <==>
      && SamePadded(poll.cfg, results, poll.tallyResult) && spent == poll.totalSpentVoiceCredits
      && (poll.cfg.mode == QV ==> SamePadded(poll.cfg, perOption, poll.perVoteOptionSpentVoiceCredits))
      && SameSalts(poll.cfg.mode, salts, tallies[|tallies| - 1].newSalts)
  {
    hide Complete, TallyDone, Recomputed, SamePadded, SameSalts, Starts, Replay, MessagesIn, FirstBallots;
    LastTally(poll, actions, start, paddings, states, outs, tallies);
    var from, size := (|tallies| - 1) * poll.tallyBatchSize, poll.tallyBatchSize;
    TallyBatchOpens(poll.cfg, poll.ballots, from, size, tallies[|tallies| - 1], results, spent, perOption, salts);
  }

  lemma LastTally(poll: Poll, actions: seq<PollAction>, start: Voters, paddings: nat -> Published, states: seq<Voters>,
                  outs: seq<BatchInputs>, tallies: seq<TallyInputs>)
    requires Complete(poll, actions, start, paddings, states, outs, tallies)
    ensures |tallies| >= 1 && (|tallies| - 1) * poll.tallyBatchSize >= 0
    ensures TallyDone(poll.cfg, poll.ballots, (|tallies| - 1) * poll.tallyBatchSize, poll.tallyBatchSize, tallies[|tallies| - 1])
    ensures FirstBallots(poll.ballots, (|tallies| - 1) * poll.tallyBatchSize + poll.tallyBatchSize) == poll.ballots
  {
    hide FullRun, AllTallied, TallyDone;
    assert (|tallies| - 1) * poll.tallyBatchSize + poll.tallyBatchSize == |tallies| * poll.tallyBatchSize;
  }

  /** The tally of a processed poll. */
  method Finish(poll: Poll, ghost actions: seq<PollAction>, ghost start: Voters, ghost paddings: nat -> Published,
                ghost states: seq<Voters>, ghost outs: seq<BatchInputs>, tallySalts: nat -> TallySalts)
    returns (ok: bool, ghost tallies: seq<TallyInputs>)
    requires Processed(poll, actions, start, paddings, states, outs)
    modifies poll`tallyResult, poll`perVoteOptionSpentVoiceCredits, poll`totalSpentVoiceCredits, poll`numBatchesTallied
    modifies poll`resultRootSalts, poll`spentVoiceCreditSubtotalSalts, poll`perVoteOptionSpentVoiceCreditsRootSalts
    modifies poll`voteCounts, poll.voteCountsTree`nodes, poll.voteCountsTree`root
    ensures ok <==> poll.SizeFits()
    ensures ok ==> ResultsAre(poll, actions, start) && Complete(poll, actions, start, paddings, states, outs, tallies)
  {
    hide Replay, Run, TallyRun, Starts, JoinersIn, MessagesIn, ResultsAre, StateRoot, BallotRoot, AllTallied;
    StartTallying(poll);
    ok, tallies := TallyAll(poll, tallySalts);
    if ok {
      poll.ValidIsStatic();
      FinishedResults(poll, actions, start);
      SameCommitment(poll, tallies);
    }
  }

  lemma SameCommitment(poll: Poll, tallies: seq<TallyInputs>)
    requires AllTallied(poll, tallies)
    ensures tallies != [] ==> poll.currentMessageBatchIndex in poll.sbSalts
    ensures forall t :: 0 <= t < |tallies| ==>
      tallies[t].sbCommitment == SbCommitment(poll.cfg, poll.D(), poll.St(), poll.sbSalts[poll.currentMessageBatchIndex])
  {
    hide StateRoot, BallotRoot, TallyDone, PathFits;
    if tallies != [] {
      assert poll.BatchTallied(0 * poll.tallyBatchSize, tallies[0]);
    }
  }

  lemma NothingCollected(poll: Poll)
    requires poll.IsNew()
    ensures Collecting(poll, [])
  {
  }

  lemma StartTallying(poll: Poll)
    requires poll.Ready() && poll.NotTallied() && poll.currentMessageBatchIndex in poll.sbSalts
    ensures Tallying(poll, []) && poll.HasUntalliedBallots()
  {
    poll.ReadyIsPollOk();
    poll.NothingTallied();
  }
}
