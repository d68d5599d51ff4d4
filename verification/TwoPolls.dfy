/**
 Two polls of one MACI state. The lock is taken before it is looked at, so it keeps another poll out only once that poll is
 under way itself.
 */
module TwoPolls {
  import opened DomainObjects
  import opened Results
  import opened Voting
  import opened BatchRuns
  import opened QuinTree
  import opened PollMachine

  /** Two polls of one state that share no tree. */
  ghost predicate Apart(a: Poll, b: Poll)
    reads a, b
  {
    && a != b && a.maciStateRef == b.maciStateRef
    && a.pollStateTree != b.pollStateTree && a.pollStateTree != b.ballotTree
    && a.ballotTree != b.pollStateTree && a.ballotTree != b.ballotTree
    && a.voteCountsTree != b.pollStateTree && a.voteCountsTree != b.ballotTree
    && b.voteCountsTree != a.pollStateTree && b.voteCountsTree != a.ballotTree
  }

  /**
   Poll a is under way and holds the lock; poll b starts all the same. From then on poll a is locked out exactly until the
   last batch of poll b, although nothing else about it has changed.
   */
  method StartTakesTheLock(a: Poll, b: Poll, idA: int, idB: int, padding: Published, draws: seq<int>)
    returns (first: Result<BatchInputs>, second: Result<BatchInputs>)
    requires Apart(a, b) && idA != idB && HasOther(draws, 0)
    requires a.Static() && a.LogOk() && a.Ready() && a.CanProcess(idA) && a.totalBatchesProcessed > 0
    requires a.maciStateRef.pollBeingProcessed && a.maciStateRef.currentPollBeingProcessed == idA
    requires b.Static() && b.LogOk() && b.Ready() && b.HasUnprocessedMessages() && b.totalBatchesProcessed == 0
    requires 1 <= b.UpcomingBatch() <= |b.messages|
    modifies a.maciStateRef`pollBeingProcessed, a.maciStateRef`currentPollBeingProcessed
    modifies a`batchHashes, a`currentMessageBatchIndex, a`sbSalts, a`totalBatchesProcessed, a`pollStateLeaves, a`ballots
    modifies a.pollStateTree, a.ballotTree
    modifies b`batchHashes, b`currentMessageBatchIndex, b`sbSalts, b`totalBatchesProcessed, b`pollStateLeaves, b`ballots
    modifies b.pollStateTree, b.ballotTree
    ensures first.Success? && b.totalBatchesProcessed == 1
    ensures second.Success? <==> |b.messages| <= b.messageBatchSize
    ensures second.Failure? ==> a.St() == old(a.St()) && a.totalBatchesProcessed == old(a.totalBatchesProcessed)
  {
    hide Poll.Ready, Poll.LogOk, Poll.Publishing, Poll.HasUnprocessedMessages, Poll.OpenBatch, Poll.SaltTaken, Poll.CurrentSalt;
    hide BatchDone, HasOther;
    b.ReadyIsPollOk();
    first := b.ProcessMessages(idB, padding, draws);
    second := a.ProcessMessages(idA, padding, draws);
  }

  /** Once poll b is done, poll a goes on where it was. */
  method GoesOnAfterwards(a: Poll, b: Poll, idA: int, idB: int, padding: Published, draws: seq<int>, paddings: nat -> Published,
                          more: nat -> seq<int>)
    returns (first: Result<(seq<StateLeaf>, seq<Ballot>)>, second: Result<BatchInputs>)
    requires Apart(a, b) && idA != idB && HasOther(draws, 0) && forall i :: HasOther(more(i), 0)
    requires a.Static() && a.LogOk() && a.Ready() && a.CanProcess(idA) && a.totalBatchesProcessed > 0
    requires a.maciStateRef.pollBeingProcessed && a.maciStateRef.currentPollBeingProcessed == idA
    requires b.Static() && b.LogOk() && b.Ready() && b.HasUnprocessedMessages() && b.totalBatchesProcessed == 0
    requires 1 <= b.UpcomingBatch() <= |b.messages|
    modifies a.maciStateRef`pollBeingProcessed, a.maciStateRef`currentPollBeingProcessed
    modifies a`batchHashes, a`currentMessageBatchIndex, a`sbSalts, a`totalBatchesProcessed, a`pollStateLeaves, a`ballots
    modifies a.pollStateTree, a.ballotTree
    modifies b`batchHashes, b`currentMessageBatchIndex, b`sbSalts, b`totalBatchesProcessed, b`pollStateLeaves, b`ballots
    modifies b.pollStateTree, b.ballotTree
    ensures first.Success? && !b.HasUnprocessedMessages()
    ensures second.Success?
    ensures BatchDone(a.cfg, a.D(), old(a.St()), a.log, a.messageBatchSize, old(a.UpcomingBatch()), padding, second.value, a.St())
  {
    hide Poll.Ready, Poll.LogOk, Poll.Publishing, Poll.HasUnprocessedMessages, Poll.OpenBatch, Poll.SaltTaken, Poll.CurrentSalt;
    hide BatchDone, HasOther, Poll.Underway, Poll.ReplayFrom;
    b.ReadyIsPollOk();
    ghost var states, outs;
    first, states, outs := b.ProcessAllMessages(idB, paddings, more);
    second := a.ProcessMessages(idA, padding, draws);
  }
}
