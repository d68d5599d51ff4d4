/**
 Batches of processMessages: what one call emits, and what a whole run of calls adds up to. Batch k of a log,
 counting from 1, is its k-th group of b messages; a run goes from the last batch down to the first.
 */
module BatchRuns {
  import opened Powers
  import opened Merkle
  import opened DomainObjects
  import opened Field
  import opened Results
  import opened Voting
  import opened Witnesses
  import opened MessageLog

  /** The circuit inputs of one processed batch. */
  datatype BatchInputs = BatchInputs(
    totalSignups: nat, index: nat, batchEndIndex: nat, inputBatchHash: int, outputBatchHash: int,
    messages: seq<Message>, encryptionPublicKeys: seq<PublicKey>,
    currentStateRoot: int, currentBallotRoot: int, currentSbCommitment: int, currentSbSalt: int,
    slots: seq<SlotWitness>, newSbSalt: int, newSbCommitment: int)

  function SbCommitment(cfg: Config, d: Depths, st: Voters, salt: int): int {
    cfg.h.hash3([StateRoot(cfg, d, st), BallotRoot(cfg, d, st), salt])
  }

  /** A log cut into batches of b has k-th batch log[BatchEnd(k - 1)..BatchEnd(k)], counting from 1. */
  function BatchOf(log: seq<Published>, b: nat, k: nat): seq<Published>
    requires k >= 1 && BatchEnd(|log|, b, k - 1) <= BatchEnd(|log|, b, k)
  {
    log[BatchEnd(|log|, b, k - 1)..BatchEnd(|log|, b, k)]
  }

  lemma BatchEndMonotonic(n: nat, b: nat, j: nat, k: nat)
    requires j <= k
    ensures BatchEnd(n, b, j) <= BatchEnd(n, b, k)
  {
    MulMonotonic(b, j, k);
  }

  /**
   The inputs before the slots are added: the messages of batch k with padding, its hashes, the current commitment.
   A batch that starts past the end of the log has no messages.
   */
  ghost predicate PartialInputsOk(cfg: Config, d: Depths, st: Voters, log: seq<Published>, b: nat, k: nat, padding: Published,
                                  out: BatchInputs)
    requires k >= 1
  {
    && out.index == (k - 1) * b && out.batchEndIndex == BatchEnd(|log|, b, k)
    && out.inputBatchHash == Chain(cfg.h, log[..BatchEnd(|log|, b, k - 1)])
    && out.outputBatchHash == Chain(cfg.h, log[..BatchEnd(|log|, b, k)])
    && |out.messages| == |out.encryptionPublicKeys| == (if (k - 1) * b < |log| then b else 0)
    && (forall j :: 0 <= j < |out.messages| ==>
          Published(out.messages[j], out.encryptionPublicKeys[j]) == SlotAt(log, out.index + j).GetOr(padding))
    && out.currentStateRoot == StateRoot(cfg, d, st) && out.currentBallotRoot == BallotRoot(cfg, d, st)
    && out.currentSbCommitment == SbCommitment(cfg, d, st, out.currentSbSalt)
  }

  /** One call of processMessages: batch k of the log, its inputs, and the state it leaves. */
  ghost predicate BatchDone(cfg: Config, d: Depths, st: Voters, log: seq<Published>, b: nat, k: nat, padding: Published,
                            out: BatchInputs, st': Voters)
    requires VotersOk(cfg, st) && cfg.maxVoteOptions >= 1
  {
    && k >= 1 && BatchEnd(|log|, b, k - 1) <= BatchEnd(|log|, b, k)
    && PartialInputsOk(cfg, d, st, log, b, k, padding, out)
    && out.slots == BatchSlots(cfg, d, st, log, (k - 1) * b, b, BatchEnd(|log|, b, k))
    && st' == Replay(cfg, st, BatchOf(log, b, k))
    && out.newSbCommitment == SbCommitment(cfg, d, st', out.newSbSalt)
  }

  lemma AssembleBatch(cfg: Config, d: Depths, st: Voters, log: seq<Published>, b: nat, k: nat, padding: Published,
                      inputs: BatchInputs, slots: seq<SlotWitness>, salt: int, commitment: int, st': Voters)
    requires VotersOk(cfg, st) && cfg.maxVoteOptions >= 1 && k >= 1 && BatchEnd(|log|, b, k - 1) <= BatchEnd(|log|, b, k)
    requires PartialInputsOk(cfg, d, st, log, b, k, padding, inputs)
    requires slots == BatchSlots(cfg, d, st, log, (k - 1) * b, b, BatchEnd(|log|, b, k)) && st' == Replay(cfg, st, BatchOf(log, b, k))
    requires commitment == SbCommitment(cfg, d, st', salt)
    ensures BatchDone(cfg, d, st, log, b, k, padding,
                      inputs.(slots := slots, newSbSalt := salt, newSbCommitment := commitment), st')
  {
    hide BatchSlots, Replay, SlotAt, StateRoot, BallotRoot, Chain;
  }

  function Least(x: nat, y: nat): nat { if x < y then x else y }

  /** Every batch starts where the one below it ends, also past the last one. */
  lemma BatchSpan(n: nat, b: nat, k: nat)
    requires k >= 1
    ensures (k - 1) * b + b == k * b
    ensures BatchEnd(n, b, k - 1) == Least((k - 1) * b, n) <= BatchEnd(n, b, k) == Least(k * b, n)
  {
    assert (k - 1) * b + b == k * b;
  }

  /** The batches the log is closed into are exactly those that start within it. */
  lemma StartsWithin(n: nat, b: nat, k: nat)
    requires b >= 1 && k >= 1
    ensures if (k - 1) * b < n then k * b <= NumBatches(n, b) * b else NumBatches(n, b) * b <= (k - 1) * b
  {
    LastStart(n, b);
    LastBatch(n, b);
    var m := NumBatches(n, b);
    if (k - 1) * b < n {
      MulLess(b, k - 1, m);
      MulMonotonic(b, k, m);
    } else if m >= 1 {
      MulLess(b, m - 1, k - 1);
      MulMonotonic(b, m, k - 1);
    }
  }

  lemma NotFullYet(k: nat, b: nat, len: nat)
    requires b >= 1 && len <= k * b && len % b > 0
    ensures len < k * b
  {
    DivDigit(k, 0, b);
  }

  /** The padding stops at the first multiple of the batch size. */
  lemma FullNow(n: nat, b: nat, len: nat)
    requires b >= 1 && n <= len <= NumBatches(n, b) * b && len % b == 0
    ensures len == NumBatches(n, b) * b
  {
    RoundDown(len, b);
    LastStart(n, b);
    SameMultiple(b, len / b, NumBatches(n, b), n);
  }

  /** The last batch is not empty. */
  lemma LastStart(n: nat, b: nat)
    requires b >= 1
    ensures NumBatches(n, b) >= 1 ==> (NumBatches(n, b) - 1) * b < n
  {
    if NumBatches(n, b) >= 1 {
      FullBatches(n, b, NumBatches(n, b) - 1);
    }
  }

  lemma SameMultiple(b: nat, q: nat, k: nat, n: nat)
    requires n <= q * b <= k * b && b >= 1 && (k >= 1 ==> (k - 1) * b < n)
    ensures q == k
  {
    assert b * (k + 1) == k * b + b;
    MulLess(b, q, k + 1);
    if k >= 1 {
      MulLess(b, k - 1, q);
    }
  }

  lemma MulLess(b: nat, x: nat, y: nat)
    requires b * x < b * y
    ensures x < y
  {
    if x >= y {
      MulMonotonic(b, y, x);
    }
  }

  function ApplySlot(cfg: Config, st: Voters, slot: Option<Published>): (st': Voters)
    requires VotersOk(cfg, st)
    ensures VotersOk(cfg, st')
  {
    match slot
    case None => st
    case Some(m) => Apply(cfg, st, m)
  }

  /** One more slot of a batch, at its older end. */
  lemma BatchOneMore(cfg: Config, d: Depths, st: Voters, log: seq<Published>, idx: nat, count: nat, end: nat)
    requires VotersOk(cfg, st) && cfg.maxVoteOptions >= 1 && end <= |log| && (end <= idx ==> |log| <= idx)
    ensures Replay(cfg, st, log[Least(idx, end)..end])
         == ApplySlot(cfg, Replay(cfg, st, log[Least(idx + 1, end)..end]), SlotAt(log, idx))
    ensures BatchSlots(cfg, d, st, log, idx, count + 1, end)
         == [PadWitness(WitnessOf(cfg, d, Replay(cfg, st, log[Least(idx + 1, end)..end]), SlotAt(log, idx)), d.ballot)]
          + BatchSlots(cfg, d, st, log, idx + 1, count, end)
  {
    hide Replay, Apply, VotersOk, WitnessOf, PadWitness, BatchSlots;
    if idx < end {
      ReplayOneMore(cfg, st, log, idx, end);
    }
    SlotsOneMore(cfg, d, st, log, idx, count, end);
  }

  lemma SlotsOneMore(cfg: Config, d: Depths, st: Voters, log: seq<Published>, idx: nat, count: nat, end: nat)
    requires VotersOk(cfg, st) && cfg.maxVoteOptions >= 1 && end <= |log|
    ensures BatchSlots(cfg, d, st, log, idx, count + 1, end)
         == [PadWitness(WitnessOf(cfg, d, Replay(cfg, st, log[Least(idx + 1, end)..end]), SlotAt(log, idx)), d.ballot)]
          + BatchSlots(cfg, d, st, log, idx + 1, count, end)
  {
    hide Replay, WitnessOf, PadWitness, VotersOk;
    assert Before(cfg, st, log, idx, end) == Replay(cfg, st, log[Least(idx + 1, end)..end]);
  }

  /** Extending the processed part of a batch by one older message. */
  lemma ReplayOneMore(cfg: Config, st: Voters, log: seq<Published>, idx: nat, end: nat)
    requires VotersOk(cfg, st) && idx < end <= |log|
    ensures Replay(cfg, st, log[idx..end]) == Apply(cfg, Replay(cfg, st, log[idx + 1..end]), log[idx])
  {
    var newer := log[idx + 1..end];
    assert log[idx..end] == [log[idx]] + newer;
    ReplaySplit(cfg, st, [log[idx]], newer);
    var st' := Replay(cfg, st, newer);
    assert Replay(cfg, st', [log[idx]]) == Replay(cfg, Apply(cfg, st', log[idx]), []);
  }

  // ----- whole runs

  /** Calls t = 0, 1, ... process batches k, k - 1, ..., 1, each starting from the state and the salt the one before left. */
  ghost predicate Run(cfg: Config, d: Depths, log: seq<Published>, b: nat, k: nat, paddings: nat -> Published,
                      states: seq<Voters>, outs: seq<BatchInputs>)
  {
    && |outs| <= k && |states| == |outs| + 1 && cfg.maxVoteOptions >= 1
    && (forall t :: 0 <= t < |states| ==> VotersOk(cfg, states[t]))
    && (forall t :: 0 <= t < |outs| ==> BatchDone(cfg, d, states[t], log, b, k - t, paddings(k - t), outs[t], states[t + 1]))
    && (forall t :: 0 < t < |outs| ==> outs[t].currentSbSalt == outs[t - 1].newSbSalt)
  }

  /** One more call makes a run longer. */
  lemma RunExtends(cfg: Config, d: Depths, log: seq<Published>, b: nat, k: nat, paddings: nat -> Published,
                   states: seq<Voters>, outs: seq<BatchInputs>, out: BatchInputs, st: Voters)
    requires Run(cfg, d, log, b, k, paddings, states, outs) && |outs| < k && VotersOk(cfg, st)
    requires BatchDone(cfg, d, states[|outs|], log, b, k - |outs|, paddings(k - |outs|), out, st)
    requires |outs| > 0 ==> out.currentSbSalt == outs[|outs| - 1].newSbSalt
    ensures Run(cfg, d, log, b, k, paddings, states + [st], outs + [out])
  {
    hide BatchDone, VotersOk;
    var states', outs' := states + [st], outs + [out];
    forall t | 0 <= t < |outs'|
      ensures BatchDone(cfg, d, states'[t], log, b, k - t, paddings(k - t), outs'[t], states'[t + 1])
    {
      if t < |outs| {
        assert BatchDone(cfg, d, states[t], log, b, k - t, paddings(k - t), outs[t], states[t + 1]);
      }
    }
  }

  /** What a run has processed so far is the log from the end of its next batch up to where it started. */
  lemma {:induction false} RunIsReplay(cfg: Config, d: Depths, log: seq<Published>, b: nat, k: nat, paddings: nat -> Published,
                                       states: seq<Voters>, outs: seq<BatchInputs>, t: nat)
    requires Run(cfg, d, log, b, k, paddings, states, outs) && t <= |outs|
    ensures BatchEnd(|log|, b, k - t) <= BatchEnd(|log|, b, k)
    ensures states[t] == Replay(cfg, states[0], log[BatchEnd(|log|, b, k - t)..BatchEnd(|log|, b, k)])
  {
    hide PartialInputsOk, BatchSlots, SbCommitment, VotersOk, BatchEnd;
    BatchEndMonotonic(|log|, b, k - t, k);
    if t > 0 {
      RunIsReplay(cfg, d, log, b, k, paddings, states, outs, t - 1);
      assert BatchDone(cfg, d, states[t - 1], log, b, k - (t - 1), paddings(k - (t - 1)), outs[t - 1], states[t - 1 + 1]);
      JoinBatch(cfg, states[0], states[t - 1], log, b, k - (t - 1), k);
    }
  }

  lemma JoinBatch(cfg: Config, first: Voters, st: Voters, log: seq<Published>, b: nat, j: nat, k: nat)
    requires VotersOk(cfg, first) && VotersOk(cfg, st) && 1 <= j <= k
    requires BatchEnd(|log|, b, j - 1) <= BatchEnd(|log|, b, j) <= BatchEnd(|log|, b, k)
    requires st == Replay(cfg, first, log[BatchEnd(|log|, b, j)..BatchEnd(|log|, b, k)])
    ensures Replay(cfg, st, BatchOf(log, b, j)) == Replay(cfg, first, log[BatchEnd(|log|, b, j - 1)..BatchEnd(|log|, b, k)])
  {
    var older, newer := BatchOf(log, b, j), log[BatchEnd(|log|, b, j)..BatchEnd(|log|, b, k)];
    assert log[BatchEnd(|log|, b, j - 1)..BatchEnd(|log|, b, k)] == older + newer;
    ReplaySplit(cfg, first, older, newer);
  }

  /** A run over every batch leaves the leaves and ballots of one backward pass over the log, whatever the batch size. */
  lemma FullRunIsReplay(cfg: Config, d: Depths, log: seq<Published>, b: nat, paddings: nat -> Published,
                        states: seq<Voters>, outs: seq<BatchInputs>)
    requires b >= 1 && Run(cfg, d, log, b, NumBatches(|log|, b), paddings, states, outs) && |outs| == NumBatches(|log|, b)
    ensures states[|outs|] == Replay(cfg, states[0], log)
  {
    hide BatchDone, VotersOk, Replay, NumBatches;
    RunIsReplay(cfg, d, log, b, NumBatches(|log|, b), paddings, states, outs, |outs|);
    LastBatch(|log|, b);
    assert log[0..|log|] == log;
  }

  /** Hence two runs over the same log with different batch sizes end alike. */
  lemma BatchSizeDoesNotMatter(cfg: Config, d: Depths, log: seq<Published>,
                               b: nat, paddings: nat -> Published, states: seq<Voters>, outs: seq<BatchInputs>,
                               b': nat, paddings': nat -> Published, states': seq<Voters>, outs': seq<BatchInputs>)
    requires b >= 1 && Run(cfg, d, log, b, NumBatches(|log|, b), paddings, states, outs) && |outs| == NumBatches(|log|, b)
    requires b' >= 1 && Run(cfg, d, log, b', NumBatches(|log|, b'), paddings', states', outs') && |outs'| == NumBatches(|log|, b')
    requires states[0] == states'[0]
    ensures states[|outs|] == states'[|outs'|]
  {
    FullRunIsReplay(cfg, d, log, b, paddings, states, outs);
    FullRunIsReplay(cfg, d, log, b', paddings', states', outs');
  }

  /** A batch's output hash is its input hash continued with the real messages of the batch. */
  lemma BatchHashContinues(cfg: Config, d: Depths, st: Voters, log: seq<Published>, b: nat, k: nat, padding: Published, out: BatchInputs)
    requires k >= 1 && BatchEnd(|log|, b, k - 1) <= BatchEnd(|log|, b, k)
    requires PartialInputsOk(cfg, d, st, log, b, k, padding, out)
    ensures out.outputBatchHash == ChainFrom(cfg.h, out.inputBatchHash, BatchOf(log, b, k))
  {
    var lo, hi := BatchEnd(|log|, b, k - 1), BatchEnd(|log|, b, k);
    assert log[..hi] == log[..lo] + log[lo..hi];
    ChainJoin(cfg.h, NOTHING_UP_MY_SLEEVE, log[..lo], log[lo..hi]);
  }

  /** The messages and keys of a batch that are no padding. */
  function RealMessages(out: BatchInputs): seq<Published>
    requires |out.messages| == |out.encryptionPublicKeys| && out.index <= out.batchEndIndex <= out.index + |out.messages|
  {
    seq(out.batchEndIndex - out.index, j requires 0 <= j < out.batchEndIndex - out.index =>
      Published(out.messages[j], out.encryptionPublicKeys[j]))
  }

  /** With injective hashes the output hash of a batch fixes its input hash, and with it all its messages and keys. */
  lemma BatchHashFixesMessages(cfg: Config, b: nat, size: nat,
                               d: Depths, st: Voters, log: seq<Published>, k: nat, padding: Published, out: BatchInputs,
                               d': Depths, st': Voters, log': seq<Published>, k': nat, padding': Published, out': BatchInputs)
    requires Injective(cfg.h.hash2) && Injective(cfg.h.hash12) && SameSize(log, size) && SameSize(log', size)
    requires k >= 1 && (k - 1) * b < |log| && PartialInputsOk(cfg, d, st, log, b, k, padding, out)
    requires k' >= 1 && (k' - 1) * b < |log'| && PartialInputsOk(cfg, d', st', log', b, k', padding', out')
    requires out.batchEndIndex - out.index == out'.batchEndIndex - out'.index && out.outputBatchHash == out'.outputBatchHash
    ensures out.inputBatchHash == out'.inputBatchHash
    ensures out.index <= out.batchEndIndex <= out.index + |out.messages|
    ensures out'.index <= out'.batchEndIndex <= out'.index + |out'.messages|
    ensures RealMessages(out) == RealMessages(out')
  {
    hide PartialInputsOk, ChainFrom, Chain;
    RealMessagesOf(cfg, d, st, log, b, k, padding, out);
    RealMessagesOf(cfg, d', st', log', b, k', padding', out');
    var own, own' := BatchOf(log, b, k), BatchOf(log', b, k');
    assert |own| == |RealMessages(out)| && |own'| == |RealMessages(out')|;
    BatchHashContinues(cfg, d, st, log, b, k, padding, out);
    BatchHashContinues(cfg, d', st', log', b, k', padding', out');
    ChainBinds(cfg.h, out.inputBatchHash, own, out'.inputBatchHash, own', size);
  }

  lemma RealMessagesOf(cfg: Config, d: Depths, st: Voters, log: seq<Published>, b: nat, k: nat, padding: Published, out: BatchInputs)
    requires k >= 1 && (k - 1) * b < |log| && PartialInputsOk(cfg, d, st, log, b, k, padding, out)
    ensures BatchEnd(|log|, b, k - 1) <= BatchEnd(|log|, b, k) && |out.messages| == |out.encryptionPublicKeys|
    ensures out.index <= out.batchEndIndex <= out.index + |out.messages| && RealMessages(out) == BatchOf(log, b, k)
  {
    hide Chain, SbCommitment, StateRoot, BallotRoot;
    BatchSpan(|log|, b, k);
  }

  /** Consecutive calls share their endpoints: the older batch ends where the newer one begins, and commits to the same state. */
  lemma CallsAreLinked(cfg: Config, d: Depths, log: seq<Published>, b: nat, k: nat, paddings: nat -> Published,
                       states: seq<Voters>, outs: seq<BatchInputs>, t: nat)
    requires Run(cfg, d, log, b, k, paddings, states, outs) && 0 < t < |outs|
    ensures outs[t - 1].inputBatchHash == outs[t].outputBatchHash
    ensures outs[t - 1].newSbCommitment == outs[t].currentSbCommitment
  {
    assert BatchDone(cfg, d, states[t - 1], log, b, k - (t - 1), paddings(k - (t - 1)), outs[t - 1], states[t - 1 + 1]);
    assert BatchDone(cfg, d, states[t], log, b, k - t, paddings(k - t), outs[t], states[t + 1]);
  }

  /** A complete run starts from the chain hash of the whole log and ends at the fixed starting value. */
  lemma RunEndpoints(cfg: Config, d: Depths, log: seq<Published>, b: nat, paddings: nat -> Published,
                     states: seq<Voters>, outs: seq<BatchInputs>)
    requires b >= 1 && Run(cfg, d, log, b, NumBatches(|log|, b), paddings, states, outs) && |outs| == NumBatches(|log|, b) >= 1
    ensures outs[0].outputBatchHash == Chain(cfg.h, log)
    ensures outs[|outs| - 1].inputBatchHash == NOTHING_UP_MY_SLEEVE
  {
    var k := NumBatches(|log|, b);
    assert BatchDone(cfg, d, states[0], log, b, k - 0, paddings(k - 0), outs[0], states[0 + 1]);
    assert BatchDone(cfg, d, states[k - 1], log, b, k - (k - 1), paddings(k - (k - 1)), outs[k - 1], states[k - 1 + 1]);
    LastBatch(|log|, b);
    assert log[..|log|] == log;
  }

  /**
   Message i is shown by slot i % b of the call that processes batch i / b + 1: its participant and option authenticate there
   as they stood before it, and if it is accepted the slot's paths lead on to the roots after it.
   */
  lemma EveryMessageHasItsSlot(cfg: Config, d: Depths, log: seq<Published>, b: nat, paddings: nat -> Published,
                               states: seq<Voters>, outs: seq<BatchInputs>, i: nat, before: Voters)
    requires b >= 1 && Run(cfg, d, log, b, NumBatches(|log|, b), paddings, states, outs) && |outs| == NumBatches(|log|, b)
    requires PollOk(cfg, d, states[0]) && i < |log| && before == Replay(cfg, states[0], log[i + 1..])
    ensures 0 <= |outs| - 1 - i / b < |outs| && 0 <= i % b < |outs[|outs| - 1 - i / b].slots|
    ensures SlotIsRight(cfg, d, before, Some(log[i]), outs[|outs| - 1 - i / b].slots[i % b])
  {
    hide SlotIsRight, PartialInputsOk, StateRoot, BallotRoot, NumBatches, BatchEnd, VotersOk, SbCommitment;
    hide Collect, Replay;
    var n, k, q := |log|, NumBatches(|log|, b), i / b;
    SlotOfMessage(n, b, i);
    var t := k - 1 - q;
    assert k - t == q + 1;
    assert BatchDone(cfg, d, states[t], log, b, k - t, paddings(k - t), outs[t], states[t + 1]);
    RunIsReplay(cfg, d, log, b, k, paddings, states, outs, t);
    LastBatch(n, b);
    var end := BatchEnd(n, b, q + 1);
    BeforeIsBefore(cfg, states[0], states[t], log, i, end);
    ReplayKeepsPollOk(cfg, d, states[0], log[end..n]);
    EverySlotIsAuthentic(cfg, d, states[t], log, q * b, b, end, i % b, before);
  }

  lemma BeforeIsBefore(cfg: Config, first: Voters, st: Voters, log: seq<Published>, i: nat, end: nat)
    requires VotersOk(cfg, first) && i < end <= |log| && st == Replay(cfg, first, log[end..|log|])
    ensures Before(cfg, st, log, i, end) == Replay(cfg, first, log[i + 1..])
  {
    hide Replay, VotersOk;
    assert log[i + 1..] == log[i + 1..end] + log[end..|log|];
    assert VotersOk(cfg, first);
    ReplaySplit(cfg, first, log[i + 1..end], log[end..|log|]);
  }

  lemma SlotOfMessage(n: nat, b: nat, i: nat)
    requires b >= 1 && i < n
    ensures i / b + 1 <= NumBatches(n, b) && i / b * b + i % b == i && 0 <= i % b < b
    ensures BatchEnd(n, b, i / b) == i / b * b <= i < BatchEnd(n, b, i / b + 1)
    ensures (i / b + 1 - 1) * b == i / b * b
  {
    RoundDown(i, b);
    RoundDown(n, b);
    assert (i / b + 1) * b == i / b * b + b;
    assert b * (n / b + 1) == n / b * b + b;
    MulLess(b, i / b, n / b + 1);
    if n / b == i / b {
      assert n % b > 0;
    }
  }
}
