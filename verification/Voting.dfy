/**
 packages/core/ts/Poll.ts, processMessage and getVoiceCreditsLeft: what one message does to the state leaves and
 ballots, and what a whole message log does when it is processed newest first.
 */
module Voting {
  import opened DomainObjects
  import opened Results

  datatype EMode = QV | NON_QV | FULL

  datatype Message = Message(data: seq<int>)

  datatype Signature = Signature(r8: (int, int), s: int)

  /** The unpacked fields are 50-bit groups, so they are never negative. */
  datatype VoteCommand = VoteCommand(stateIndex: nat, newPublicKey: PublicKey, voteOptionIndex: nat, newVoteWeight: nat,
                                     nonce: nat, pollId: nat, salt: int)

  /** A message with the key it was encrypted to. */
  datatype Published = Published(message: Message, encryptionPublicKey: PublicKey)

  /** What a poll is set up with; decryption and signatures belong to foreign libraries and are uninterpreted. */
  datatype Config = Config(
    h: Hashes,
    mode: EMode,
    voteOptions: nat,
    voteOptionTreeDepth: nat,
    maxVoteOptions: nat,
    decrypt: Published -> Option<(VoteCommand, Signature)>,
    forceDecrypt: Published -> VoteCommand,
    verifySignature: (VoteCommand, Signature, PublicKey) -> bool)

  datatype ProcessMessageError =
    | InvalidStateLeafIndex | InvalidSignature | InvalidNonce | InvalidVoteOptionIndex
    | InsufficientVoiceCredits | InvalidVoiceCredits | FailedDecryption

  datatype Verdict = Accepted(command: VoteCommand) | Rejected(error: ProcessMessageError)

  /** One participant: a state leaf and the ballot at the same index. */
  datatype Voter = Voter(leaf: StateLeaf, ballot: Ballot)

  /** The parallel arrays of the poll. */
  datatype Voters = Voters(leaves: seq<StateLeaf>, ballots: seq<Ballot>) {
    predicate Has(i: nat) { i < |leaves| && i < |ballots| }

    function At(i: nat): Voter
      requires Has(i)
    {
      Voter(leaves[i], ballots[i])
    }

    function With(i: nat, v: Voter): Voters
      requires Has(i)
    {
      Voters(leaves[i := v.leaf], ballots[i := v.ballot])
    }
  }

  function VoiceCreditsLeft(mode: EMode, balance: int, originalVoteWeight: int, newVoteWeight: int): int {
    match mode
    case QV => balance + originalVoteWeight * originalVoteWeight - newVoteWeight * newVoteWeight
    case NON_QV => balance + originalVoteWeight - newVoteWeight
    case FULL => balance + originalVoteWeight - newVoteWeight
  }

  predicate BallotOk(cfg: Config, b: Ballot) {
    |b.votes| == cfg.maxVoteOptions && b.voteOptionTreeDepth == cfg.voteOptionTreeDepth
  }

  predicate ConfigOk(cfg: Config) {
    cfg.voteOptions <= cfg.maxVoteOptions
  }

  /** The checks on a decrypted command, in the order processMessage makes them, for the voter it names. */
  function Judge(cfg: Config, v: Voter, cmd: VoteCommand, sig: Signature): Verdict
    requires ConfigOk(cfg) && BallotOk(cfg, v.ballot)
  {
    if !cfg.verifySignature(cmd, sig, v.leaf.publicKey) then Rejected(InvalidSignature)
    else if cmd.nonce != v.ballot.nonce + 1 then Rejected(InvalidNonce)
    else if cmd.voteOptionIndex >= cfg.voteOptions then Rejected(InvalidVoteOptionIndex)
    else
      var left := VoiceCreditsLeft(cfg.mode, v.leaf.voiceCreditBalance, v.ballot.votes[cmd.voteOptionIndex], cmd.newVoteWeight);
      if left < 0 then Rejected(InsufficientVoiceCredits)
      else if cfg.mode == FULL && left > 0 then Rejected(InvalidVoiceCredits)
      else Accepted(cmd)
  }

  /** In FULL mode every other option is cleared. */
  function NewVotes(mode: EMode, votes: seq<int>, option: nat, weight: int): (r: seq<int>)
    requires option < |votes|
    ensures |r| == |votes| && r[option] == weight
    ensures forall j :: 0 <= j < |votes| && j != option ==> r[j] == if mode == FULL then 0 else votes[j]
  {
    var updated := votes[option := weight];
    if mode == FULL then seq(|votes|, j requires 0 <= j < |votes| => if j == option then updated[j] else 0) else updated
  }

  /** The voter after an accepted command. */
  function Updated(cfg: Config, v: Voter, cmd: VoteCommand): Voter
    requires ConfigOk(cfg) && BallotOk(cfg, v.ballot) && cmd.voteOptionIndex < cfg.voteOptions
  {
    var left := VoiceCreditsLeft(cfg.mode, v.leaf.voiceCreditBalance, v.ballot.votes[cmd.voteOptionIndex], cmd.newVoteWeight);
    Voter(StateLeaf(cmd.newPublicKey, left),
          v.ballot.(nonce := v.ballot.nonce + 1,
                    votes := NewVotes(cfg.mode, v.ballot.votes, cmd.voteOptionIndex, cmd.newVoteWeight)))
  }

  ghost predicate VotersOk(cfg: Config, st: Voters) {
    && ConfigOk(cfg)
    && 1 <= |st.leaves| <= |st.ballots|
    && forall i :: 0 <= i < |st.ballots| ==> BallotOk(cfg, st.ballots[i])
  }

  /** processMessage's verdict on a published message. */
  function VerdictOn(cfg: Config, st: Voters, m: Published): (v: Verdict)
    requires VotersOk(cfg, st)
    ensures v.Accepted? ==> 1 <= v.command.stateIndex < |st.leaves| && v.command.voteOptionIndex < cfg.voteOptions
  {
    match cfg.decrypt(m)
    case None => Rejected(FailedDecryption)
    case Some((cmd, sig)) =>
      if cmd.stateIndex >= |st.ballots| || cmd.stateIndex < 1 || cmd.stateIndex >= |st.leaves| then Rejected(InvalidStateLeafIndex)
      else Judge(cfg, st.At(cmd.stateIndex), cmd, sig)
  }

  /** The effect of one message: an accepted one updates its voter, any other changes nothing. */
  function Apply(cfg: Config, st: Voters, m: Published): (st': Voters)
    requires VotersOk(cfg, st)
    ensures VotersOk(cfg, st') && |st'.leaves| == |st.leaves| && |st'.ballots| == |st.ballots|
  {
    match VerdictOn(cfg, st, m)
    case Rejected(_) => st
    case Accepted(cmd) => st.With(cmd.stateIndex, Updated(cfg, st.At(cmd.stateIndex), cmd))
  }

  /** A whole log, newest message first. */
  function Replay(cfg: Config, st: Voters, log: seq<Published>): (st': Voters)
    requires VotersOk(cfg, st)
    ensures VotersOk(cfg, st') && |st'.leaves| == |st.leaves| && |st'.ballots| == |st.ballots|
    decreases |log|
  {
    if log == [] then st else Replay(cfg, Apply(cfg, st, log[|log| - 1]), log[..|log| - 1])
  }

  /** Processing a log in two pieces, the newer piece first, is processing it whole: batch boundaries do not matter. */
  lemma {:induction false} ReplaySplit(cfg: Config, st: Voters, older: seq<Published>, newer: seq<Published>)
    requires VotersOk(cfg, st)
    ensures Replay(cfg, st, older + newer) == Replay(cfg, Replay(cfg, st, newer), older)
    decreases |newer|
  {
    if newer == [] {
      assert older + newer == older;
    } else {
      var log, last := older + newer, |newer| - 1;
      assert log[|log| - 1] == newer[last];
      assert log[..|log| - 1] == older + newer[..last];
      ReplaySplit(cfg, Apply(cfg, st, newer[last]), older, newer[..last]);
    }
  }

  // ----- one voter at a time

  /** The command a message carries for voter i and the checks it passes against that voter, if it does. */
  predicate Takes(cfg: Config, i: nat, v: Voter, m: Published)
    requires ConfigOk(cfg) && BallotOk(cfg, v.ballot)
  {
    match cfg.decrypt(m)
    case None => false
    case Some((cmd, sig)) => cmd.stateIndex == i && Judge(cfg, v, cmd, sig).Accepted?
  }

  function CommandOf(cfg: Config, m: Published): VoteCommand
    requires cfg.decrypt(m).Some?
  {
    cfg.decrypt(m).value.0
  }

  function VoterStep(cfg: Config, i: nat, v: Voter, m: Published): (v': Voter)
    requires ConfigOk(cfg) && BallotOk(cfg, v.ballot)
    ensures BallotOk(cfg, v'.ballot)
  {
    if Takes(cfg, i, v, m) then Updated(cfg, v, CommandOf(cfg, m)) else v
  }

  function VoterReplay(cfg: Config, i: nat, v: Voter, log: seq<Published>): (v': Voter)
    requires ConfigOk(cfg) && BallotOk(cfg, v.ballot)
    ensures BallotOk(cfg, v'.ballot)
    decreases |log|
  {
    if log == [] then v else VoterReplay(cfg, i, VoterStep(cfg, i, v, log[|log| - 1]), log[..|log| - 1])
  }

  /** Non-interference: what happens to voter i depends on voter i alone; index 0 and spare ballots never change. */
  lemma {:induction false} ReplayIsPointwise(cfg: Config, st: Voters, log: seq<Published>)
    requires VotersOk(cfg, st)
    ensures forall i :: 1 <= i < |st.leaves| ==>
      Replay(cfg, st, log).At(i) == VoterReplay(cfg, i, st.At(i), log)
    ensures Replay(cfg, st, log).At(0) == st.At(0)
    ensures forall i :: |st.leaves| <= i < |st.ballots| ==> Replay(cfg, st, log).ballots[i] == st.ballots[i]
    decreases |log|
  {
    if log != [] {
      var m := log[|log| - 1];
      var st' := Apply(cfg, st, m);
      ReplayIsPointwise(cfg, st', log[..|log| - 1]);
      forall i | 1 <= i < |st.leaves|
        ensures st'.At(i) == VoterStep(cfg, i, st.At(i), m)
      {
      }
    }
  }
}
