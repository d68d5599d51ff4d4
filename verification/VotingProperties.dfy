/** What holds of every voter over every message log: credits, nonces, key changes, the last vote winning. */
module VotingProperties {
  import opened DomainObjects
  import opened Results
  import opened Voting

  function Price(mode: EMode, vote: int): int {
    if mode == QV then vote * vote else vote
  }

  /** The credits spent on a vote vector: the sum of the votes, or of their squares in QV. */
  function Cost(mode: EMode, votes: seq<int>): int {
    if votes == [] then 0 else Cost(mode, votes[..|votes| - 1]) + Price(mode, votes[|votes| - 1])
  }

  lemma {:induction false} CostOfUpdate(mode: EMode, votes: seq<int>, option: nat, weight: int)
    requires option < |votes|
    ensures Cost(mode, votes[option := weight]) == Cost(mode, votes) - Price(mode, votes[option]) + Price(mode, weight)
  {
    var last := |votes| - 1;
    if option == last {
      assert votes[option := weight][..last] == votes[..last];
    } else {
      assert votes[option := weight][..last] == votes[..last][option := weight];
      CostOfUpdate(mode, votes[..last], option, weight);
    }
  }

  lemma {:induction false} CostOfZeros(mode: EMode, votes: seq<int>)
    requires forall j :: 0 <= j < |votes| ==> votes[j] == 0
    ensures Cost(mode, votes) == 0
  {
    if votes != [] {
      CostOfZeros(mode, votes[..|votes| - 1]);
    }
  }

  /** Everything a voter holds: the balance and the price of the votes cast. */
  function Holdings(mode: EMode, v: Voter): int {
    v.leaf.voiceCreditBalance + Cost(mode, v.ballot.votes)
  }

  /** The command names a joined voter and an option, is signed by the voter's current key and carries the next nonce. */
  ghost predicate WellAddressed(cfg: Config, st: Voters, cmd: VoteCommand, sig: Signature) {
    && 1 <= cmd.stateIndex < |st.leaves| && st.Has(cmd.stateIndex) && cmd.voteOptionIndex < cfg.voteOptions
    && cfg.verifySignature(cmd, sig, st.leaves[cmd.stateIndex].publicKey)
    && cmd.nonce == st.ballots[cmd.stateIndex].nonce + 1
  }

  /** The price of the voter's ballot with the new vote on it. */
  ghost function NewPrice(cfg: Config, st: Voters, cmd: VoteCommand): int
    requires VotersOk(cfg, st) && st.Has(cmd.stateIndex) && cmd.voteOptionIndex < cfg.voteOptions
  {
    Cost(cfg.mode, st.ballots[cmd.stateIndex].votes[cmd.voteOptionIndex := cmd.newVoteWeight])
  }

  /**
   A message is accepted exactly when it is well addressed and the voter's holdings pay for the ballot with the new vote
   on it; in FULL mode the price must be all of the holdings. What is wrong with the price decides the error.
   */
  lemma AcceptedIffAffordable(cfg: Config, st: Voters, m: Published, cmd: VoteCommand, sig: Signature)
    requires VotersOk(cfg, st) && cfg.decrypt(m) == Some((cmd, sig))
    ensures VerdictOn(cfg, st, m) == Accepted(cmd) <==>
              && WellAddressed(cfg, st, cmd, sig)
              && NewPrice(cfg, st, cmd) <= Holdings(cfg.mode, st.At(cmd.stateIndex))
              && (cfg.mode == FULL ==> NewPrice(cfg, st, cmd) == Holdings(FULL, st.At(cmd.stateIndex)))
    ensures VerdictOn(cfg, st, m) == Rejected(InsufficientVoiceCredits) <==>
              WellAddressed(cfg, st, cmd, sig) && NewPrice(cfg, st, cmd) > Holdings(cfg.mode, st.At(cmd.stateIndex))
    ensures VerdictOn(cfg, st, m) == Rejected(InvalidVoiceCredits) <==>
              && WellAddressed(cfg, st, cmd, sig) && cfg.mode == FULL
              && NewPrice(cfg, st, cmd) < Holdings(FULL, st.At(cmd.stateIndex))
  {
    hide Cost;
    if st.Has(cmd.stateIndex) && cmd.voteOptionIndex < cfg.voteOptions {
      CostOfUpdate(cfg.mode, st.ballots[cmd.stateIndex].votes, cmd.voteOptionIndex, cmd.newVoteWeight);
    }
  }

  /**
   What an accepted message does: its voter gets the new key, the next nonce and the new vote, paid from the balance, which
   is used up in FULL mode; in FULL mode the other votes are cleared, otherwise they stay. Nobody else changes.
   */
  lemma AcceptedMessage(cfg: Config, st: Voters, m: Published)
    requires VotersOk(cfg, st) && VerdictOn(cfg, st, m).Accepted?
    ensures cfg.decrypt(m).Some?
    ensures var cmd, st' := cfg.decrypt(m).value.0, Apply(cfg, st, m);
            var i, o := cmd.stateIndex, cmd.voteOptionIndex;
            && 1 <= i < |st.leaves| && o < cfg.voteOptions
            && st'.leaves[i].publicKey == cmd.newPublicKey && st'.ballots[i].nonce == cmd.nonce == st.ballots[i].nonce + 1
            && st'.ballots[i].votes[o] == cmd.newVoteWeight && st'.leaves[i].voiceCreditBalance >= 0
            && (forall j :: 0 <= j < cfg.maxVoteOptions && j != o ==>
                  st'.ballots[i].votes[j] == if cfg.mode == FULL then 0 else st.ballots[i].votes[j])
            && (cfg.mode == FULL ==> st'.leaves[i].voiceCreditBalance == 0)
            && st'.leaves[i].voiceCreditBalance == st.leaves[i].voiceCreditBalance
                 + (var was, now := st.ballots[i].votes[o], cmd.newVoteWeight; if cfg.mode == QV then was * was - now * now else was - now)
            && (cfg.mode != FULL ==> Holdings(cfg.mode, st'.At(i)) == Holdings(cfg.mode, st.At(i)))
            && (forall j :: 0 <= j < |st.leaves| && j != i ==> st'.leaves[j] == st.leaves[j])
            && forall j :: 0 <= j < |st.ballots| && j != i ==> st'.ballots[j] == st.ballots[j]
  {
    var cmd := cfg.decrypt(m).value.0;
    var votes := st.ballots[cmd.stateIndex].votes;
    CostOfUpdate(cfg.mode, votes, cmd.voteOptionIndex, cmd.newVoteWeight);
    if cfg.mode != FULL {
      assert NewVotes(cfg.mode, votes, cmd.voteOptionIndex, cmd.newVoteWeight) == votes[cmd.voteOptionIndex := cmd.newVoteWeight];
    }
  }

  lemma StepConserves(cfg: Config, i: nat, v: Voter, m: Published)
    requires ConfigOk(cfg) && BallotOk(cfg, v.ballot) && cfg.mode != FULL && v.leaf.voiceCreditBalance >= 0
    ensures VoterStep(cfg, i, v, m).leaf.voiceCreditBalance >= 0
    ensures Holdings(cfg.mode, VoterStep(cfg, i, v, m)) == Holdings(cfg.mode, v)
  {
    if Takes(cfg, i, v, m) {
      var cmd := CommandOf(cfg, m);
      CostOfUpdate(cfg.mode, v.ballot.votes, cmd.voteOptionIndex, cmd.newVoteWeight);
    }
  }

  /** In QV and NON_QV no message log creates or destroys credits, and no balance goes below zero. */
  lemma {:induction false} CreditsAreConserved(cfg: Config, i: nat, v: Voter, log: seq<Published>)
    requires ConfigOk(cfg) && BallotOk(cfg, v.ballot) && cfg.mode != FULL && v.leaf.voiceCreditBalance >= 0
    ensures VoterReplay(cfg, i, v, log).leaf.voiceCreditBalance >= 0
    ensures Holdings(cfg.mode, VoterReplay(cfg, i, v, log)) == Holdings(cfg.mode, v)
    decreases |log|
  {
    if log != [] {
      var m := log[|log| - 1];
      StepConserves(cfg, i, v, m);
      CreditsAreConserved(cfg, i, VoterStep(cfg, i, v, m), log[..|log| - 1]);
    }
  }

  // ----- FULL mode

  /** Joined with some credits and not voted yet. */
  ghost predicate Untouched(v: Voter, credits: int) {
    v.leaf.voiceCreditBalance == credits && forall j :: 0 <= j < |v.ballot.votes| ==> v.ballot.votes[j] == 0
  }

  /** All the credits gone, at most one option voted for, and that one with all of them. */
  ghost predicate AllSpent(v: Voter, credits: int) {
    && v.leaf.voiceCreditBalance == 0
    && (forall j :: 0 <= j < |v.ballot.votes| ==> v.ballot.votes[j] == 0 || v.ballot.votes[j] == credits)
    && (forall j, k :: 0 <= j < k < |v.ballot.votes| ==> v.ballot.votes[j] == 0 || v.ballot.votes[k] == 0)
  }

  lemma FullStep(cfg: Config, i: nat, v: Voter, m: Published, credits: int)
    requires ConfigOk(cfg) && BallotOk(cfg, v.ballot) && cfg.mode == FULL && Takes(cfg, i, v, m)
    requires Untouched(v, credits) || AllSpent(v, credits)
    ensures AllSpent(VoterStep(cfg, i, v, m), credits)
  {
  }

  /** In FULL mode a voter either has no accepted message and is unchanged, or has spent everything on at most one option. */
  lemma {:induction false} FullIsAllOrNothing(cfg: Config, i: nat, v: Voter, log: seq<Published>, credits: int)
    requires ConfigOk(cfg) && BallotOk(cfg, v.ballot) && cfg.mode == FULL
    requires Untouched(v, credits) || AllSpent(v, credits)
    ensures var v' := VoterReplay(cfg, i, v, log);
            v' == v || AllSpent(v', credits)
    decreases |log|
  {
    if log != [] {
      var m := log[|log| - 1];
      if Takes(cfg, i, v, m) {
        FullStep(cfg, i, v, m, credits);
      }
      FullIsAllOrNothing(cfg, i, VoterStep(cfg, i, v, m), log[..|log| - 1], credits);
    }
  }

  lemma {:induction false} CostOfSingle(mode: EMode, votes: seq<int>, option: nat)
    requires option < |votes| && forall j :: 0 <= j < |votes| && j != option ==> votes[j] == 0
    ensures Cost(mode, votes) == Price(mode, votes[option])
  {
    var cleared := votes[option := 0];
    CostOfZeros(mode, cleared);
    CostOfUpdate(mode, votes, option, 0);
  }

  /** FULL mode loses credits: an accepted message conserves a voter's holdings iff the other options hold nothing. */
  lemma FullConservesIff(cfg: Config, i: nat, v: Voter, m: Published)
    requires ConfigOk(cfg) && BallotOk(cfg, v.ballot) && cfg.mode == FULL && Takes(cfg, i, v, m)
    ensures Holdings(FULL, VoterStep(cfg, i, v, m)) == Holdings(FULL, v)
       <==> Cost(FULL, v.ballot.votes[CommandOf(cfg, m).voteOptionIndex := 0]) == 0
  {
    var cmd := CommandOf(cfg, m);
    var v' := VoterStep(cfg, i, v, m);
    CostOfSingle(FULL, v'.ballot.votes, cmd.voteOptionIndex);
    CostOfUpdate(FULL, v.ballot.votes, cmd.voteOptionIndex, 0);
  }

  /** In the states FULL mode can reach, that means: iff the message votes for the option already holding the credits. */
  lemma FullConservesIffSameOption(cfg: Config, i: nat, v: Voter, m: Published, credits: int)
    requires ConfigOk(cfg) && BallotOk(cfg, v.ballot) && cfg.mode == FULL && Takes(cfg, i, v, m)
    requires Untouched(v, credits) || AllSpent(v, credits)
    ensures Holdings(FULL, VoterStep(cfg, i, v, m)) == Holdings(FULL, v)
       <==> forall j :: 0 <= j < |v.ballot.votes| && j != CommandOf(cfg, m).voteOptionIndex ==> v.ballot.votes[j] == 0
  {
    var option := CommandOf(cfg, m).voteOptionIndex;
    var others := v.ballot.votes[option := 0];
    FullConservesIff(cfg, i, v, m);
    assert forall j :: 0 <= j < |others| && j != option ==> v.ballot.votes[j] == others[j];
    if j :| 0 <= j < |others| && others[j] != 0 {
      assert forall k :: 0 <= k < |others| && k != j ==> others[k] == 0;
      CostOfSingle(FULL, others, j);
    } else {
      CostOfZeros(FULL, others);
    }
  }

  /** A FULL poll in which a voter's older message with weight 0 for another option wipes the vote out. */
  lemma FullCanBurnCredits() returns (cfg: Config, v: Voter, log: seq<Published>)
    ensures ConfigOk(cfg) && BallotOk(cfg, v.ballot) && cfg.mode == FULL && Untouched(v, 5)
    ensures Holdings(FULL, v) == 5 && Holdings(FULL, VoterReplay(cfg, 1, v, log)) == 0
  {
    var key := PublicKey(1, 2);
    var sig := Signature((0, 0), 0);
    var h := Hashes(_ => 1, _ => 1, _ => 1, _ => 1);
    var newest, older := VoteCommand(1, key, 0, 5, 1, 0, 0), VoteCommand(1, key, 1, 0, 2, 0, 0);
    cfg := Config(h, FULL, 2, 1, 2,
                  (p: Published) => if p.message.data == [0] then Some((newest, sig)) else Some((older, sig)),
                  (p: Published) => newest, (c, s, k) => true);
    v := Voter(StateLeaf(key, 5), Ballot([0, 0], 0, 1));
    log := [Published(Message([1]), key), Published(Message([0]), key)];
    var v1 := VoterStep(cfg, 1, v, log[1]);
    assert v1.ballot.votes == [5, 0] && v1.leaf.voiceCreditBalance == 0;
    var v2 := VoterStep(cfg, 1, v1, log[0]);
    assert v2.ballot.votes == [0, 0] && v2.leaf.voiceCreditBalance == 0;
    assert log[..1][..0] == [] && log[..1][0] == log[0];
    assert VoterReplay(cfg, 1, v1, log[..1]) == v2;
    CostOfZeros(FULL, v.ballot.votes);
    CostOfZeros(FULL, v2.ballot.votes);
  }

  // ----- nonces

  /** The nonces of a voter's accepted commands, newest message first. */
  function AcceptedNonces(cfg: Config, i: nat, v: Voter, log: seq<Published>): seq<int>
    requires ConfigOk(cfg) && BallotOk(cfg, v.ballot)
    decreases |log|
  {
    if log == [] then []
    else
      var m := log[|log| - 1];
      var rest := AcceptedNonces(cfg, i, VoterStep(cfg, i, v, m), log[..|log| - 1]);
      if Takes(cfg, i, v, m) then [CommandOf(cfg, m).nonce] + rest else rest
  }

  /** The ballot's nonce counts its accepted commands, whose nonces are consecutive, newest first. */
  lemma {:induction false} NonceCountsAccepted(cfg: Config, i: nat, v: Voter, log: seq<Published>)
    requires ConfigOk(cfg) && BallotOk(cfg, v.ballot)
    ensures VoterReplay(cfg, i, v, log).ballot.nonce == v.ballot.nonce + |AcceptedNonces(cfg, i, v, log)|
    ensures forall k :: 0 <= k < |AcceptedNonces(cfg, i, v, log)| ==>
      AcceptedNonces(cfg, i, v, log)[k] == v.ballot.nonce + 1 + k
    decreases |log|
  {
    if log != [] {
      NonceCountsAccepted(cfg, i, VoterStep(cfg, i, v, log[|log| - 1]), log[..|log| - 1]);
    }
  }

  // ----- key changes

  /** Some message in the log is for voter i and signed by the given key. */
  ghost predicate SignedFor(cfg: Config, i: nat, key: PublicKey, m: Published) {
    match cfg.decrypt(m)
    case None => false
    case Some((cmd, sig)) => cmd.stateIndex == i && cfg.verifySignature(cmd, sig, key)
  }

  /** Messages not signed by a voter's current key change nothing for the voter. */
  lemma {:induction false} UnsignedChangeNothing(cfg: Config, i: nat, v: Voter, log: seq<Published>)
    requires ConfigOk(cfg) && BallotOk(cfg, v.ballot)
    requires forall m :: m in log ==> !SignedFor(cfg, i, v.leaf.publicKey, m)
    ensures VoterReplay(cfg, i, v, log) == v
    decreases |log|
  {
    if log != [] {
      assert !SignedFor(cfg, i, v.leaf.publicKey, log[|log| - 1]);
      UnsignedChangeNothing(cfg, i, v, log[..|log| - 1]);
    }
  }

  /** After an accepted key change every older message not signed by the new key is rejected, whatever the old key signed. */
  lemma KeyChangeLocksOut(cfg: Config, i: nat, v: Voter, older: seq<Published>, change: Published)
    requires ConfigOk(cfg) && BallotOk(cfg, v.ballot) && Takes(cfg, i, v, change)
    requires forall m :: m in older ==> !SignedFor(cfg, i, CommandOf(cfg, change).newPublicKey, m)
    ensures VoterReplay(cfg, i, v, older + [change]) == VoterStep(cfg, i, v, change)
  {
    var log := older + [change];
    assert log[..|log| - 1] == older;
    UnsignedChangeNothing(cfg, i, VoterStep(cfg, i, v, change), older);
  }

  // ----- the front end's votes, which all carry nonce 1

  ghost predicate NonceOneOnly(cfg: Config, i: nat, log: seq<Published>) {
    forall m :: m in log && cfg.decrypt(m).Some? && CommandOf(cfg, m).stateIndex == i ==> CommandOf(cfg, m).nonce == 1
  }

  lemma {:induction false} NonceOneTakenOnce(cfg: Config, i: nat, v: Voter, log: seq<Published>)
    requires ConfigOk(cfg) && BallotOk(cfg, v.ballot) && NonceOneOnly(cfg, i, log) && v.ballot.nonce >= 1
    ensures VoterReplay(cfg, i, v, log) == v
    decreases |log|
  {
    if log != [] {
      assert log[|log| - 1] in log;
      NonceOneTakenOnce(cfg, i, v, log[..|log| - 1]);
    }
  }

  /** The place of the latest message that passes the checks against the voter as joined, or -1. */
  function LatestPassing(cfg: Config, i: nat, v: Voter, log: seq<Published>): (k: int)
    requires ConfigOk(cfg) && BallotOk(cfg, v.ballot)
    ensures -1 <= k < |log| && (k >= 0 ==> Takes(cfg, i, v, log[k]))
    ensures forall j :: k < j < |log| ==> !Takes(cfg, i, v, log[j])
    decreases |log|
  {
    if log == [] then -1
    else if Takes(cfg, i, v, log[|log| - 1]) then |log| - 1
    else LatestPassing(cfg, i, v, log[..|log| - 1])
  }

  /** If all of a voter's messages carry nonce 1, only the latest one that passes the other checks takes effect. */
  lemma {:induction false} LatestVoteWins(cfg: Config, i: nat, v: Voter, log: seq<Published>)
    requires ConfigOk(cfg) && BallotOk(cfg, v.ballot) && NonceOneOnly(cfg, i, log) && v.ballot.nonce == 0
    ensures var k := LatestPassing(cfg, i, v, log);
            VoterReplay(cfg, i, v, log) == if k < 0 then v else Updated(cfg, v, CommandOf(cfg, log[k]))
    decreases |log|
  {
    if log != [] {
      var older := log[..|log| - 1];
      if Takes(cfg, i, v, log[|log| - 1]) {
        NonceOneTakenOnce(cfg, i, VoterStep(cfg, i, v, log[|log| - 1]), older);
      } else {
        LatestVoteWins(cfg, i, v, older);
      }
    }
  }
}
