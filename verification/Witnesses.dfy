/** What processMessages emits for one message slot, and why every slot authenticates against the trees it was read from. */
module Witnesses {
  import opened Powers
  import opened Merkle
  import opened DomainObjects
  import opened Results
  import opened Voting

  /** The blank leaf's key is the first Pedersen base point of circomlib. */
  const BLANK_STATE_LEAF: StateLeaf := StateLeaf(
    PublicKey(10457101036533406547632367118273992217979173478358440826365724437999023779287,
              19824078218392094440610104313265183977899662750282163392862422243483260492317), 0)

  function BlankBallotOf(cfg: Config): Ballot {
    BlankBallot(cfg.maxVoteOptions, cfg.voteOptionTreeDepth)
  }

  function StateShape(cfg: Config, depth: nat): Shape {
    Shape(STATE_TREE_ARITY, depth, BLANK_STATE_LEAF.Hash(cfg.h), cfg.h.hash2)
  }

  function BallotShape(cfg: Config, depth: nat): Shape {
    Shape(STATE_TREE_ARITY, depth, BlankBallotOf(cfg).Hash(cfg.h), cfg.h.hash2)
  }

  function StateHashes(cfg: Config, leaves: seq<StateLeaf>): (r: seq<int>)
    ensures |r| == |leaves| && forall i :: 0 <= i < |leaves| ==> r[i] == leaves[i].Hash(cfg.h)
  {
    seq(|leaves|, i requires 0 <= i < |leaves| => leaves[i].Hash(cfg.h))
  }

  function BallotHashes(cfg: Config, ballots: seq<Ballot>): (r: seq<int>)
    ensures |r| == |ballots| && forall i :: 0 <= i < |ballots| ==> r[i] == ballots[i].Hash(cfg.h)
  {
    seq(|ballots|, i requires 0 <= i < |ballots| => ballots[i].Hash(cfg.h))
  }

  /** The depth of the poll state tree and of the ballot tree. */
  datatype Depths = Depths(state: nat, ballot: nat)

  function StateRoot(cfg: Config, d: Depths, st: Voters): int { Root(StateShape(cfg, d.state), StateHashes(cfg, st.leaves)) }

  function BallotRoot(cfg: Config, d: Depths, st: Voters): int { Root(BallotShape(cfg, d.ballot), BallotHashes(cfg, st.ballots)) }

  /** The trees can hold the arrays; index 0 is the blank participant. */
  ghost predicate PollOk(cfg: Config, d: Depths, st: Voters) {
    && VotersOk(cfg, st) && cfg.h.NonZero()
    && cfg.voteOptionTreeDepth >= 1 && 1 <= cfg.maxVoteOptions == Pow(5, cfg.voteOptionTreeDepth)
    && d.state >= 1 && d.ballot >= 1
    && |st.leaves| <= Pow(2, d.state) && |st.ballots| <= Pow(2, d.ballot)
    && st.leaves[0] == BLANK_STATE_LEAF && st.ballots[0] == BlankBallotOf(cfg)
  }

  lemma ReplayKeepsPollOk(cfg: Config, d: Depths, st: Voters, log: seq<Published>)
    requires PollOk(cfg, d, st)
    ensures PollOk(cfg, d, Replay(cfg, st, log))
  {
    ReplayIsPointwise(cfg, st, log);
    assert Replay(cfg, st, log).At(0) == st.At(0);
  }

  /** One entry of each of the six parallel output arrays. */
  datatype SlotWitness = SlotWitness(leaf: StateLeaf, statePath: seq<seq<int>>, ballot: Ballot, ballotPath: seq<seq<int>>,
                                     voteWeight: int, votePath: seq<seq<int>>)

  /** The participant a slot shows: the voter of an accepted message, else the one a forced decryption names, else 0. */
  function SlotIndex(cfg: Config, st: Voters, slot: Option<Published>): (i: nat)
    requires VotersOk(cfg, st)
    ensures i < |st.leaves|
  {
    match slot
    case None => 0
    case Some(m) =>
      match VerdictOn(cfg, st, m)
      case Accepted(cmd) => cmd.stateIndex
      case Rejected(_) => if cfg.forceDecrypt(m).stateIndex < |st.leaves| then cfg.forceDecrypt(m).stateIndex else 0
  }

  function SlotOption(cfg: Config, st: Voters, slot: Option<Published>): (o: nat)
    requires VotersOk(cfg, st)
    ensures cfg.maxVoteOptions >= 1 ==> o < cfg.maxVoteOptions
  {
    match slot
    case None => 0
    case Some(m) =>
      match VerdictOn(cfg, st, m)
      case Accepted(cmd) => cmd.voteOptionIndex
      case Rejected(_) =>
        var cmd := cfg.forceDecrypt(m);
        if cmd.stateIndex < |st.leaves| && cmd.voteOptionIndex < cfg.voteOptions then cmd.voteOptionIndex else 0
  }

  /** The witness of participant i and option o, read from the arrays alone. */
  function WitnessAt(cfg: Config, d: Depths, st: Voters, i: nat, o: nat): SlotWitness
    requires VotersOk(cfg, st) && i < |st.leaves| && o < cfg.maxVoteOptions
  {
    var b := st.ballots[i];
    SlotWitness(st.leaves[i], PathElements(StateShape(cfg, d.state), StateHashes(cfg, st.leaves), i),
                b, PathElements(BallotShape(cfg, d.ballot), BallotHashes(cfg, st.ballots), i),
                b.votes[o], PathElements(VoteShape(cfg.h, cfg.voteOptionTreeDepth), b.votes, o))
  }

  function WitnessOf(cfg: Config, d: Depths, st: Voters, slot: Option<Published>): SlotWitness
    requires VotersOk(cfg, st) && cfg.maxVoteOptions >= 1
  {
    WitnessAt(cfg, d, st, SlotIndex(cfg, st, slot), SlotOption(cfg, st, slot))
  }

  /** Shorter state paths are filled up with [0] to the full depth. */
  function PadPath(path: seq<seq<int>>, n: nat): (r: seq<seq<int>>)
    ensures |r| == if |path| < n then n else |path|
    ensures r[..|path|] == path
  {
    path + seq(if |path| < n then n - |path| else 0, _ => [0])
  }

  function PadWitness(w: SlotWitness, n: nat): SlotWitness {
    w.(statePath := PadPath(w.statePath, n))
  }

  /** The log entry at position idx, or padding beyond the log. */
  function SlotAt(log: seq<Published>, idx: nat): Option<Published> {
    if idx < |log| then Some(log[idx]) else None
  }

  /** Participant `i` of the output authenticates to both roots, and the vote weight to the vote root hashed into the ballot. */
  ghost predicate Authentic(cfg: Config, d: Depths, w: SlotWitness, i: nat, o: nat, stateRoot: int, ballotRoot: int) {
    && |w.statePath| >= d.state
    && Accepts(cfg.h.hash2, Proof(w.statePath[..d.state], PathIndices(StateShape(cfg, d.state), i), stateRoot, w.leaf.Hash(cfg.h)))
    && Accepts(cfg.h.hash2, Proof(w.ballotPath, PathIndices(BallotShape(cfg, d.ballot), i), ballotRoot, w.ballot.Hash(cfg.h)))
    && w.ballot.voteOptionTreeDepth == cfg.voteOptionTreeDepth
    && Accepts(cfg.h.hash5, Proof(w.votePath, PathIndices(VoteShape(cfg.h, cfg.voteOptionTreeDepth), o),
                                  VoteRoot(cfg.h, cfg.voteOptionTreeDepth, w.ballot.votes), w.voteWeight))
  }

  lemma WitnessIsAuthentic(cfg: Config, d: Depths, st: Voters, i: nat, o: nat)
    requires PollOk(cfg, d, st) && i < |st.leaves| && o < cfg.maxVoteOptions
    ensures Authentic(cfg, d, PadWitness(WitnessAt(cfg, d, st, i, o), d.ballot), i, o, StateRoot(cfg, d, st), BallotRoot(cfg, d, st))
  {
    var w := WitnessAt(cfg, d, st, i, o);
    ProofsAreAccepted(StateShape(cfg, d.state), StateHashes(cfg, st.leaves), i);
    ProofsAreAccepted(BallotShape(cfg, d.ballot), BallotHashes(cfg, st.ballots), i);
    ProofsAreAccepted(VoteShape(cfg.h, cfg.voteOptionTreeDepth), w.ballot.votes, o);
    assert PadWitness(w, d.ballot).statePath[..d.state] == w.statePath;
  }

  /** The participants as they stood just before log entry idx was processed, in a batch that ends before `end`. */
  function Before(cfg: Config, st: Voters, log: seq<Published>, idx: nat, end: nat): (st': Voters)
    requires VotersOk(cfg, st) && end <= |log|
    ensures VotersOk(cfg, st') && |st'.leaves| == |st.leaves| && |st'.ballots| == |st.ballots|
  {
    Replay(cfg, st, log[if idx < end then idx + 1 else end..end])
  }

  /** The slot of log entry idx: what the message was judged against. */
  function BatchSlot(cfg: Config, d: Depths, st: Voters, log: seq<Published>, idx: nat, end: nat): SlotWitness
    requires VotersOk(cfg, st) && cfg.maxVoteOptions >= 1 && end <= |log|
  {
    PadWitness(WitnessOf(cfg, d, Before(cfg, st, log, idx, end), SlotAt(log, idx)), d.ballot)
  }

  /** The values of f at start, start + 1, ... */
  function Collect<T>(f: nat -> T, start: nat, count: nat): (r: seq<T>)
    ensures |r| == count
    decreases count
  {
    if count == 0 then [] else [f(start)] + Collect(f, start + 1, count - 1)
  }

  lemma {:induction false} CollectAt<T>(f: nat -> T, start: nat, count: nat, j: nat)
    requires j < count
    ensures Collect(f, start, count)[j] == f(start + j)
    decreases count
  {
    if j > 0 {
      CollectAt(f, start + 1, count - 1, j - 1);
      assert start + 1 + (j - 1) == start + j;
    }
  }

  /** The slots of log entries, as a function of their position. */
  function SlotReader(cfg: Config, d: Depths, st: Voters, log: seq<Published>, end: nat): nat -> SlotWitness
    requires VotersOk(cfg, st) && cfg.maxVoteOptions >= 1 && end <= |log|
  {
    (idx: nat) => BatchSlot(cfg, d, st, log, idx, end)
  }

  /** The slots of a batch of log entries start .. start + count, padded past the end of the log, oldest first. */
  function BatchSlots(cfg: Config, d: Depths, st: Voters, log: seq<Published>, start: nat, count: nat, end: nat): (r: seq<SlotWitness>)
    requires VotersOk(cfg, st) && cfg.maxVoteOptions >= 1 && end <= |log|
    ensures |r| == count
  {
    Collect(SlotReader(cfg, d, st, log, end), start, count)
  }

  // ----- what a slot shows

  /** The slot shows participant i and option o as they stand, and authenticates to the two roots; short paths end in [0]. */
  ghost predicate Shows(cfg: Config, d: Depths, st: Voters, w: SlotWitness, i: nat, o: nat)
    requires VotersOk(cfg, st)
  {
    && i < |st.leaves| && o < cfg.maxVoteOptions
    && w.leaf == st.leaves[i] && w.ballot == st.ballots[i] && w.voteWeight == st.ballots[i].votes[o]
    && Authentic(cfg, d, w, i, o, StateRoot(cfg, d, st), BallotRoot(cfg, d, st))
    && |w.statePath| == (if d.state < d.ballot then d.ballot else d.state)
    && forall l :: d.state <= l < |w.statePath| ==> w.statePath[l] == [0]
  }

  /**
   Put in the place of what the slot shows, the new leaf and the new ballot climb the slot's own paths to the roots after
   the message, and the new vote climbs its path to the root of the votes with it.
   */
  ghost predicate Carries(cfg: Config, d: Depths, w: SlotWitness, cmd: VoteCommand, st': Voters) {
    var i, o := cmd.stateIndex, cmd.voteOptionIndex;
    && st'.Has(i) && |w.statePath| >= d.state && o < |w.ballot.votes|
    && Climb(cfg.h.hash2, w.statePath[..d.state], PathIndices(StateShape(cfg, d.state), i), 0, st'.leaves[i].Hash(cfg.h))
       == StateRoot(cfg, d, st')
    && Climb(cfg.h.hash2, w.ballotPath, PathIndices(BallotShape(cfg, d.ballot), i), 0, st'.ballots[i].Hash(cfg.h))
       == BallotRoot(cfg, d, st')
    && Climb(cfg.h.hash5, w.votePath, PathIndices(VoteShape(cfg.h, cfg.voteOptionTreeDepth), o), 0, cmd.newVoteWeight)
       == VoteRoot(cfg.h, cfg.voteOptionTreeDepth, w.ballot.votes[o := cmd.newVoteWeight])
    && (cfg.mode != FULL ==> st'.ballots[i].votes == w.ballot.votes[o := cmd.newVoteWeight])
  }

  /**
   An accepted message's slot shows the voter and the option its decrypted command names, and carries the state on. A
   rejected one's shows whom a forced decryption names, with option 0 where that is out of range, and participant 0 where
   there is no such participant; padding shows participant 0.
   */
  ghost predicate SlotIsRight(cfg: Config, d: Depths, st: Voters, slot: Option<Published>, w: SlotWitness)
    requires VotersOk(cfg, st)
  {
    match slot
    case None => Shows(cfg, d, st, w, 0, 0)
    case Some(m) =>
      if VerdictOn(cfg, st, m).Accepted? then
        && cfg.decrypt(m).Some?
        && Shows(cfg, d, st, w, cfg.decrypt(m).value.0.stateIndex, cfg.decrypt(m).value.0.voteOptionIndex)
        && Carries(cfg, d, w, cfg.decrypt(m).value.0, Apply(cfg, st, m))
      else
        var forced := cfg.forceDecrypt(m);
        if forced.stateIndex >= |st.leaves| then Shows(cfg, d, st, w, 0, 0)
        else Shows(cfg, d, st, w, forced.stateIndex, if forced.voteOptionIndex < cfg.voteOptions then forced.voteOptionIndex else 0)
  }

  lemma WitnessShows(cfg: Config, d: Depths, st: Voters, i: nat, o: nat)
    requires PollOk(cfg, d, st) && i < |st.leaves| && o < cfg.maxVoteOptions
    ensures Shows(cfg, d, st, PadWitness(WitnessAt(cfg, d, st, i, o), d.ballot), i, o)
  {
    hide Authentic, StateRoot, BallotRoot;
    WitnessIsAuthentic(cfg, d, st, i, o);
  }

  lemma WitnessCarries(cfg: Config, d: Depths, st: Voters, m: Published)
    requires PollOk(cfg, d, st) && VerdictOn(cfg, st, m).Accepted?
    ensures cfg.decrypt(m).Some?
    ensures var cmd := cfg.decrypt(m).value.0;
            && cmd.stateIndex < |st.leaves| && cmd.voteOptionIndex < cfg.maxVoteOptions
            && Carries(cfg, d, PadWitness(WitnessAt(cfg, d, st, cmd.stateIndex, cmd.voteOptionIndex), d.ballot), cmd, Apply(cfg, st, m))
  {
    hide PathElements, PathIndices, Climb, Root;
    var cmd, st' := cfg.decrypt(m).value.0, Apply(cfg, st, m);
    var i, o, votes := cmd.stateIndex, cmd.voteOptionIndex, st.ballots[cmd.stateIndex].votes;
    var w := WitnessAt(cfg, d, st, i, o);
    var leaves, ballots := StateHashes(cfg, st.leaves), BallotHashes(cfg, st.ballots);
    assert StateHashes(cfg, st'.leaves) == leaves[i := st'.leaves[i].Hash(cfg.h)];
    assert BallotHashes(cfg, st'.ballots) == ballots[i := st'.ballots[i].Hash(cfg.h)];
    UpdateClimbs(StateShape(cfg, d.state), leaves, i, st'.leaves[i].Hash(cfg.h));
    UpdateClimbs(BallotShape(cfg, d.ballot), ballots, i, st'.ballots[i].Hash(cfg.h));
    UpdateClimbs(VoteShape(cfg.h, cfg.voteOptionTreeDepth), votes, o, cmd.newVoteWeight);
    assert PadWitness(w, d.ballot).statePath[..d.state] == w.statePath;
    if cfg.mode != FULL {
      assert st'.ballots[i].votes == votes[o := cmd.newVoteWeight];
    }
  }

  /** What the slot of a message, or of padding, shows, and that an accepted one takes the roots from before to after. */
  lemma WitnessIsRight(cfg: Config, d: Depths, st: Voters, slot: Option<Published>)
    requires PollOk(cfg, d, st)
    ensures SlotIsRight(cfg, d, st, slot, PadWitness(WitnessOf(cfg, d, st, slot), d.ballot))
  {
    hide Shows, Carries, WitnessAt, PadWitness;
    WitnessShows(cfg, d, st, SlotIndex(cfg, st, slot), SlotOption(cfg, st, slot));
    if slot.Some? && VerdictOn(cfg, st, slot.value).Accepted? {
      WitnessCarries(cfg, d, st, slot.value);
    }
  }

  /**
   Slot j of a batch shows what message start + j was judged against: it authenticates to the two roots as they
   stood before that message, whether the message was accepted, rejected or padding, and an accepted one leads on to the
   roots after it.
   */
  lemma EverySlotIsAuthentic(cfg: Config, d: Depths, st: Voters, log: seq<Published>, start: nat, count: nat, end: nat, j: nat,
                             before: Voters)
    requires PollOk(cfg, d, st) && end <= |log| && j < count
    requires before == Before(cfg, st, log, start + j, end)
    ensures SlotIsRight(cfg, d, before, SlotAt(log, start + j), BatchSlots(cfg, d, st, log, start, count, end)[j])
  {
    hide StateRoot, BallotRoot, SlotIsRight, Collect, WitnessOf;
    ReplayKeepsPollOk(cfg, d, st, log[if start + j < end then start + j + 1 else end..end]);
    CollectAt(SlotReader(cfg, d, st, log, end), start, count, j);
    WitnessIsRight(cfg, d, before, SlotAt(log, start + j));
  }
}
