# MACI poll engine: a Dafny model

This project models the coordinator side of MACI and states what it is for, as theorems about every run.

* **The tree** (`Powers`, `Merkle`, `NodeStore`, `IncrementalQuinTree`, `SubrootProofs`). The sparse n-ary Merkle tree is
  a class over one flat index space. It is proved to be the plain recursive hash of all its leaves, and its proofs are
  accepted exactly when they are true.
* **The poll** (`DomainObjects`, `VoteCommandCodec`, `Voting`, `VotingProperties`, `Witnesses`, `MessageLog`, `BatchRuns`,
  `TallySpec`, `Commitments`, `Poll`, `PollActions`, `PollLifeCycle`, `TwoPolls`). The class `Poll` joins, publishes,
  closes batches, processes them newest first and tallies, updating arrays and trees in place. Its methods are proved
  against functions on values: `Voting.Apply` for one message, `Voting.Replay` for a log, `TallySpec.Column` and
  `TotalCost` for a tally. The properties are proved of those functions, `PollLifeCycle.RunPoll` joins all operations into
  one poll from its first action to its tally, and `Commitments` says what the published commitments open to.
* **The log replay** (`LogReplay`, `ChainToTally`). Chunked log scans and a stable sort give one state, whatever the chunk
  size, and running the poll it describes gives one tally, whatever batch sizes, salts and spare ballots.
* **The sign-up snapshots** (`LeanTree`, `SnapshotRules`, `TreeService`). Pages, incremental appends and a root check
  against the contract agree with a full rebuild.
* **Two interleaved protocols** (`Hydration` with `WalletSession`, `Eligibility` with `Nullifiers`, `JsonEquality` and
  `EligibilityService`). Code between two awaits is one event of a state machine; the theorems are about every sequence
  of events, and what they say of the past they say of the events themselves. The classes update their fields in place, each
  method being one event, and a ghost field holds the events so far.
* **The sampler** (`RejectionSampling`). A counting argument over 256-bit draws.

A tree keeps `Valid`, a poll `Valid` and `LogOk`, the snapshot service, the wallet session and the eligibility service their
`Valid`, under every operation, also one that throws, except where a contract says otherwise: an update past the leaves of
a tree (`Update`), a join into a full tree (`JoinPoll`), a rebuild of the poll's trees that lacks room or comes after votes
were processed (`UpdatePoll`), and a message published once a start has closed an open batch or a batch is processed
(`PublishMessage`). `PollLifeCycle` stays clear of these, so its theorems hold of whole polls.

## Conventions

Hashes are parameters. They are assumed never to be 0, because a stored 0 reads as an absent node; injectivity is assumed
only where a lemma says so. Decryption, signatures, address normalization, tags and case folding are uninterpreted
functions. Random salts, paddings, ids, the clock, and every answer of a wallet, chain, indexer or IPFS are parameters.
An exception is a `Failure`, an error value or a false flag; what had changed by then is stated.

## Where the code is not what it says

Each of these is stated exactly in the model, with the condition under which the intent is met.

* The redraw loop for a new salt compares it with the entry of the batch below instead of the current one
  (`packages/core/ts/Poll.ts:880-885`), although the comment says new and current salt differ. Exactly when they are the
  same is `Poll.SaltRepeatsIff`; `Poll.ProcessMessages` states which draw is taken.
* A first call of `processMessages` that throws closes the open batch each time (`packages/core/ts/Poll.ts:632-643`). The run
  after it starts above the log and leaves out as many of the oldest batches. It is harmless if and only if the batch
  size divides the number of messages (`Poll.ProcessMessages`, `NothingSkippedIff`, `ProcessAllMessages`). Once such
  calls have closed as many batches as there are messages (`StuckIff`), no call goes through until further messages are
  published (`KeepsThrowing`). With three messages in batches of two, one such call loses two of them
  (`PollLifeCycle.StartTooEarly`, `TwoOfThreeAreSkipped`).
* The lock is said to keep other polls out until a poll is fully processed (`packages/core/ts/Poll.ts:633-634`). It is taken
  before it is looked at, so another poll's first call takes it from a poll under way, which is locked out until the other is
  done (`TwoPolls.StartTakesTheLock`, `GoesOnAfterwards`); a later call of a poll respects it (`Poll.ProcessMessages`).
* A poll without messages counts as one unprocessed batch. Processing it takes the lock and then throws
  (`packages/core/ts/Poll.ts:604`, `packages/core/ts/Poll.ts:682-683`), and the lock stays taken (`Poll.UnprocessedIff`,
  `ProcessMessages`).
* `processAllMessages` says it does not update the leaves and ballots; it does, and returns copies taken before.
* In FULL mode an older message for another option can wipe out a vote with all its credits
  (`VotingProperties.FullCanBurnCredits`, `FullConservesIff`).
* `updatePoll` rebuilds the ballot tree as blank, so tree and array agree only while every ballot is still blank.
* The constructor of a vote command lets the limit 2^50 itself through, which does not survive packing.
* A subroot proof of a misaligned range is accepted exactly when its leaves equal those of the aligned group; a range
  whose size is a multiple but no power of the arity gets a proof without levels, which the verifier cannot read.
* An update past the leaves overwrites an interior node before it throws.
* Within one transaction logs are replayed by kind and not in log order. The replay is in log order if and only if the logs
  of every transaction already come by kind (`LogReplay.ReplayInLogOrderIff`); a direct message in front of an IPFS hash is
  overtaken (`LaterMessageOvertakes`).
* A join into a full state tree throws only after its nullifier and its leaf were recorded (`Poll.JoinPoll`).
* A tally with an odd batch size, or one of at least the tree's capacity, throws after the totals have advanced; an even size
  that is no power of two gets a path without levels (`Poll.TallyVotes`, `BatchPath`).
* The hydration lock is meant to be freed only by the run that took it. Two runs of one operation that saw the same
  account can free each other's (`Hydration.OlderRunFreesNewerLock`); exactly that pair can (`FreesAnothersLockIff`), and
  never while the wallet stays put (`OnlyHolderReleases`).
* A grant is dated when its claims are read, but handed out later. With a lifetime of at least 300 seconds it is never expired
  by then (`Eligibility.GrantsAreHandedOutInTime`); with every shorter one that can be set it can be
  (`ShortGrantsCanBeExpired`).
* The query a client sends is said to have to match the canonical one exactly (`apps/backend/src/eligibility/zkpassport.ts:74`).
  It passes if and only if both are the same tree (`JsonEquality.DeepEqualIff`): the order of keys is ignored, and an array
  passes for an object keyed by its indexes (`ListPassesForObject`). What is verified is the canonical query itself.

## Model

| member | source | states |
|---|---|---|
| `Merkle.ProofsAreAccepted` | packages/crypto/ts/quinTree.ts:122-160 | for every arity, depth and leaf below the capacity, the generated proof is accepted by the verifying climb |
| `Merkle.ClimbSound` | packages/crypto/ts/quinTree.ts:221-241 | with an injective hash, a value that climbs to the root along a leaf's indices from any level is the true node there, and so is the rest of the path |
| `Merkle.AcceptedIffTrue` | packages/crypto/ts/quinTree.ts:221-241 | with an injective hash, a well-shaped proof with leaf i's indices and the current root is accepted if and only if it is the generated one |
| `Merkle.RootDeterminesLeaves` | packages/crypto/ts/quinTree.ts:221-241 | equal roots mean equal leaves at every index below the capacity |
| `Merkle.UpdateClimbs` | packages/crypto/ts/quinTree.ts:79-98 | put in the place of a leaf, a value climbs the leaf's old path to the root of the tree that has it there |
| `Merkle.SameLeavesSameNodes` | packages/crypto/ts/quinTree.ts:299-320 | zeros that are stored and zeros that are absent make no difference to any node |
| `Merkle.SubtreeIsNode` | packages/crypto/ts/quinTree.ts:186-198 | the tree over an aligned group of leaves has as its root the main tree's node above the group |
| `Merkle.SubrootProofsAreAccepted` | packages/crypto/ts/quinTree.ts:203-213 | the upper part of a proof, started at the true subtree root, is accepted |
| `NodeStore.NodeCount` | packages/crypto/ts/quinTree.ts:48-60 | the node count the constructor computes as a quotient is the end of the flat index space, and the root is its last index |
| `NodeStore.ChildPlace` | packages/crypto/ts/quinTree.ts:272-292 | the child indices computed from a parent's flat index are exactly the places of its children one level below |
| `NodeStore.PutParent` | packages/crypto/ts/quinTree.ts:87-98 | rehashing the next node of a path makes one more level consistent and leaves every leaf alone |
| `NodeStore.StoreIsTree` | packages/crypto/ts/quinTree.ts:299-320 | in a consistent store every node reads as the plain recursive hash of the leaves below it |
| `QuinTree.IncrementalQuinTree.constructor` | packages/crypto/ts/quinTree.ts:42-62 | a new tree is consistent and all its leaves read as the zero value; one of depth 0 has only its root and an empty table of zeros |
| `QuinTree.IncrementalQuinTree.CalcInitialVals` | packages/crypto/ts/quinTree.ts:358-376 | the table of zeros and the initial root are the hashes of all-zero subtrees of each height |
| `QuinTree.IncrementalQuinTree.GetNode` | packages/crypto/ts/quinTree.ts:299-320 | for every index whatever: the stored value, the zero of the index's level when absent or stored as 0, the leaf zero below 0, and undefined for an absent root and past it |
| `QuinTree.IncrementalQuinTree.CalcParentIndices` | packages/crypto/ts/quinTree.ts:248-265 | throws exactly out of range; else as many holes as there are levels, then the places of the leaf's ancestors, one per level |
| `QuinTree.IncrementalQuinTree.CalcChildIndices` | packages/crypto/ts/quinTree.ts:272-292 | throws exactly below the capacity; for every interior node the level search ends at the depth and the result is the children's indices |
| `QuinTree.IncrementalQuinTree.Update` | packages/crypto/ts/quinTree.ts:79-98 | succeeds exactly in range and then replaces one leaf in a consistent tree; an interior index throws only after its node was overwritten, everything else throws before |
| `QuinTree.IncrementalQuinTree.Insert` | packages/crypto/ts/quinTree.ts:68-72 | replaces the leaf at the next index and advances it, or throws when the tree is full |
| `QuinTree.IncrementalQuinTree.RootIsRoot` | packages/crypto/ts/quinTree.ts:79-98 | in every reachable tree the stored root is the plain recursive hash of all arity^depth leaves |
| `QuinTree.IncrementalQuinTree.CalcLeafIndices` | packages/crypto/ts/quinTree.ts:105-115 | the digits of a leaf's path, level by level |
| `QuinTree.IncrementalQuinTree.GenerateProof` | packages/crypto/ts/quinTree.ts:122-160 | throws exactly out of range; else the siblings on the leaf's path, its digits, the root and the leaf as they are read |
| `QuinTree.IncrementalQuinTree.GenerateSubrootProof` | packages/crypto/ts/quinTree.ts:168-214 | succeeds exactly for the ranges its guards admit, with the path above the subtree and the root of the tree over the range as it is read, also past the leaves; within the leaves that is their own root |
| `QuinTree.IncrementalQuinTree.VerifyProof` | packages/crypto/ts/quinTree.ts:221-241 | reports whether the proof climbs to its root; a proof without a level cannot be read |
| `SubrootProofs.AlignedSubrootProof` | packages/crypto/ts/quinTree.ts:168-214 | for an aligned range of arity^k leaves the proof's leaf is the main tree's level-k node and the proof is accepted |
| `SubrootProofs.SubrootProofAcceptedIff` | packages/crypto/ts/quinTree.ts:168-214 | for a range of arity^k leaves, aligned or not, the proof is accepted if and only if the range's leaves equal those of the aligned group it starts in |
| `SubrootProofs.NoLevelsUnlessPower` | packages/crypto/ts/quinTree.ts:186-213 | a range whose size is no lower power of the arity, and no other, gets a proof with no levels |
| `DomainObjects.TrimmedLength` | packages/domainobjs/ts/ballot.ts:58-60 | one past the last nonzero value: everything from there on is zero and the value before is not |
| `DomainObjects.BallotAsArray` | packages/domainobjs/ts/ballot.ts:57-68 | the nonce and the root of all the votes, although trailing zeros are never inserted |
| `DomainObjects.BallotHash` | packages/domainobjs/ts/ballot.ts:41-44 | the hash of the nonce with the root of all the votes |
| `DomainObjects.VoteCountsAsArray` | packages/domainobjs/ts/voteCounts.ts:65-76 | the nonce and the root of all the counts, although trailing zeros are never inserted |
| `DomainObjects.VoteCountsHash` | packages/domainobjs/ts/voteCounts.ts:48-51 | the hash of the nonce with the root of all the counts |
| `DomainObjects.VoteRootsAgreeIff` | packages/domainobjs/ts/ballot.ts:57-68 | two vote vectors have the same root if and only if they agree up to trailing zeros |
| `DomainObjects.GenerateTreeCommitment` | packages/crypto/ts/utils.ts:30-38 | throws exactly when the leaves do not fit; else the root over all of them, hashed with the salt |
| `DomainObjects.GenerateTreeProof` | packages/crypto/ts/utils.ts:47-57 | throws exactly when the leaves or the index do not fit; else the siblings on the index's path |
| `DomainObjects.CalcDepthFromNumLeaves` | packages/crypto/ts/utils.ts:10-20 | the least depth from 1 on whose tree holds the leaves |
| `VoteCommandCodec.RoundTripIff` | packages/domainobjs/ts/commands/VoteCommand.ts:102-116 | unpacking gives the five packed fields back if and only if each of them has 50 bits |
| `VoteCommandCodec.ShiftsArePowers` | packages/domainobjs/ts/commands/VoteCommand.ts:102-110 | the shifts by 50, 100, 150 and 200 bits and the 250-bit limit are the powers of two they stand for |
| `VoteCommandCodec.PackedDigits` | packages/domainobjs/ts/commands/VoteCommand.ts:102-110 | packed, the five fields are the digits to base 2^50, from the lowest up state index, option, weight, nonce and poll |
| `VoteCommandCodec.PackUnpackIff` | packages/domainobjs/ts/commands/VoteCommand.ts:190-206 | packing what was unpacked gives the number back if and only if it has 250 bits |
| `VoteCommandCodec.LimitCollides` | packages/domainobjs/ts/commands/VoteCommand.ts:65-70 | the limit 2^50 itself passes the constructor, yet carries into the next field: two different commands pack alike |
| `VoteCommandCodec.PackedFitsField` | packages/domainobjs/ts/commands/VoteCommand.ts:102-116 | every non-negative command the constructor takes packs into one field element |
| `VoteCommandCodec.DecryptEncryptIff` | packages/domainobjs/ts/commands/VoteCommand.ts:157-218 | with a cipher that inverts itself, a message gives its command and signature back if and only if the packed fields have 50 bits |
| `VoteCommandCodec.DecryptedIsConstructible` | packages/domainobjs/ts/commands/VoteCommand.ts:177-218 | whatever a message decrypts to, the constructor takes it and its fields have 50 bits |
| `VotingProperties.AcceptedIffAffordable` | packages/core/ts/Poll.ts:308-421 | a message is accepted if and only if it names a joined voter and an option, is signed by the voter's key with the next nonce, and balance plus price of the votes pays for the ballot with the new vote on it, in FULL mode exactly; too high or too low a price decides the error |
| `VotingProperties.AcceptedMessage` | packages/core/ts/Poll.ts:362-382 | an accepted message gives its voter, and nobody else, the new key, the next nonce and the new vote, paid from the balance; in FULL mode the other votes are cleared and the balance is used up |
| `Voting.ReplaySplit` | packages/core/ts/Poll.ts:680-723 | processing a log in two pieces, the newer first, is processing it whole |
| `Voting.ReplayIsPointwise` | packages/core/ts/Poll.ts:308-421 | what a log does to a voter depends on that voter alone; index 0 and spare ballots never change |
| `VotingProperties.CreditsAreConserved` | packages/core/ts/Poll.ts:429-453 | over every log, in QV and NON_QV, a voter's balance stays >= 0 and balance plus price of the votes stays what it was |
| `VotingProperties.FullIsAllOrNothing` | packages/core/ts/Poll.ts:367-382 | over every log in FULL mode a voter is unchanged, or has balance 0 and at most one option voted for, with all the credits |
| `VotingProperties.FullConservesIff` | packages/core/ts/Poll.ts:367-382 | an accepted message in FULL mode conserves credits if and only if the other options hold nothing |
| `VotingProperties.FullConservesIffSameOption` | packages/core/ts/Poll.ts:367-382 | in reachable FULL states: if and only if no other option holds a vote |
| `VotingProperties.FullCanBurnCredits` | packages/core/ts/Poll.ts:367-382 | a FULL poll of two messages in which a voter's five credits vanish |
| `VotingProperties.NonceCountsAccepted` | packages/core/ts/Poll.ts:335-345 | a ballot's nonce is the number of accepted commands, whose nonces are consecutive, newest first |
| `VotingProperties.UnsignedChangeNothing` | packages/core/ts/Poll.ts:332-338 | messages not signed by the voter's current key change nothing for the voter |
| `VotingProperties.KeyChangeLocksOut` | packages/core/ts/Poll.ts:332-378 | after an accepted key change every older message not signed by the new key is rejected |
| `VotingProperties.LatestVoteWins` | apps/front-end/src/hooks/voteFlow.ts:252 | if all of a voter's messages carry nonce 1, only the latest one that passes the other checks takes effect |
| `Witnesses.EverySlotIsAuthentic` | packages/core/ts/Poll.ts:680-871 | slot j of a batch shows, with paths to the two roots as they stood before message start + j, the voter and option an accepted message's decrypted command names, those a forced decryption of a rejected one names where they exist, and otherwise participant 0; an accepted one's paths lead from the new leaf, ballot and vote to the roots after it |
| `Witnesses.WitnessCarries` | packages/core/ts/Poll.ts:702-721 | the new leaf, ballot and vote of an accepted message climb the paths shown for its voter to the roots after the message |
| `Witnesses.WitnessIsAuthentic` | packages/core/ts/Poll.ts:384-413 | a leaf, a ballot and a vote read with their paths authenticate to the two roots and to the ballot's vote root |
| `Witnesses.ReplayKeepsPollOk` | packages/core/ts/Poll.ts:680-723 | processing keeps the arrays within the trees and index 0 blank |
| `MessageLog.ChainJoin` | packages/core/ts/Poll.ts:500-507 | the chain hash of a log is that of its first part continued with the rest |
| `MessageLog.ChainBinds` | packages/core/ts/Poll.ts:500-507 | with injective hashes two logs of one length have the same chain hash exactly if they start alike and all their messages and keys are the same |
| `MessageLog.SourceBatchCount` | packages/core/ts/Poll.ts:601-611 | the counted batches are the quotient rounded up, and one for an empty log |
| `MessageLog.NextBatch` | packages/core/ts/Poll.ts:500-507 | appending a message closes a batch exactly when the count reaches a multiple of the batch size |
| `MessageLog.LastBatch` | packages/core/ts/Poll.ts:590-594 | the last batch ends with the log |
| `BatchRuns.RunIsReplay` | packages/core/ts/Poll.ts:627-893 | after any number of calls exactly the log above the next batch has been processed, once and backwards |
| `BatchRuns.FullRunIsReplay` | packages/core/ts/Poll.ts:601-893 | a run over every batch leaves the leaves and ballots of one backward pass over the log |
| `BatchRuns.BatchSizeDoesNotMatter` | packages/core/ts/Poll.ts:601-893 | two complete runs with different batch sizes end with the same leaves and ballots |
| `BatchRuns.BatchHashContinues` | packages/core/ts/Poll.ts:973-981 | a batch's output hash is its input hash continued with the hashes of its real messages |
| `BatchRuns.BatchHashFixesMessages` | packages/core/ts/Poll.ts:973-981 | with injective hashes two batches with the same output hash and as many real messages have the same input hash and the same messages and keys |
| `BatchRuns.CallsAreLinked` | packages/core/ts/Poll.ts:876-893 | consecutive calls share the chain hash between them, and the newer one's new commitment is the older one's current one |
| `BatchRuns.RunEndpoints` | packages/core/ts/Poll.ts:973-981 | a complete run starts from the chain hash of the whole log and ends at the fixed starting value |
| `BatchRuns.EveryMessageHasItsSlot` | packages/core/ts/Poll.ts:680-871 | message i is shown by slot i mod b of the call for batch i div b + 1, with the participant and option it names, authentic against the state left by all newer messages, and if it is accepted leading on to the state after it |
| `PollMachine.Poll.Create` | packages/core/ts/Poll.ts:161-202 | throws exactly for more vote options than the vote tree has leaves; else a new poll with the blank leaf, ballot and count, an empty chain and empty totals |
| `PollMachine.Poll.JoinPoll` | packages/core/ts/Poll.ts:213-225 | succeeds exactly for a new nullifier while the tree has room; the leaf goes to the end of array and tree, which stay in step; a full tree throws after nullifier and leaf were recorded, and the tree then no longer holds the array |
| `PollMachine.Poll.UpdatePoll` | packages/core/ts/Poll.ts:235-300 | succeeds exactly when the leaves and ballots fit; afterwards trees and arrays agree if and only if every ballot and count there already was hashes like a blank one; where it throws, it says which tree was rebuilt and how many blank ballots were appended before |
| `PollMachine.Poll.AgreeIffBlank` | packages/core/ts/Poll.ts:270-297 | blank trees hold the ballots and counts if and only if these fit and all hash like blank ones |
| `PollMachine.Poll.ProcessMessage` | packages/core/ts/Poll.ts:308-421 | returns the verdict's error, or the voter's new leaf and ballot with the witness of that voter in the state before, whose paths lead on to the state after |
| `PollMachine.Poll.RejectedWitness` | packages/core/ts/Poll.ts:740-815 | the witness of a rejected message: whoever a forced decryption names, or participant 0 |
| `PollMachine.Poll.Store` | packages/core/ts/Poll.ts:712-722 | arrays and trees are updated together |
| `PollMachine.Poll.ProcessSlot` | packages/core/ts/Poll.ts:690-823 | one message applies to the participants exactly when it is accepted, and its witness shows the participant it names in the state before |
| `PollMachine.Poll.PublishMessage` | packages/core/ts/Poll.ts:461-494 | in every state accepts exactly messages and keys in the field, and log and chain hash go on; the batch is closed exactly at multiples of the batch size, and before processing the closed hashes stay those of the full batches |
| `PollMachine.Poll.UpdateChainHash` | packages/core/ts/Poll.ts:500-507 | the chain hash advances by one message, and a batch hash is stored exactly at multiples of the batch size |
| `PollMachine.Poll.PadLastBatch` | packages/core/ts/Poll.ts:590-594 | the open batch is closed too, with the chain hash of the whole log |
| `PollMachine.Poll.UnprocessedIff` | packages/core/ts/Poll.ts:601-611 | there is something to process exactly while fewer than all batches are done; an empty poll counts as one batch that never can be |
| `PollMachine.Poll.GenerateProcessMessagesCircuitInputsPartial` | packages/core/ts/Poll.ts:916-999 | throws exactly past the number of messages; else the batch's messages with padding, none if it starts past the log, its two chain hashes, the number of signups, and the commitment to the state before it |
| `PollMachine.Poll.ProcessBatch` | packages/core/ts/Poll.ts:680-835 | processes the messages of one batch newest first and collects the slots oldest first |
| `PollMachine.Poll.ProcessMessages` | packages/core/ts/Poll.ts:627-908 | returns exactly if there is a message, work left, a copied state, no other poll's lock and a first batch within the message count; then it is one batch of the run, with the old salt stored and the new one drawn, the lock being released with the last batch; a first call closes the open batch once more, whether it throws or not, and no other call closes one; one that throws keeps the lock and the poll's invariant |
| `PollMachine.Poll.DrawSalt` | packages/core/ts/Poll.ts:880-885 | the redraw loop takes the first draw unless the entry below is already stored, and then the first draw that differs from it |
| `PollMachine.Poll.SaltRepeatsIff` | packages/core/ts/Poll.ts:880-885 | in a poll's first call the new salt repeats the current one exactly if the first draw is 0 and no start that threw left a zero below; in a later call exactly if the first draw, or the first nonzero one above such a zero, is the current salt; so it does happen |
| `PollMachine.Poll.StartProcessing` | packages/core/ts/Poll.ts:632-643 | a first call takes the lock and closes the open batch; afterwards only the full batches are closed exactly if the batch size divides the number of messages |
| `PollMachine.Poll.NothingSkippedIff` | packages/core/ts/Poll.ts:632-643 | a run after starts that threw leaves no message out exactly if none of them found an open batch, and otherwise at least a whole batch of the oldest, or all messages |
| `PollMachine.Poll.KeepsThrowing` | packages/core/ts/Poll.ts:627-683 | once there are at least as many closed batches as messages, and an open one, any number of further calls all throw, whatever poll they name, as long as nothing is published |
| `PollMachine.Poll.StuckIff` | packages/core/ts/Poll.ts:632-643 | starts that threw bring a poll there exactly if they are as many as the messages beyond one for each full batch |
| `PollMachine.Poll.ProcessAllMessages` | packages/core/ts/Poll.ts:1007-1017 | returns the arrays from before, and leaves those of one backward pass over all but the skipped messages, after exactly one call per batch, with the lock released; it throws exactly where its first call does |
| `PollMachine.Poll.LastCommitment` | packages/core/ts/Poll.ts:1204-1208 | the last commitment of a run is the one the tally recomputes from the stored salt |
| `PollMachine.Poll.TallyBallot` | packages/core/ts/Poll.ts:1134-1150 | the running totals of i ballots become those of i + 1 |
| `PollMachine.Poll.CountBallot` | packages/core/ts/Poll.ts:1122-1132 | the counts of i ballots become those of i + 1, in the array and in the tree |
| `PollMachine.Poll.GenerateSpentVoiceCreditSubtotalCommitment` | packages/core/ts/Poll.ts:1274-1293 | the recomputed total is that of the first ballots, however many are asked for |
| `PollMachine.Poll.GeneratePerVoteOptionSpentVoiceCreditsCommitment` | packages/core/ts/Poll.ts:1304-1324 | the recomputed row is that of the first ballots, however many are asked for |
| `PollMachine.Poll.CommitTotals` | packages/core/ts/Poll.ts:1041-1101 | running accumulators and totals recomputed from scratch commit to the same ballots |
| `PollMachine.Poll.BatchPath` | packages/core/ts/Poll.ts:1153-1214 | throws exactly for an odd batch size or one of at least the tree's capacity; for 2^k ballots the path leads from the tree of the batch, padded with blank ones, to the ballot root, and for every other size it has no levels |
| `PollMachine.Poll.TallyVotes` | packages/core/ts/Poll.ts:1030-1263 | for every batch size and every state, also after calls that threw: throws before processing or when nothing is left, changing nothing; otherwise exactly the ballots of the batch are added once more to totals and counts; throws for a size without a subroot proof, with the batch not recorded; else emits the commitments to the totals before and after, with the salts stored in between |
| `PollMachine.Poll.FinishedTally` | packages/core/ts/Poll.ts:1113-1151 | once no ballot is left, for every batch size, the results are the column sums, every option is counted once for each ballot that votes for it, and the spent credits add up by option and by ballot |
| `PollMachine.Poll.TallyConservesCredits` | packages/core/ts/Poll.ts:1113-1151 | in QV and NON_QV the tallied total plus the remaining balances is everything that was joined with |
| `TallySpec.RowsAndColumns` | packages/core/ts/Poll.ts:1134-1150 | summing the spent credits by option or by ballot comes to the same |
| `TallySpec.CountsCountVoters` | packages/core/ts/Poll.ts:1122-1132 | the vote counts of an option add up to the number of ballots that vote for it |
| `TallySpec.VoteMovesItsOption` | packages/core/ts/Poll.ts:362-378 | outside FULL an accepted message moves the result of the option it votes for by the change of weight, and no other result |
| `TallySpec.PollConservesCredits` | packages/core/ts/Poll.ts:367-382 | for every log, in QV and NON_QV, all spent credits and all balances add up to what was joined with |
| `TallySpec.TallyCallsAreLinked` | packages/core/ts/Poll.ts:1171-1201 | a tally batch's new commitment is the next one's current commitment |
| `Commitments.TallyBatchOpens` | packages/core/ts/Poll.ts:1171-1201 | with injective hashes, recomputing a batch's new tally commitment from published totals and salts succeeds exactly if they are the totals of the ballots counted so far and that batch's salts; its current one opens in the same way to the ballots before |
| `Commitments.StateCommitmentBinds` | packages/core/ts/Poll.ts:888-893 | with injective hashes two state commitments are the same exactly for the same salt, the same keys and balances and the same nonces and votes |
| `Commitments.BallotHashBinds` | packages/domainobjs/ts/ballot.ts:41-44 | a ballot's hash fixes its nonce and all its votes |
| `Commitments.CountsHashBinds` | packages/domainobjs/ts/voteCounts.ts:48-51 | a vote count's hash fixes its nonce and all its counts |
| `PollLifeCycle.Collect` | packages/contracts/ts/generateMaciState.ts:294-304 | joins and messages in any order go through exactly if no nullifier joins twice and every message is in the field |
| `PollLifeCycle.RunPoll` | packages/contracts/tasks/helpers/ProofGenerator.ts:190-275 | a poll from construction to tally: it goes through exactly under the stated conditions; there is one processing call for each batch of the messages, forming one run from the first leaves and ballots to the last; the results are those of one backward pass whatever the batch sizes; and there are just as many tally batches as the ballots need, each with its totals, its path to the ballot root and the last commitment of processing |
| `PollLifeCycle.PublishedResultsOpen` | packages/core/ts/Poll.ts:1171-1201 | the last tally commitment of a complete poll opens exactly to the published results, spent credits and salts |
| `TwoPolls.StartTakesTheLock` | packages/core/ts/Poll.ts:632-648 | while a poll is under way the first call of another one takes its lock; from then on it is locked out exactly until the other's last batch, and nothing else about it has changed |
| `TwoPolls.GoesOnAfterwards` | packages/core/ts/Poll.ts:632-648 | once the other poll is done the first one goes on with the batch it was at |
| `PollLifeCycle.StartTooEarly` | packages/core/ts/Poll.ts:632-643 | over the calls themselves: processing started before the state is copied throws; done properly afterwards it goes through exactly if the batches, and one more for an open one, are no more than the messages, and then leaves out the oldest messages, up to the batch size, unless the batch size divides their number |
| `PollLifeCycle.TwoOfThreeAreSkipped` | packages/core/ts/Poll.ts:632-643 | three messages in batches of two: after one such start the run ends with only the newest message applied |
| `PollLifeCycle.TallyAll` | packages/contracts/tasks/helpers/ProofGenerator.ts:273-279 | tallying until nothing is left goes through exactly for the sizes with a subroot proof, and keeps every batch's totals, commitments and salts in line |
| `PollLifeCycle.TallyRunIsLinked` | packages/core/ts/Poll.ts:1171-1201 | over a whole tally consecutive batches share their commitment |
| `LogReplay.ScanMaci` | packages/contracts/ts/generateMaciState.ts:65-123 | the scanned ranges partition the blocks, and every transaction's actions are those of one scan over all of them; the found poll ids are exactly the deployed ones |
| `LogReplay.ScanPoll` | packages/contracts/ts/generateMaciState.ts:152-263 | the scanned ranges partition the blocks, and every transaction's actions are those of one scan over all of them; throws exactly if some IPFS hash in the range has no messages |
| `LogReplay.OneRangePerBlock` | packages/contracts/ts/generateMaciState.ts:66-69 | every block lies in exactly one scanned range |
| `LogReplay.MaciRoundJoins` | packages/contracts/ts/generateMaciState.ts:65-123 | scanning on completes what was scanned below, transaction by transaction |
| `LogReplay.PollRoundJoins` | packages/contracts/ts/generateMaciState.ts:152-263 | the same for the poll's logs, IPFS messages included |
| `LogReplay.SortKeeps` | packages/contracts/ts/utils.ts:62-82 | the sorted list is a sorted permutation that keeps the order within each transaction |
| `LogReplay.SortedUnique` | packages/contracts/ts/utils.ts:62-82 | it is the only sorted list that does |
| `LogReplay.SortForgetsInterleaving` | packages/contracts/ts/utils.ts:62-82 | lists that agree within every transaction sort alike |
| `LogReplay.WithinTransaction` | packages/contracts/ts/generateMaciState.ts:268-309 | within a transaction the replay goes by kind of log, IPFS messages before direct ones |
| `LogReplay.TransactionInLogOrderIff` | packages/contracts/ts/generateMaciState.ts:225-263 | a transaction is replayed in the order of its logs if and only if the logs already come by kind: sign-ups, deployments, joins, IPFS hashes, direct messages |
| `LogReplay.ReplayInLogOrderIff` | packages/contracts/ts/utils.ts:62-82 | the whole replay is in the order of the chain's logs if and only if every transaction's logs come by kind |
| `LogReplay.LaterMessageOvertakes` | packages/contracts/ts/generateMaciState.ts:225-263 | a transaction with a direct message and after it an IPFS hash, whose replay succeeds with a message log in the opposite order |
| `LogReplay.ReplayCollects` | packages/contracts/ts/generateMaciState.ts:268-309 | once the poll is deployed the replay throws exactly if a nullifier joins twice or a message is not in the field; else the poll takes every join and message, in order |
| `LogReplay.ReplayCollectsSignUps` | packages/contracts/ts/generateMaciState.ts:273-278 | a replay that succeeds drops no sign-up |
| `LogReplay.CallsCarryTheLogs` | packages/contracts/ts/generateMaciState.ts:180-263 | the calls made on the poll carry the key, credits and nullifier of every join log, and every message with its key, in order |
| `LogReplay.PollStartsAtDeployment` | packages/contracts/ts/generateMaciState.ts:280-304 | a poll the replay leaves under the id was deployed by one of the actions, with that one's mode, and has taken exactly the joins and messages after it |
| `LogReplay.GeneratedIff` | packages/contracts/ts/generateMaciState.ts:30-321 | the state is generated exactly if the poll was deployed in the blocks, the key is the coordinator's, every IPFS hash is readable, and the deployment that takes the poll's number names the poll and is followed by joins and messages that go through, as many as the contract counts; then it holds the pad and all sign-ups, and exactly these joins and messages |
| `LogReplay.GenerateMaciStateFromContract` | packages/contracts/ts/generateMaciState.ts:30-321 | for every blocksPerRequest the result, or the error, is that of fetching everything at once |
| `ChainToTally.TallyFromLogs` | packages/contracts/tasks/helpers/ProofGenerator.ts:190-275 | fetching the logs in any ranges, replaying them and running the poll goes through exactly if the logs replay to a poll with messages and the sizes fit; the tally is that of one backward pass over the messages in the order of the replay |
| `ChainToTally.TallyIsDetermined` | packages/core/ts/Poll.ts:1113-1151 | the tally and the final participants depend on the joins, the messages and the voting rules alone, not on batch sizes, salts, tree depths or spare ballots |
| `ChainToTally.TallyTwice` | packages/contracts/ts/generateMaciState.ts:65-123 | two runs over the same logs with any ranges, batch sizes, depths, paddings and salts publish the same tally if both go through |
| `LeanTree.LeanPathsLeadToRoot` | apps/backend/src/trees/leanTree.ts:53-55 | a proof climbs from its leaf to the root, levels without a sibling being skipped |
| `LeanTree.SameLeanRoot` | apps/backend/src/trees/service.ts:131-135 | with an injective hash two trees of one size with the same root have the same leaves |
| `LeanTree.BuildSignUpTree` | apps/backend/src/trees/leanTree.ts:23-30 | the pad at index 0, then every sign-up's key hash in order |
| `LeanTree.AppendSignupLeaves` | apps/backend/src/trees/leanTree.ts:37-51 | a new tree equal to a full rebuild over old and new rows, for every chunk size; the old tree is untouched |
| `LeanTree.LeanIMT.GenerateProof` | apps/backend/src/trees/leanTree.ts:53-55 | the leaf at the index with an accepted proof under the current root |
| `SnapshotRules.AssertContiguousSignupIndexes` | apps/backend/src/trees/snapshot.ts:38-48 | passes exactly rows numbered 1, 2, ... |
| `SnapshotRules.CollectPages` | apps/backend/src/trees/snapshot.ts:78-110 | any result is numbered without a gap; from an indexer with contiguous rows it is all rows after the cursor, for every page size >= 1; indexes that ascend always get an answer |
| `SnapshotRules.CanAppendLeaves` | apps/backend/src/trees/snapshot.ts:113-120 | true exactly when old and new rows together are numbered without a gap |
| `SnapshotRules.FindLeafIndex` | apps/backend/src/trees/snapshot.ts:138-144 | the state index of the first row with the key, or an error exactly if there is none |
| `TreeService.ConfirmedIffOnChain` | apps/backend/src/trees/service.ts:125-142 | with injective hashes the one root read decides: a snapshot is confirmed if and only if its keys are exactly the first ones on chain |
| `TreeService.Service.FetchLeavesAt` | apps/backend/src/trees/service.ts:90-107 | rows after the cursor, numbered on from it, whatever the indexer does |
| `TreeService.Service.VerifyCachedPrefix` | apps/backend/src/trees/service.ts:109-123 | passes exactly if nothing is cached or the indexer still has the last cached row at its index, character by character |
| `TreeService.Service.PublishSnapshot` | apps/backend/src/trees/service.ts:125-142 | succeeds exactly if the contract has the tree's root at its index |
| `TreeService.Service.IncrementalAppend` | apps/backend/src/trees/service.ts:144-163 | a published append is contiguous, equal to a full rebuild, root-checked, extends the cached rows and found the last of them unchanged; an honest indexer's rows come out whole |
| `TreeService.Service.FullLoad` | apps/backend/src/trees/service.ts:165-168 | a published load is contiguous, a full rebuild and root-checked; an honest indexer's rows come out whole |
| `TreeService.Service.LoadSnapshot` | apps/backend/src/trees/service.ts:170-190 | whichever way it was loaded, the snapshot is in order and confirmed; a failed append falls back to a full load, one not answered yet does not |
| `TreeService.Service.RefreshSnapshot` | apps/backend/src/trees/service.ts:234-259 | the cache becomes the new snapshot, or stays only if the contract confirms it again, or is dropped; from an honest indexer and contract it is all the rows; what is cached was confirmed by one of this call's reads of the contract |
| `TreeService.Service.GetInclusionProof` | apps/backend/src/trees/service.ts:262-325 | a proof is served exactly if the key is in the snapshot looked at first, which is a current or still confirmed cache where there is one, or in the one refreshed after that; from an honest indexer and contract exactly the keys of its rows are served; a proof shows the hash of the key at its sign-up's index and climbs to a root the contract had, and with injective hashes the key is the one signed up on chain at that index |
| `TreeService.Service.ServedIsSignedUp` | apps/backend/src/trees/service.ts:125-142 | with injective hashes a key served under a root the contract had is the one signed up on chain at the proof's index |
| `Hydration.LockBelongsToLiveRun` | apps/front-end/src/lib/hydration.ts:57-89 | over every interleaving a held lock belongs to the current operation and to a run in flight that took it; with no run in flight the lock is free |
| `Hydration.FreesAnothersLockIff` | apps/front-end/src/lib/hydration.ts:77-83 | a landing run frees another run's lock if and only if both have the same key and operation id, whatever the comment says |
| `Hydration.OlderRunFreesNewerLock` | apps/front-end/src/lib/hydration.ts:77-83 | an interleaving in which that happens |
| `Hydration.OnlyHolderReleases` | apps/front-end/src/lib/hydration.ts:77-83 | while every run of one operation sees the same wallet, nobody but the holder frees the lock or takes it over |
| `Hydration.StaleRunShowsNothing` | apps/front-end/src/lib/hydration.ts:129-137 | a run that may not apply changes nothing on display, whatever it hears |
| `Hydration.WithoutWallet` | apps/front-end/src/lib/hydration.ts:139-158 | a current run without a wallet says what is wrong and is over; only a wallet that is gone takes the receipt and the marker with it |
| `Hydration.WithWallet` | apps/front-end/src/lib/hydration.ts:160-177 | a current run on the wrong chain, or without a configuration, says so; a context already hydrated or in flight is left alone |
| `Hydration.TakesFlight` | apps/front-end/src/lib/hydration.ts:177-210 | any other context is taken into flight: with a key the run shows that it checks and holds the lock, else it shows what is wrong with the key and frees it |
| `Hydration.ShowsLookup` | apps/front-end/src/lib/hydration.ts:210-231 | a current run shows exactly what the lookup answered, and goes on to the stored receipt or marks the context |
| `Hydration.ShowsReceipt` | apps/front-end/src/lib/hydration.ts:232-263 | a current run shows the stored receipt with the status the chain gives it, unless another transaction's is on display |
| `Hydration.UndisturbedRunCompletes` | apps/front-end/src/lib/hydration.ts:126-264 | a run nothing comes in between of ends with the lookup's answer and the receipt on display, the context marked and the lock free |
| `Hydration.SubmissionStaysShown` | apps/front-end/src/hooks/useMaci.ts:522-530 | the receipt of a vote is shown at once and stays through every hydration event while the vote lasts |
| `Hydration.HydratesAgain` | apps/front-end/src/hooks/useMaci.ts:427-608 | mounting, a changed wallet and the end of a vote or a connection start a run, current exactly unless the page is gone or something is busy |
| `Hydration.NewOperationSilencesOlderRuns` | apps/front-end/src/hooks/useMaci.ts:427-441 | once a vote starts or the wallet changes, no hydration under way ever changes the display again |
| `Hydration.SupersededForGood` | apps/front-end/src/lib/hydration.ts:126-137 | a run with an older operation id stays silent in every later interleaving |
| `Hydration.ReceiptIsNotReplaced` | apps/front-end/src/lib/hydration.ts:130-137 | a hydration never replaces the receipt on display by another transaction's; it clears it only for a wallet that is gone |
| `Hydration.MarkedByFinishedFlight` | apps/front-end/src/lib/hydration.ts:256-263 | the hydrated marker is set only by a current run that finishes its flight in the same step |
| `WalletSession.FlightAnchor.EndFlight` | apps/front-end/src/lib/hydration.ts:78-83 | the lock is freed exactly if key and owner match |
| `WalletSession.Session.ApplyHydrationWrite` | apps/front-end/src/hooks/useMaci.ts:238-300 | each write changes the display as specified; a receipt of another transaction is never replaced |
| `WalletSession.Session.AfterPeekWallet` | apps/front-end/src/lib/hydration.ts:139-206 | from the wallet's answer to the next await: a run that is not current leaves the display alone, a receipt is never replaced unless the wallet is gone, and a held lock still belongs to a run in flight |
| `WalletSession.Session.AfterLookupParticipation` | apps/front-end/src/lib/hydration.ts:210-241 | after the lookup: a run that is not current ends without showing anything, and the lock stays with a run in flight |
| `WalletSession.Session.AfterCheckReceipt` | apps/front-end/src/lib/hydration.ts:242-263 | after the receipt check the run is over; a stale one shows nothing, and no other transaction's receipt is replaced |
| `WalletSession.Session.Reset` | apps/front-end/src/hooks/useMaci.ts:427-441 | a wallet event frees the lock, clears the display, silences every older run for good and starts a new one |
| `WalletSession.Session.StartVote` | apps/front-end/src/hooks/useMaci.ts:588-598 | a vote starts exactly unless something is busy; it silences every older run and frees the lock, and the display stays |
| `WalletSession.Session.EndVote` | apps/front-end/src/hooks/useMaci.ts:601-608 | nothing is busy afterwards, the receipt stays, and a mounted page hydrates again |
| `WalletSession.Session.StartConnect` | apps/front-end/src/hooks/useMaci.ts:565-569 | a connection starts exactly unless something is busy, and while it lasts no run is current |
| `WalletSession.Session.EndConnect` | apps/front-end/src/hooks/useMaci.ts:570-585 | nothing is busy afterwards, and in the same generation the account is shown and a run starts; a result for an older generation shows nothing and starts no run |
| `Nullifiers.DecimalRoundTrip` | apps/backend/src/eligibility/zkpassport.ts:130-135 | printing a number in decimal and reading it back gives the number |
| `Nullifiers.CanonicalIffSameNumber` | apps/backend/src/eligibility/zkpassport.ts:130-135 | two accepted nullifiers, hex or decimal, have the same canonical form if and only if they are the same number |
| `Nullifiers.CanonicalIsCanonical` | apps/backend/src/eligibility/zkpassport.ts:130-135 | a canonical form is accepted again and is its own canonical form |
| `JsonEquality.DeepEqualIff` | apps/backend/src/eligibility/zkpassport.ts:137-145 | two values pass exactly if they are the same tree: the same up to the order of keys, and up to arrays and objects keyed by index |
| `JsonEquality.ListPassesForObject` | apps/backend/src/eligibility/zkpassport.ts:137-145 | every one-element array passes for the object with that element under the key 0 |
| `Eligibility.CanonicalIffSameTree` | apps/backend/src/eligibility/zkpassport.ts:258-264 | a payload goes on to verification exactly if it has its parts and its query is the canonical one as a tree |
| `Nullifiers.LifetimesAreOneToCap` | apps/backend/src/eligibility/authorization.ts:77-88 | every lifetime from 1 to 900 seconds can be set, and nothing else |
| `Nullifiers.ResolveGrantLifetimeSeconds` | apps/backend/src/eligibility/authorization.ts:77-88 | a resolved lifetime is between 1 and 900 seconds |
| `Eligibility.GrantsAreEarned` | apps/backend/src/eligibility/authorization.ts:178-236 | in every interleaving, behind each grant handed out there are, in order: the confirmed account check of a begin; a payload handed in after it, for a query that is the canonical one as a tree; the confirmed account check of that very call; the positive verification of that very payload, of the configured kind and with the asked attributes; and the confirmed account check of the call that gets the grant, all before the challenge expires; the grant names the challenge's account, the tag of the number verified and the configured lifetime from the clock as it stood between the account check of the call that signed the grant and its signature |
| `Eligibility.OneAuthorizationPerChallenge` | apps/backend/src/eligibility/authorization.ts:178-236 | a challenge yields one authorization value, however often and interleaved it is asked for |
| `Eligibility.GrantsAreShort` | apps/backend/src/eligibility/authorization.ts:216-227 | a grant lives at most 900 seconds |
| `Eligibility.GrantsAreHandedOutInTime` | apps/backend/src/eligibility/authorization.ts:216-236 | with a lifetime of at least 300 seconds no grant is ever handed out expired, in any interleaving |
| `Eligibility.ShortGrantsCanBeExpired` | apps/backend/src/eligibility/authorization.ts:216-236 | with every shorter lifetime a run hands out a grant that has expired |
| `Eligibility.UndisturbedFlowIsGranted` | apps/backend/src/eligibility/authorization.ts:178-236 | a proof that meets the policy is granted in the undisturbed flow, dated when its claims were read, however long below 300 seconds the signature takes |
| `Eligibility.BusyMeansHeld` | apps/backend/src/eligibility/zkpassport.ts:202-336 | in every interleaving a set lock is held by some call on that very entry or session that is not over |
| `Eligibility.CreatesIff` | apps/backend/src/eligibility/authorization.ts:147-177 | a challenge is made exactly for a valid account while fewer than 500 sessions live, and of the others exactly those that have not expired stay |
| `Eligibility.ClaimsNeverChange` | apps/backend/src/eligibility/zkpassport.ts:321-327 | in every interleaving claims once recorded never change while their challenge lives |
| `Eligibility.OneProofPerChallenge` | apps/backend/src/eligibility/zkpassport.ts:321-327 | in every interleaving at most one proof is accepted for a challenge |
| `Eligibility.SameNumberSameTag` | apps/backend/src/eligibility/zkpassport.ts:130-135 | in every interleaving two grants carry the same tag if the proofs accepted for them show the same number in any encoding; and only then, if the tag function is injective |
| `Eligibility.ReceiversAlwaysHaveBegun` | apps/backend/src/eligibility/zkpassport.ts:244-257 | in every interleaving a proof is only ever received for a challenge with a begin before it |
| `Eligibility.LocksAreExclusive` | apps/backend/src/eligibility/zkpassport.ts:202-208 | in every interleaving at most one call of begin and receiveProof holds an entry, at most one call of authorize a session, and the lock is set as long |
| `Eligibility.RunKeepsInv` | apps/backend/src/eligibility/zkpassport.ts:147-336 | every interleaving keeps the locks exclusive, and whatever claims, sessions and waiting calls hold was submitted, checked and proved by events before |
| `EligibilityServices.ZkPassportEligibility.CreateChallenge` | apps/backend/src/eligibility/authorization.ts:147-177 | a challenge for the normalized account with 300 seconds to live, exactly for a valid account while fewer than 500 sessions live; expired entries and sessions are swept and all others stay; only created challenges are ever stored |
| `EligibilityServices.ZkPassportEligibility.Begin` | apps/backend/src/eligibility/zkpassport.ts:202-208 | waits for account control, holding the entry, exactly unless missing, expired or busy, each with its error |
| `EligibilityServices.ZkPassportEligibility.BeginResumes` | apps/backend/src/eligibility/zkpassport.ts:208-241 | begun exactly if control is confirmed and the challenge still lives, and that is the begin later proofs point to |
| `EligibilityServices.ZkPassportEligibility.ReceiveProof` | apps/backend/src/eligibility/zkpassport.ts:244-255 | waits for account control exactly unless missing, expired, busy or not begun, each with its error; a waiting call has a begin before it |
| `EligibilityServices.ZkPassportEligibility.ReceiveProofResumes` | apps/backend/src/eligibility/zkpassport.ts:255-274 | goes on to verification exactly with confirmed control, a living challenge and a well-formed payload for the canonical query, handed in by this very call |
| `EligibilityServices.ZkPassportEligibility.ReceiveProofVerified` | apps/backend/src/eligibility/zkpassport.ts:275-331 | accepted exactly if the proof meets the policy, the challenge lives and nothing was recorded; then the run holds an accepted proof with everything before it |
| `EligibilityServices.ZkPassportEligibility.RecordClaims` | apps/backend/src/eligibility/zkpassport.ts:320-327 | recorded once; the same nullifier again is a duplicate, another one a conflict |
| `EligibilityServices.ZkPassportEligibility.Authorize` | apps/backend/src/eligibility/authorization.ts:178-182 | waits for account control, holding the session, unless missing, expired or busy |
| `EligibilityServices.ZkPassportEligibility.AuthorizeControlled` | apps/backend/src/eligibility/authorization.ts:187-192 | returns an issued grant again exactly with confirmed control of a living challenge, and the grant is earned |
| `EligibilityServices.ZkPassportEligibility.AuthorizeClaimed` | apps/backend/src/eligibility/authorization.ts:192-228 | goes on to signing, with an authorization dated now for the challenge's account, exactly if there are claims, the challenge lives and normalizing its account again gives it; context and nullifier of recorded claims always pass |
| `EligibilityServices.ZkPassportEligibility.AuthorizeSigned` | apps/backend/src/eligibility/authorization.ts:228-232 | returns and stores the grant exactly if it was signed and the challenge lives; it is the first of its challenge, and earned |
| `RejectionSampling.GenerateRandomBabyJubValue` | packages/crypto/ts/babyjub.ts:115-132 | the first accepted draw, reduced, hence below the field size; still drawing exactly while all draws are below the threshold |
| `RejectionSampling.CountBetween` | packages/crypto/ts/babyjub.ts:120-128 | how many numbers of an interval have a given residue |
| `RejectionSampling.FairIff` | packages/crypto/ts/babyjub.ts:116-128 | rejecting the draws below a threshold is fair if and only if threshold and number of draws leave the same remainder |
| `RejectionSampling.CommentedThresholdIsLeastFair` | packages/crypto/ts/babyjub.ts:116-118 | the commented formula is the least fair threshold for every field size |
| `RejectionSampling.CodedConstantIsFair` | packages/crypto/ts/babyjub.ts:119 | the coded constant is that formula's value for the EIP-197 group order, and exactly five draws give each value |

## Left out

- Trees of depth 0: only their construction, since the source then has no table of zeros to read from.
- Zero hashes: a hash of 0 would read as an absent node.
- PollMachine.Poll.PublishMessage: once a start has closed an open batch, or a batch is processed, states the chain hash and the batch hash pushed, and nothing about the batches, whose hashes no longer lie where their messages do.
- PollMachine.Poll.ProcessMessages: asks, once the state is copied, for trees that agree with the arrays and a ballot for every leaf; `updatePoll` says when it leaves them so.
- PollLifeCycle.RunPoll: asks that everyone who joins has signed up, as joining proofs show to the contract; with fewer ballots than leaves the source would read undefined ballots.
- ChainToTally.TallyFromLogs: asks the same of the logs; sizes, depths and the number of signups, which the source reads from the contracts, are parameters.
- `Ballot`, `VoteCounts` and `StateLeaf` are values: sharing one blank ballot between entries, and shared `nodes` after a tree's `copy`, are not captured.
- JavaScript numbers beyond 2^53, and `Math.log2` for the depth of the state tree, which is taken as the least depth that fits.
- The vote counts' subroot proof and data, which the tally computes and then omits from its inputs.
- The `commands` array, joining and joined circuit inputs, the sign-up LeanIMT inside the poll, `copy`, `equals` and JSON of all classes.
- LogReplay.GenerateMaciStateFromContract: rebuilds the state as a value, with the joins and messages each poll takes; `ChainToTally` performs them on the `Poll` object, where `deployPoll` and `updatePoll` throw as they do. Sleeping, backup file reading and the log file are left out, and the last block is a parameter.
- SnapshotRules.CollectPages: an indexer whose indexes do not ascend can make the source fetch for ever; a call is looked at after a number of pages, and is then pending, as are the loads and requests that wait for it.
- Numeric strings in rows are taken as parsable; a malformed one makes the source throw.
- TreeService.Service.RefreshSnapshot: concurrent refreshes share one load, so it is one step; the `epoch` test hook, timers and the joined-participant statistics are left out.
- TreeService.Service.GetInclusionProof: takes the background refresh of a stale cache as finished by the time the request ends.
- `recheckReceipt` and `verifyDisplayedReceipt`, which only change the status of the receipt on display.
- Eligibility: the payload is its query and its checked facts; the shape checks on the query result are not modelled, nor is the response of `begin`.
- JsonEquality: numbers are integers, and the canonical query is taken to hold JSON values only.
- Eligibility.Creates: random ids are taken never to repeat.
- Poseidon, EdDSA, ECDH, HMAC, EIP-712 signing, the ZKPassport SDK, RPC, Graph, HTTP, user interface and deployment.
