/** The calls a poll receives before it is processed: joins and messages, and when replaying them throws. */
module PollActions {
  import opened DomainObjects
  import opened Field
  import opened Voting

  datatype PollAction = Join(nullifier: int, publicKey: PublicKey, credits: int) | Publish(message: Message, key: PublicKey)

  function JoinersIn(actions: seq<PollAction>): seq<StateLeaf> {
    if actions == [] then []
    else
      var last := actions[|actions| - 1];
      JoinersIn(actions[..|actions| - 1]) + if last.Join? then [StateLeaf(last.publicKey, last.credits)] else []
  }

  function MessagesIn(actions: seq<PollAction>): seq<Published> {
    if actions == [] then []
    else
      var last := actions[|actions| - 1];
      MessagesIn(actions[..|actions| - 1]) + if last.Publish? then [Published(last.message, last.key)] else []
  }

  function NullifiersIn(actions: seq<PollAction>): set<int> {
    if actions == [] then {}
    else
      var last := actions[|actions| - 1];
      NullifiersIn(actions[..|actions| - 1]) + if last.Join? then {last.nullifier} else {}
  }

  predicate InField(message: Message, key: PublicKey) {
    key.x < SNARK_FIELD_SIZE && key.y < SNARK_FIELD_SIZE && forall d :: d in message.data ==> d < SNARK_FIELD_SIZE
  }

  /** The poll takes the action after the others: a new nullifier, or a message in the field. */
  predicate CanFollow(before: seq<PollAction>, action: PollAction) {
    if action.Join? then action.nullifier !in NullifiersIn(before) else InField(action.message, action.key)
  }

  /** No nullifier joins twice and every message is in the field. */
  predicate Replayable(actions: seq<PollAction>) {
    actions == [] || (Replayable(actions[..|actions| - 1]) && CanFollow(actions[..|actions| - 1], actions[|actions| - 1]))
  }

  lemma {:induction false} ReplayablePrefix(actions: seq<PollAction>, i: nat)
    requires i <= |actions| && Replayable(actions)
    ensures Replayable(actions[..i])
    decreases |actions|
  {
    if i < |actions| {
      var before := actions[..|actions| - 1];
      ReplayablePrefix(before, i);
      assert before[..i] == actions[..i];
    } else {
      assert actions[..i] == actions;
    }
  }

  lemma OneMore(before: seq<PollAction>, action: PollAction)
    ensures JoinersIn(before + [action]) == JoinersIn(before) + if action.Join? then [StateLeaf(action.publicKey, action.credits)] else []
    ensures MessagesIn(before + [action]) == MessagesIn(before) + if action.Publish? then [Published(action.message, action.key)] else []
    ensures NullifiersIn(before + [action]) == NullifiersIn(before) + if action.Join? then {action.nullifier} else {}
    ensures Replayable(before + [action]) == (Replayable(before) && CanFollow(before, action))
  {
    var after := before + [action];
    assert after[..|after| - 1] == before && after[|after| - 1] == action;
  }
}
