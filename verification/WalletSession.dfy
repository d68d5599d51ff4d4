/** The lock of lib/hydration.ts and the session state of hooks/useMaci.ts, updated in place, against module Hydration. */
module WalletSession {
  import opened Hydration
  import opened Results

  class FlightAnchor {
    var key: Option<Key>
    var owner: Option<nat>

    ghost function Value(): Anchor
      reads this
    {
      Anchor(key, owner)
    }

    constructor ()
      ensures Value() == FREE
    {
      key, owner := None, None;
    }

    predicate IsFlightHeld(k: Key)
      reads this
    {
      key == Some(k)
    }

    method BeginFlight(k: Key, o: nat)
      modifies this
      ensures Value() == Anchor(Some(k), Some(o))
    {
      key := Some(k);
      owner := Some(o);
    }

    method EndFlight(k: Key, o: nat)
      modifies this
      ensures Value() == if Releases(old(Value()), k, o) then FREE else old(Value())
    {
      if key != Some(k) {
        return;
      }
      if owner != Some(o) {
        return;
      }
      key := None;
      owner := None;
    }

    method InvalidateFlight()
      modifies this
      ensures Value() == FREE
    {
      key := None;
      owner := None;
    }
  }

  /** What the wallet, the configuration, the key store, the chain and the receipt store answer are parameters. */
  class Session {
    const lower: string -> string
    const anchor: FlightAnchor
    var operationId: nat
    var generation: nat
    var mounted: bool
    var voting: bool
    var connecting: Option<nat>
    var activeGeneration: nat
    var hydratedFor: Option<Key>
    var progress: Progress
    var participation: Participation
    var shown: Option<ShownReceipt>
    var runs: seq<HydrationRun>
    ghost var holder: Option<nat>
    ghost var past: seq<Event>

    ghost function St(): State
      reads this, anchor
    {
      State(operationId, generation, mounted, voting, connecting, activeGeneration, anchor.Value(), hydratedFor, progress,
            participation, shown, runs, holder)
    }

    /** The fields are what the events so far have made of them, and a held lock belongs to a run in flight that took it. */
    ghost predicate Valid()
      reads this, anchor
    {
      St() == After(lower, START, past) && LockIsLive()
    }

    ghost predicate LockIsLive()
      reads this, anchor
    {
      anchor.Value() != FREE ==>
        && holder.Some? && holder.value < |runs| && runs[holder.value].phase.InFlight() && runs[holder.value].op == operationId
        && anchor.Value() == Anchor(Some(runs[holder.value].phase.key), Some(operationId))
    }

    /** Nothing a hydration shows has changed. */
    twostate predicate ShowsTheSame()
      reads this
    {
      progress == old(progress) && participation == old(participation) && shown == old(shown) && hydratedFor == old(hydratedFor)
    }

    /** Every run that was under way belongs to an older operation, so it stays silent for good. */
    twostate predicate SilencesOlderRuns()
      reads this
    {
      forall j :: 0 <= j < |old(runs)| ==> j < |runs| && runs[j].op < operationId
    }

    /** The event that has just been handled joins the run. */
    ghost method Happened(e: Event, before: State)
      requires before == After(lower, START, past) && St() == Next(lower, before, e)
      modifies `past
      ensures Valid() && past == old(past) + [e]
    {
      hide Next, After;
      AfterSnoc(lower, START, past, e);
      past := past + [e];
      var h := LockBelongsToLiveRun(lower, past, St());
    }

    constructor (lower: string -> string)
      ensures Valid() && past == [] && this.lower == lower && fresh(anchor)
    {
      this.lower := lower;
      anchor := new FlightAnchor();
      operationId, generation, mounted, voting, connecting, activeGeneration := 0, 0, true, false, None, 0;
      hydratedFor, progress, participation, shown, runs, holder, past := None, Progress(None, Idle), Checking, None, [], None, [];
    }

    // ----- guards and writes

    method IsCurrent(r: HydrationRun) returns (ok: bool)
      ensures ok == Current(St(), r)
    {
      var busy := voting || connecting.Some?;
      ok := mounted && r.generation == generation && r.op == operationId && !busy && !InFlightStatus(progress.status);
    }

    method ApplyHydrationWrite(w: HydrationWrite)
      modifies `hydratedFor, `progress, `participation, `shown
      ensures St() == Apply(lower, old(St()), w)
    {
      match w
      case WriteDisconnected =>
        hydratedFor := None;
        progress := Progress(None, Idle);
        participation := Disconnected;
        shown := None;
      case WriteProbeError =>
        participation := LookupFailed(None);
      case WriteWrongChain(account) =>
        progress := Progress(Some(account), Idle);
        participation := WrongChain;
      case WriteChecking(account) =>
        progress := Progress(Some(account), if progress.status == Voted then Voted else Idle);
        participation := Checking;
      case WriteKeyMissing(account) =>
        progress := Progress(Some(account), Idle);
        participation := KeyMissing;
      case WriteKeyInvalid(account) =>
        progress := Progress(Some(account), Idle);
        participation := KeyInvalid;
      case WriteKeyStorageError(account) =>
        progress := Progress(Some(account), Idle);
        participation := KeyStorageError;
      case WriteReady(account, registered, stateIndex, pollStateIndex) =>
        progress := Progress(Some(account), if progress.status == Voted then Voted else Idle);
        participation := Ready(registered, stateIndex, pollStateIndex);
      case WriteLookupFailed(account, known) =>
        progress := Progress(Some(account), Idle);
        participation := LookupFailed(known);
      case WriteReceipt(account, receipt, status) =>
        if shown.Some? && lower(shown.value.receipt.txHash) != lower(receipt.txHash) {
          return;
        }
        shown := Some(ShownReceipt(receipt, account, status));
    }

    method GuardedWrite(r: HydrationRun, w: HydrationWrite)
      modifies `hydratedFor, `progress, `participation, `shown
      ensures St() == Write(lower, old(St()), r, w)
    {
      hide Apply, Current;
      var current := IsCurrent(r);
      if !current {
        return;
      }
      if w.WriteReceipt? {
        if shown.Some? && lower(shown.value.receipt.txHash) != lower(w.receipt.txHash) {
          return;
        }
      }
      ApplyHydrationWrite(w);
    }

    method Mark(r: HydrationRun, key: Key)
      modifies `hydratedFor
      ensures St() == MarkHydrated(old(St()), r, key)
    {
      var current := IsCurrent(r);
      if current {
        hydratedFor := Some(key);
      }
    }

    /** The finally block, after which the run is over. */
    method Finish(i: nat, key: Key)
      requires i < |runs|
      modifies `runs, `holder, anchor
      ensures St() == Landed(old(St()), i, key) && runs == old(runs)[i := old(runs[i]).(phase := Over)]
    {
      if Releases(anchor.Value(), key, runs[i].op) {
        holder := None;
      }
      anchor.EndFlight(key, runs[i].op);
      runs := runs[i := runs[i].(phase := Over)];
    }

    // ----- runHydration, from await to await

    method Hydrate()
      modifies `runs
      ensures St() == Started(old(St()))
    {
      runs := runs + [HydrationRun(operationId, generation, Peeking)];
    }

    method AfterPeekWallet(i: nat, peek: WalletPeek, pollChainId: Option<int>, keyState: KeyState)
      requires Valid() && i < |runs| && runs[i].phase.Peeking?
      modifies this, anchor
      ensures Valid() && past == old(past) + [Peeked(i, peek, pollChainId, keyState)]
      ensures !old(Current(St(), runs[i])) ==> ShowsTheSame()
      ensures old(shown).Some? && !peek.NoProvider? && !peek.NotConnected? ==> ReceiptKept(lower, old(St()), St())
    {
      hide Next, Current, After, ReceiptKept;
      Piece(St(), Peeked(i, peek, pollChainId, keyState), i);
      PeekWallet(i, peek, pollChainId, keyState);
      Happened(Peeked(i, peek, pollChainId, keyState), old(St()));
    }

    method PeekWallet(i: nat, peek: WalletPeek, pollChainId: Option<int>, keyState: KeyState)
      requires i < |runs| && runs[i].phase.Peeking?
      modifies this, anchor
      ensures St() == Next(lower, old(St()), Peeked(i, peek, pollChainId, keyState)) && past == old(past)
    {
      hide Apply, Current, Write, AfterAcquiring, RunStep, ReceiptKept;
      var r := runs[i];
      var current := IsCurrent(r);
      match peek {
        case PeekThrows =>
          runs := runs[i := r.(phase := Over)];
          GuardedWrite(r, WriteProbeError);
        case PeekError =>
          runs := runs[i := r.(phase := Over)];
          GuardedWrite(r, WriteProbeError);
        case NoProvider =>
          runs := runs[i := r.(phase := Over)];
          if current {
            ApplyHydrationWrite(WriteDisconnected);
          }
        case NotConnected =>
          runs := runs[i := r.(phase := Over)];
          if current {
            ApplyHydrationWrite(WriteDisconnected);
          }
        case Found(account, chainId) =>
          if !current {
            runs := runs[i := r.(phase := Over)];
          } else {
            AfterFound(i, account, chainId, pollChainId, keyState);
          }
      }
    }

    /** What every piece of a run keeps. */
    lemma Piece(s: State, e: Event, i: nat)
      requires i < |s.runs| && e.IsOf(i)
      ensures !Current(s, s.runs[i]) ==> DisplayOf(Next(lower, s, e)) == DisplayOf(s)
      ensures s.shown.Some? && !(e.Peeked? && (e.peek.NoProvider? || e.peek.NotConnected?)) ==> ReceiptKept(lower, s, Next(lower, s, e))
    {
      hide Next, Current, After;
      if !Current(s, s.runs[i]) {
        StaleRunShowsNothing(lower, s, e, i);
      }
      if s.shown.Some? {
        ReceiptIsNotReplaced(lower, s, e, i);
      }
    }

    /** The rest of the piece, for a current run with a wallet. */
    method AfterFound(i: nat, account: string, chainId: int, pollChainId: Option<int>, keyState: KeyState)
      requires i < |runs| && Current(St(), runs[i])
      modifies this, anchor
      ensures St() == AfterPeek(lower, old(St()), i, Found(account, chainId), pollChainId, keyState) && past == old(past)
    {
      hide Apply, Write, AfterAcquiring, RunStep, ReceiptKept;
      var r := runs[i];
      if pollChainId == None {
        runs := runs[i := r.(phase := Over)];
        GuardedWrite(r, WriteLookupFailed(account, None));
        return;
      }
      if chainId != pollChainId.value {
        runs := runs[i := r.(phase := Over)];
        GuardedWrite(r, WriteWrongChain(account));
        return;
      }
      var key := Key(chainId, lower(account));
      if hydratedFor == Some(key) || anchor.IsFlightHeld(key) {
        runs := runs[i := r.(phase := Over)];
        return;
      }
      anchor.BeginFlight(key, r.op);
      holder := Some(i);
      runs := runs[i := r.(phase := LookingUp(account, key))];
      GuardedWrite(r, WriteChecking(account));
      ReadKey(i, account, key, keyState);
    }

    method ReadKey(i: nat, account: string, key: Key, keyState: KeyState)
      requires i < |runs|
      modifies this, anchor
      ensures St() == AfterAcquiring(lower, old(St()), i, account, key, keyState) && past == old(past)
    {
      hide Apply, Current, Write, MarkHydrated, Landed, RunStep;
      var r := runs[i];
      if keyState.KeyPresent? {
        return;
      }
      if keyState.ReadThrows? || keyState.StorageError? {
        GuardedWrite(r, WriteKeyStorageError(account));
      } else if keyState.Missing? {
        GuardedWrite(r, WriteKeyMissing(account));
        Mark(r, key);
      } else {
        GuardedWrite(r, WriteKeyInvalid(account));
        Mark(r, key);
      }
      Finish(i, key);
    }

    method AfterLookupParticipation(i: nat, data: Option<Lookup>, stored: Stored)
      requires Valid() && i < |runs| && runs[i].phase.LookingUp?
      modifies this, anchor
      ensures Valid() && past == old(past) + [LookedUp(i, data, stored)]
      ensures !old(Current(St(), runs[i])) ==> ShowsTheSame() && i < |runs| && runs[i].phase.Over?
      ensures old(shown).Some? ==> ReceiptKept(lower, old(St()), St())
    {
      hide Next, Current, After, ReceiptKept;
      Piece(St(), LookedUp(i, data, stored), i);
      LookupParticipation(i, data, stored);
      Happened(LookedUp(i, data, stored), old(St()));
    }

    method LookupParticipation(i: nat, data: Option<Lookup>, stored: Stored)
      requires i < |runs| && runs[i].phase.LookingUp?
      modifies this, anchor
      ensures St() == Next(lower, old(St()), LookedUp(i, data, stored)) && past == old(past)
      ensures !old(Current(St(), runs[i])) ==> runs == old(runs)[i := old(runs[i]).(phase := Over)]
    {
      hide Apply, Current, Write, MarkHydrated, Landed, RunStep;
      var r := runs[i];
      var LookingUp(account, key) := r.phase;
      var current := IsCurrent(r);
      if data == None {
        GuardedWrite(r, WriteLookupFailed(account, None));
        Finish(i, key);
      } else if !current {
        Finish(i, key);
      } else {
        var d := data.value;
        GuardedWrite(r, WriteReady(account, d.registered, d.stateIndex, if d.isJoined then d.pollStateIndex else None));
        if stored.StoredReceipt? {
          runs := runs[i := r.(phase := CheckingReceipt(account, key, stored.receipt))];
        } else {
          Mark(r, key);
          Finish(i, key);
        }
      }
    }

    method AfterCheckReceipt(i: nat, status: ReceiptStatus)
      requires Valid() && i < |runs| && runs[i].phase.CheckingReceipt?
      modifies this, anchor
      ensures Valid() && past == old(past) + [Checked(i, status)]
      ensures !old(Current(St(), runs[i])) ==> ShowsTheSame()
      ensures i < |runs| && runs[i].phase.Over? && (old(shown).Some? ==> ReceiptKept(lower, old(St()), St()))
    {
      hide Next, Current, After, ReceiptKept;
      Piece(St(), Checked(i, status), i);
      CheckReceipt(i, status);
      Happened(Checked(i, status), old(St()));
    }

    method CheckReceipt(i: nat, status: ReceiptStatus)
      requires i < |runs| && runs[i].phase.CheckingReceipt?
      modifies this, anchor
      ensures St() == Next(lower, old(St()), Checked(i, status)) && past == old(past)
      ensures runs == old(runs)[i := old(runs[i]).(phase := Over)]
    {
      hide Apply, Current, Write, MarkHydrated, Landed, RunStep;
      var r := runs[i];
      var CheckingReceipt(account, key, receipt) := r.phase;
      GuardedWrite(r, WriteReceipt(account, receipt, status));
      Mark(r, key);
      Finish(i, key);
    }

    // ----- the events of the hook

    method OnMount()
      requires Valid()
      modifies `mounted, `runs, `past
      ensures Valid() && past == old(past) + [Mount] && |runs| == |old(runs)| + 1
    {
      hide AfterPeek, AfterLookup, AfterCheck, RunStep;
      mounted := true;
      Hydrate();
      Happened(Mount, old(St()));
    }

    method OnUnmount()
      requires Valid()
      modifies `mounted, `generation, `past
      ensures Valid() && past == old(past) + [Unmount]
      ensures forall j :: 0 <= j < |runs| ==> !Current(St(), runs[j])
    {
      mounted := false;
      generation := generation + 1;
      Happened(Unmount, old(St()));
    }

    /** accountsChanged and chainChanged. */
    method Reset()
      requires Valid()
      modifies this, anchor
      ensures Valid() && past == old(past) + [WalletChanged] && SilencesOlderRuns()
      ensures anchor.Value() == FREE && shown == None && hydratedFor == None && |runs| == |old(runs)| + 1
    {
      hide AfterPeek, AfterLookup, AfterCheck, RunStep, After, Current;
      OlderOps();
      generation := generation + 1;
      operationId := operationId + 1;
      hydratedFor := None;
      anchor.InvalidateFlight();
      holder := None;
      ClearDisplay();
      Hydrate();
      Happened(WalletChanged, old(St()));
    }

    lemma OlderOps()
      requires Valid()
      ensures forall j :: 0 <= j < |runs| ==> runs[j].op <= operationId
    {
      NoContextIsSteady(lower, START, past);
      AfterKeepsInv(lower, None, START, past);
    }

    method ClearDisplay()
      modifies `shown, `progress, `participation
      ensures St() == old(St()).(shown := None, progress := Progress(None, Idle), participation := Checking)
    {
      shown := None;
      progress := Progress(None, Idle);
      participation := Checking;
    }

    method StartVote() returns (ok: bool)
      requires Valid()
      modifies this, anchor
      ensures Valid() && past == old(past) + [VoteStarts] && ShowsTheSame()
      ensures ok == !old(St()).Busy() && (ok ==> SilencesOlderRuns() && anchor.Value() == FREE && voting)
    {
      hide AfterPeek, AfterLookup, AfterCheck, RunStep, After, Current;
      OlderOps();
      if voting || connecting.Some? {
        ok := false;
      } else {
        voting := true;
        operationId := operationId + 1;
        anchor.InvalidateFlight();
        holder := None;
        activeGeneration := generation;
        ok := true;
      }
      Happened(VoteStarts, old(St()));
    }

    /** onProgress, while a vote is going on. */
    method ReportProgress(p: Progress)
      requires Valid() && voting
      modifies `progress, `past
      ensures Valid() && past == old(past) + [VoteProgress(p)]
      ensures progress == if mounted && activeGeneration == generation then p else old(progress)
    {
      if mounted && activeGeneration == generation {
        progress := p;
      }
      Happened(VoteProgress(p), old(St()));
    }

    /** onReceipt, when the vote's transaction is out. */
    method ShowSubmitted(receipt: Receipt, account: string)
      requires Valid() && voting
      modifies `shown, `past
      ensures Valid() && past == old(past) + [VoteSubmitted(receipt, account)]
    {
      if mounted && activeGeneration == generation {
        shown := Some(ShownReceipt(receipt, account, Unverified));
      }
      Happened(VoteSubmitted(receipt, account), old(St()));
    }

    method EndVote()
      requires Valid() && voting
      modifies this
      ensures Valid() && past == old(past) + [VoteEnds] && !St().Busy()
      ensures |runs| == |old(runs)| + (if mounted then 1 else 0) && shown == old(shown)
    {
      hide AfterPeek, AfterLookup, AfterCheck, RunStep;
      NeverBoth();
      voting := false;
      if mounted {
        hydratedFor := None;
        Hydrate();
      }
      Happened(VoteEnds, old(St()));
    }

    /** A vote and a connection never go on together. */
    lemma NeverBoth()
      requires Valid()
      ensures !(voting && connecting.Some?)
    {
      OneActivity(lower, START, past);
    }

    method StartConnect() returns (ok: bool)
      requires Valid()
      modifies this
      ensures Valid() && past == old(past) + [ConnectStarts] && ok == !old(St()).Busy()
      ensures ok ==> forall j :: 0 <= j < |runs| ==> !Current(St(), runs[j])
    {
      hide AfterPeek, AfterLookup, AfterCheck, RunStep;
      if voting || connecting.Some? {
        ok := false;
      } else {
        connecting := Some(generation);
        progress := Progress(None, Connecting);
        ok := true;
      }
      Happened(ConnectStarts, old(St()));
    }

    /** `account` is None where the wallet could not be reached. */
    method EndConnect(account: Option<string>)
      requires Valid() && connecting.Some?
      modifies this
      ensures Valid() && past == old(past) + [ConnectEnds(account)] && !St().Busy()
      ensures generation != old(connecting).value ==> ShowsTheSame() && runs == old(runs)
      ensures mounted && generation == old(connecting).value ==>
        && runs == old(runs) + [HydrationRun(operationId, generation, Peeking)] && hydratedFor == None
        && progress == Progress(account, Idle) && participation == old(participation) && shown == old(shown)
    {
      hide AfterPeek, AfterLookup, AfterCheck, RunStep;
      NeverBoth();
      var snapshot := connecting.value;
      if mounted && snapshot == generation {
        progress := Progress(account, Idle);
      }
      connecting := None;
      if mounted && snapshot == generation {
        hydratedFor := None;
        Hydrate();
      }
      Happened(ConnectEnds(account), old(St()));
    }
  }
}
