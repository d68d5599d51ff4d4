/**
 apps/front-end/src/lib/hydration.ts with the events of hooks/useMaci.ts: wallet hydrations that interleave with votes,
 connections and wallet switches. Code between two awaits runs in one piece, so each such piece is one event.
 */
module Hydration {
  import opened Results

  /** `${chainId}:${account.toLowerCase()}`, and null for a key or owner as None. */
  datatype Key = Key(chainId: int, account: string)

  datatype Anchor = Anchor(key: Option<Key>, owner: Option<nat>)

  const FREE: Anchor := Anchor(None, None)

  datatype VoteStatus = Idle | Connecting | SigningUp | Joining | ReadyToVote | Voting | Voted

  datatype Progress = Progress(account: Option<string>, status: VoteStatus)

  datatype Participation =
    | Checking | Disconnected | WrongChain | KeyMissing | KeyInvalid | KeyStorageError
    | Ready(registered: bool, stateIndex: Option<string>, pollStateIndex: Option<string>)
    | LookupFailed(known: Option<bool>)

  datatype Receipt = Receipt(txHash: string, submittedAt: int)

  datatype ReceiptStatus = Confirmed | Pending | Reverted | Unexpected | Unverified | Unavailable

  datatype ShownReceipt = ShownReceipt(receipt: Receipt, account: string, status: ReceiptStatus)

  datatype HydrationWrite =
    | WriteDisconnected
    | WriteProbeError
    | WriteWrongChain(account: string)
    | WriteChecking(account: string)
    | WriteKeyMissing(account: string)
    | WriteKeyInvalid(account: string)
    | WriteKeyStorageError(account: string)
    | WriteReady(account: string, registered: bool, stateIndex: Option<string>, pollStateIndex: Option<string>)
    | WriteLookupFailed(account: string, known: Option<bool>)
    | WriteReceipt(account: string, receipt: Receipt, status: ReceiptStatus)

  datatype WalletPeek = Found(account: string, chainId: int) | NoProvider | NotConnected | PeekError | PeekThrows

  /** None stands for an exception. */
  datatype KeyState = KeyPresent | Missing | Invalid | StorageError | ReadThrows

  datatype Lookup = Lookup(registered: bool, stateIndex: Option<string>, isJoined: bool, pollStateIndex: Option<string>)

  datatype Stored = NothingStored | StoredReceipt(receipt: Receipt) | LoadThrows

  /** Where a run is waiting. Between beginFlight and endFlight it is in flight. */
  datatype Phase =
    | Peeking
    | LookingUp(account: string, key: Key)
    | CheckingReceipt(account: string, key: Key, stored: Receipt)
    | Over
  {
    predicate InFlight() { LookingUp? || CheckingReceipt? }
  }

  /** A run with the operation id and the generation it captured. */
  datatype HydrationRun = HydrationRun(op: nat, generation: nat, phase: Phase)

  /** `holder` is history: the run that acquired the lock last, while it is held. */
  datatype State = State(
    operationId: nat, generation: nat, mounted: bool,
    voting: bool, connecting: Option<nat>, activeGeneration: nat,
    anchor: Anchor, hydratedFor: Option<Key>,
    progress: Progress, participation: Participation, shown: Option<ShownReceipt>,
    runs: seq<HydrationRun>, holder: Option<nat>)
  {
    /** busy.current: a vote or a connection is going on. */
    predicate Busy() { voting || connecting.Some? }
  }

  predicate InFlightStatus(status: VoteStatus) {
    status == Connecting || status == SigningUp || status == Joining || status == Voting
  }

  // ----- what a run may do

  /** canApply and the operation id check together. */
  predicate Current(s: State, r: HydrationRun) {
    s.mounted && r.generation == s.generation && r.op == s.operationId && !s.Busy() && !InFlightStatus(s.progress.status)
  }

  /** Everything but the display is the same. */
  ghost predicate OnlyDisplay(s: State, s': State) {
    && s'.anchor == s.anchor && s'.holder == s.holder && s'.runs == s.runs && s'.operationId == s.operationId
    && s'.generation == s.generation && s'.mounted == s.mounted && s'.activeGeneration == s.activeGeneration
    && s'.voting == s.voting && s'.connecting == s.connecting
  }

  /** And a run may apply afterwards iff it might before. */
  ghost predicate SameControl(s: State, s': State) {
    OnlyDisplay(s, s') && InFlightStatus(s'.progress.status) == InFlightStatus(s.progress.status)
  }

  /** A receipt on display stays, or is replaced by one of the same transaction. */
  ghost predicate ReceiptKept(lower: string -> string, s: State, s': State) {
    s.shown.Some? ==> s'.shown.Some? && lower(s'.shown.value.receipt.txHash) == lower(s.shown.value.receipt.txHash)
  }

  /** What a piece of run i does at most: no other run, no counter, no other transaction's receipt; a marker only at its end. */
  ghost predicate RunStep(lower: string -> string, s: State, i: nat, s': State)
    requires i < |s.runs|
  {
    && s'.operationId == s.operationId && |s'.runs| == |s.runs| && s'.runs[i].op == s.runs[i].op
    && (forall j :: 0 <= j < |s.runs| && j != i ==> s'.runs[j] == s.runs[j])
    && ReceiptKept(lower, s, s')
    && (s'.hydratedFor != s.hydratedFor ==> Current(s, s.runs[i]) && s'.runs[i].phase.Over?)
  }

  function KeepVoted(status: VoteStatus): VoteStatus {
    if status == Voted then Voted else Idle
  }

  /** applyHydrationWrite; `lower` is the case folding of strings. */
  function Apply(lower: string -> string, s: State, w: HydrationWrite): State {
    match w
    case WriteDisconnected =>
      s.(hydratedFor := None, progress := Progress(None, Idle), participation := Disconnected, shown := None)
    case WriteProbeError => s.(participation := LookupFailed(None))
    case WriteWrongChain(account) => s.(progress := Progress(Some(account), Idle), participation := WrongChain)
    case WriteChecking(account) =>
      s.(progress := Progress(Some(account), KeepVoted(s.progress.status)), participation := Checking)
    case WriteKeyMissing(account) => s.(progress := Progress(Some(account), Idle), participation := KeyMissing)
    case WriteKeyInvalid(account) => s.(progress := Progress(Some(account), Idle), participation := KeyInvalid)
    case WriteKeyStorageError(account) => s.(progress := Progress(Some(account), Idle), participation := KeyStorageError)
    case WriteReady(account, registered, stateIndex, pollStateIndex) =>
      s.(progress := Progress(Some(account), KeepVoted(s.progress.status)),
         participation := Ready(registered, stateIndex, pollStateIndex))
    case WriteLookupFailed(account, known) => s.(progress := Progress(Some(account), Idle), participation := LookupFailed(known))
    case WriteReceipt(account, receipt, status) =>
      if Clobbers(lower, s, receipt) then s else s.(shown := Some(ShownReceipt(receipt, account, status)))
  }

  /** A receipt of another transaction is on display. */
  predicate Clobbers(lower: string -> string, s: State, receipt: Receipt) {
    s.shown.Some? && lower(s.shown.value.receipt.txHash) != lower(receipt.txHash)
  }

  /** The guarded write of a run. */
  function Write(lower: string -> string, s: State, r: HydrationRun, w: HydrationWrite): (s': State)
    ensures SameControl(s, s') && (w.WriteDisconnected? || (ReceiptKept(lower, s, s') && s'.hydratedFor == s.hydratedFor))
  {
    if !Current(s, r) then s
    else if w.WriteReceipt? && Clobbers(lower, s, w.receipt) then s
    else Apply(lower, s, w)
  }

  function MarkHydrated(s: State, r: HydrationRun, key: Key): State {
    if Current(s, r) then s.(hydratedFor := Some(key)) else s
  }

  // ----- the lock

  predicate FlightHeld(anchor: Anchor, key: Key) { anchor.key == Some(key) }

  function BeganFlight(s: State, i: nat, account: string, key: Key): State
    requires i < |s.runs|
  {
    WithPhase(s.(anchor := Anchor(Some(key), Some(s.runs[i].op)), holder := Some(i)), i, LookingUp(account, key))
  }

  /** Cleanup releases the lock if it carries this run's key and operation id. */
  predicate Releases(anchor: Anchor, key: Key, owner: nat) {
    anchor.key == Some(key) && anchor.owner == Some(owner)
  }

  function EndedFlight(s: State, i: nat, key: Key): State
    requires i < |s.runs|
  {
    if Releases(s.anchor, key, s.runs[i].op) then s.(anchor := FREE, holder := None) else s
  }

  function WithPhase(s: State, i: nat, phase: Phase): State
    requires i < |s.runs|
  {
    s.(runs := s.runs[i := s.runs[i].(phase := phase)])
  }

  /** The finally block, and the end of the run. */
  function Landed(s: State, i: nat, key: Key): State
    requires i < |s.runs|
  {
    WithPhase(EndedFlight(s, i, key), i, Over)
  }

  // ----- the pieces of runHydration

  /** hydrate(): a new run captures the ids and waits for the wallet. */
  function Started(s: State): State {
    s.(runs := s.runs + [HydrationRun(s.operationId, s.generation, Peeking)])
  }

  /** From the wallet's answer to the next await; `pollChainId` is None where getConfig throws. */
  function AfterPeek(lower: string -> string, s: State, i: nat, peek: WalletPeek, pollChainId: Option<int>, keyState: KeyState): (s': State)
    requires i < |s.runs|
    ensures !peek.NoProvider? && !peek.NotConnected? ==> RunStep(lower, s, i, s')
    ensures s'.operationId == s.operationId && |s'.runs| == |s.runs| && s'.runs[i].op == s.runs[i].op
    ensures forall j :: 0 <= j < |s.runs| && j != i ==> s'.runs[j] == s.runs[j]
    ensures s'.hydratedFor.Some? && s'.hydratedFor != s.hydratedFor ==> Current(s, s.runs[i]) && s'.runs[i].phase.Over?
  {
    var r := s.runs[i];
    var over := WithPhase(s, i, Over);
    match peek
    case PeekThrows => Write(lower, over, r, WriteProbeError)
    case PeekError => Write(lower, over, r, WriteProbeError)
    case NoProvider => if Current(s, r) then Apply(lower, over, WriteDisconnected) else over
    case NotConnected => if Current(s, r) then Apply(lower, over, WriteDisconnected) else over
    case Found(account, chainId) =>
      var key := Key(chainId, lower(account));
      if !Current(s, r) then over
      else if pollChainId == None then Write(lower, over, r, WriteLookupFailed(account, None))
      else if Some(chainId) != pollChainId then Write(lower, over, r, WriteWrongChain(account))
      else if s.hydratedFor == Some(key) || FlightHeld(s.anchor, key) then over
      else AfterAcquiring(lower, Write(lower, BeganFlight(s, i, account, key), r, WriteChecking(account)), i, account, key, keyState)
  }

  function KeyProblem(keyState: KeyState, account: string): HydrationWrite {
    if keyState.Missing? then WriteKeyMissing(account)
    else if keyState.Invalid? then WriteKeyInvalid(account)
    else WriteKeyStorageError(account)
  }

  function AfterAcquiring(lower: string -> string, s: State, i: nat, account: string, key: Key, keyState: KeyState): (s': State)
    requires i < |s.runs|
    ensures RunStep(lower, s, i, s')
  {
    var r := s.runs[i];
    if keyState.KeyPresent? then s
    else
      var s1 := Write(lower, s, r, KeyProblem(keyState, account));
      Landed(if keyState.Missing? || keyState.Invalid? then MarkHydrated(s1, r, key) else s1, i, key)
  }

  /** From the participation lookup, which failed for None, to the next await. */
  function AfterLookup(lower: string -> string, s: State, i: nat, data: Option<Lookup>, stored: Stored): (s': State)
    requires i < |s.runs| && s.runs[i].phase.LookingUp?
    ensures RunStep(lower, s, i, s')
  {
    var r := s.runs[i];
    var LookingUp(account, key) := r.phase;
    match data
    case None => Landed(Write(lower, s, r, WriteLookupFailed(account, None)), i, key)
    case Some(d) =>
      if !Current(s, r) then Landed(s, i, key)
      else
        var s1 := Write(lower, s, r, WriteReady(account, d.registered, d.stateIndex, if d.isJoined then d.pollStateIndex else None));
        match stored
        case StoredReceipt(receipt) => WithPhase(s1, i, CheckingReceipt(account, key, receipt))
        case NothingStored => Landed(MarkHydrated(s1, r, key), i, key)
        case LoadThrows => Landed(MarkHydrated(s1, r, key), i, key)
  }

  /** From the receipt check, Unavailable where it threw, to the end. */
  function AfterCheck(lower: string -> string, s: State, i: nat, status: ReceiptStatus): (s': State)
    requires i < |s.runs| && s.runs[i].phase.CheckingReceipt?
    ensures RunStep(lower, s, i, s')
  {
    var r := s.runs[i];
    var CheckingReceipt(account, key, stored) := r.phase;
    Landed(MarkHydrated(Write(lower, s, r, WriteReceipt(account, stored, status)), r, key), i, key)
  }

  // ----- events

  datatype Event =
    | Mount | Unmount
    | WalletChanged
    | VoteStarts
    | VoteProgress(progress: Progress)
    | VoteSubmitted(receipt: Receipt, account: string)
    | VoteEnds
    | ConnectStarts
    | ConnectEnds(connected: Option<string>)
    | Peeked(i: nat, peek: WalletPeek, pollChainId: Option<int>, keyState: KeyState)
    | LookedUp(i: nat, data: Option<Lookup>, stored: Stored)
    | Checked(i: nat, status: ReceiptStatus)
  {
    /** The run an event belongs to. */
    predicate IsOf(run: nat) { (Peeked? || LookedUp? || Checked?) && i == run }
  }

  const START: State := State(0, 0, true, false, None, 0, FREE, None, Progress(None, Idle), Checking, None, [], None)

  /** An event that cannot happen in a state changes nothing. */
  function Next(lower: string -> string, s: State, e: Event): State {
    match e
    case Mount => Started(s.(mounted := true))
    case Unmount => s.(mounted := false, generation := s.generation + 1)
    case WalletChanged =>
      Started(s.(generation := s.generation + 1, operationId := s.operationId + 1, hydratedFor := None, anchor := FREE, holder := None,
                 shown := None, progress := Progress(None, Idle), participation := Checking))
    case VoteStarts =>
      if s.Busy() then s
      else s.(voting := true, operationId := s.operationId + 1, anchor := FREE, holder := None, activeGeneration := s.generation)
    case VoteProgress(progress) =>
      if s.voting && s.mounted && s.activeGeneration == s.generation then s.(progress := progress) else s
    case VoteSubmitted(receipt, account) =>
      if s.voting && s.mounted && s.activeGeneration == s.generation
      then s.(shown := Some(ShownReceipt(receipt, account, Unverified)))
      else s
    case VoteEnds =>
      if !s.voting then s
      else if s.mounted then Started(s.(voting := false, hydratedFor := None))
      else s.(voting := false)
    case ConnectStarts =>
      if s.Busy() then s else s.(connecting := Some(s.generation), progress := Progress(None, Connecting))
    case ConnectEnds(connected) =>
      if s.connecting == None then s
      else if s.mounted && s.connecting == Some(s.generation)
      then Started(s.(connecting := None, hydratedFor := None, progress := Progress(connected, Idle)))
      else s.(connecting := None)
    case Peeked(i, peek, pollChainId, keyState) =>
      if i < |s.runs| && s.runs[i].phase.Peeking? then AfterPeek(lower, s, i, peek, pollChainId, keyState) else s
    case LookedUp(i, data, stored) =>
      if i < |s.runs| && s.runs[i].phase.LookingUp? then AfterLookup(lower, s, i, data, stored) else s
    case Checked(i, status) =>
      if i < |s.runs| && s.runs[i].phase.CheckingReceipt? then AfterCheck(lower, s, i, status) else s
  }

  /** Any interleaving is a sequence of events. */
  function After(lower: string -> string, s: State, events: seq<Event>): State
    decreases |events|
  {
    if events == [] then s else After(lower, Next(lower, s, events[0]), events[1..])
  }

  // ----- the lock over every interleaving

  ghost predicate HolderOk(s: State) {
    match s.holder
    case None => s.anchor == FREE
    case Some(h) =>
      && h < |s.runs| && s.runs[h].phase.InFlight()
      && s.anchor == Anchor(Some(s.runs[h].phase.key), Some(s.operationId)) && s.runs[h].op == s.operationId
  }

  /** Runs of the current operation have seen the operation's one wallet context, and only the holder is in flight. */
  ghost predicate OneFlight(ctx: nat -> Key, s: State) {
    forall j :: 0 <= j < |s.runs| && s.runs[j].phase.InFlight() && s.runs[j].op == s.operationId ==>
      s.holder == Some(j) && s.runs[j].phase.key == ctx(s.operationId)
  }

  /** The wallet shows a run the context of the operation the run belongs to. */
  ghost predicate Steady(lower: string -> string, ctx: Option<nat -> Key>, s: State, e: Event) {
    ctx.Some? && e.Peeked? && e.peek.Found? && e.i < |s.runs| ==>
      Key(e.peek.chainId, lower(e.peek.account)) == ctx.value(s.runs[e.i].op)
  }

  ghost predicate AllSteady(lower: string -> string, ctx: Option<nat -> Key>, s: State, events: seq<Event>)
    decreases |events|
  {
    events != [] ==> Steady(lower, ctx, s, events[0]) && AllSteady(lower, ctx, Next(lower, s, events[0]), events[1..])
  }

  /** What holds in every state; with a wallet context per operation, one flight at a time as well. */
  ghost predicate Inv(ctx: Option<nat -> Key>, s: State) {
    && HolderOk(s) && (ctx.Some? ==> OneFlight(ctx.value, s))
    && forall i :: 0 <= i < |s.runs| ==> s.runs[i].op <= s.operationId && s.runs[i].generation <= s.generation
  }

  lemma WriteKeeps(lower: string -> string, s: State, r: HydrationRun, w: HydrationWrite)
    ensures SameControl(s, Write(lower, s, r, w))
  {
  }

  lemma MarkKeeps(s: State, r: HydrationRun, key: Key)
    ensures SameControl(s, MarkHydrated(s, r, key))
  {
  }

  lemma LandedKeepsInv(ctx: Option<nat -> Key>, s: State, i: nat, key: Key)
    requires Inv(ctx, s) && i < |s.runs| && s.runs[i].phase.InFlight() && s.runs[i].phase.key == key
    ensures Inv(ctx, Landed(s, i, key))
  {
  }

  lemma AcquiringKeepsInv(ctx: Option<nat -> Key>, lower: string -> string, s: State, i: nat, account: string, key: Key, keyState: KeyState)
    requires Inv(ctx, s) && i < |s.runs| && s.runs[i].phase == LookingUp(account, key)
    ensures Inv(ctx, AfterAcquiring(lower, s, i, account, key, keyState))
  {
    hide Inv, Landed, Write, MarkHydrated;
    forall w {
      WriteAndLand(ctx, lower, s, i, w);
    }
  }

  /** A guarded write and the cleanup, with or without the hydrated marker. */
  lemma WriteAndLand(ctx: Option<nat -> Key>, lower: string -> string, s: State, i: nat, w: HydrationWrite)
    requires Inv(ctx, s) && i < |s.runs| && s.runs[i].phase.InFlight()
    ensures SameControl(s, Write(lower, s, s.runs[i], w)) && Inv(ctx, Write(lower, s, s.runs[i], w))
    ensures Inv(ctx, Landed(Write(lower, s, s.runs[i], w), i, s.runs[i].phase.key))
    ensures |MarkHydrated(Write(lower, s, s.runs[i], w), s.runs[i], s.runs[i].phase.key).runs| == |s.runs|
    ensures Inv(ctx, Landed(MarkHydrated(Write(lower, s, s.runs[i], w), s.runs[i], s.runs[i].phase.key), i, s.runs[i].phase.key))
  {
    hide Inv, Landed, Write, MarkHydrated;
    var r, key := s.runs[i], s.runs[i].phase.key;
    var s1 := Write(lower, s, r, w);
    WriteKeeps(lower, s, r, w);
    SameControlKeepsInv(ctx, s, s1);
    MarkKeeps(s1, r, key);
    SameControlKeepsInv(ctx, s1, MarkHydrated(s1, r, key));
    LandedKeepsInv(ctx, s1, i, key);
    LandedKeepsInv(ctx, MarkHydrated(s1, r, key), i, key);
  }

  lemma SameControlKeepsInv(ctx: Option<nat -> Key>, s: State, s': State)
    requires Inv(ctx, s) && OnlyDisplay(s, s')
    ensures Inv(ctx, s')
  {
  }

  lemma PeekKeepsInv(ctx: Option<nat -> Key>, lower: string -> string, s: State, i: nat, peek: WalletPeek, pollChainId: Option<int>,
                     keyState: KeyState)
    requires Inv(ctx, s) && i < |s.runs| && s.runs[i].phase.Peeking?
    requires Steady(lower, ctx, s, Peeked(i, peek, pollChainId, keyState))
    ensures Inv(ctx, AfterPeek(lower, s, i, peek, pollChainId, keyState))
  {
    hide Inv, Landed, Write, MarkHydrated, AfterAcquiring, Current;
    var r, over := s.runs[i], WithPhase(s, i, Over);
    OverKeepsInv(ctx, s, i);
    forall w
      ensures Inv(ctx, Write(lower, over, r, w))
    {
      WriteKeeps(lower, over, r, w);
      SameControlKeepsInv(ctx, over, Write(lower, over, r, w));
    }
    SameControlKeepsInv(ctx, over, Apply(lower, over, WriteDisconnected));
    if peek.Found? && Current(s, r) && !FlightHeld(s.anchor, Key(peek.chainId, lower(peek.account))) {
      var key := Key(peek.chainId, lower(peek.account));
      var s1 := BeganFlight(s, i, peek.account, key);
      BeganKeepsInv(ctx, s, i, peek.account, key);
      WriteKeeps(lower, s1, r, WriteChecking(peek.account));
      SameControlKeepsInv(ctx, s1, Write(lower, s1, r, WriteChecking(peek.account)));
      AcquiringKeepsInv(ctx, lower, Write(lower, s1, r, WriteChecking(peek.account)), i, peek.account, key, keyState);
    }
  }

  lemma OverKeepsInv(ctx: Option<nat -> Key>, s: State, i: nat)
    requires Inv(ctx, s) && i < |s.runs| && s.runs[i].phase.Peeking?
    ensures Inv(ctx, WithPhase(s, i, Over))
  {
  }

  lemma BeganKeepsInv(ctx: Option<nat -> Key>, s: State, i: nat, account: string, key: Key)
    requires Inv(ctx, s) && i < |s.runs| && Current(s, s.runs[i]) && !FlightHeld(s.anchor, key)
    requires ctx.Some? ==> key == ctx.value(s.runs[i].op)
    ensures Inv(ctx, BeganFlight(s, i, account, key))
  {
  }

  lemma LookupKeepsInv(ctx: Option<nat -> Key>, lower: string -> string, s: State, i: nat, data: Option<Lookup>, stored: Stored)
    requires Inv(ctx, s) && i < |s.runs| && s.runs[i].phase.LookingUp?
    ensures Inv(ctx, AfterLookup(lower, s, i, data, stored))
  {
    hide Inv, Landed, Write, MarkHydrated, Current;
    var r := s.runs[i];
    var LookingUp(account, key) := r.phase;
    LandedKeepsInv(ctx, s, i, key);
    forall w {
      WriteAndLand(ctx, lower, s, i, w);
    }
    forall w, receipt
      ensures SameControl(s, Write(lower, s, r, w))
      ensures Inv(ctx, WithPhase(Write(lower, s, r, w), i, CheckingReceipt(account, key, receipt)))
    {
      WriteAndLand(ctx, lower, s, i, w);
      NextPhaseKeepsInv(ctx, Write(lower, s, r, w), i, receipt);
    }
  }

  lemma NextPhaseKeepsInv(ctx: Option<nat -> Key>, s: State, i: nat, receipt: Receipt)
    requires Inv(ctx, s) && i < |s.runs| && s.runs[i].phase.LookingUp?
    ensures Inv(ctx, WithPhase(s, i, CheckingReceipt(s.runs[i].phase.account, s.runs[i].phase.key, receipt)))
  {
  }

  lemma CheckKeepsInv(ctx: Option<nat -> Key>, lower: string -> string, s: State, i: nat, status: ReceiptStatus)
    requires Inv(ctx, s) && i < |s.runs| && s.runs[i].phase.CheckingReceipt?
    ensures Inv(ctx, AfterCheck(lower, s, i, status))
  {
    hide Inv, Landed, Write, MarkHydrated;
    WriteAndLand(ctx, lower, s, i, WriteReceipt(s.runs[i].phase.account, s.runs[i].phase.stored, status));
  }

  lemma NextKeepsInv(ctx: Option<nat -> Key>, lower: string -> string, s: State, e: Event)
    requires Inv(ctx, s) && Steady(lower, ctx, s, e)
    ensures Inv(ctx, Next(lower, s, e))
  {
    hide AfterPeek, AfterLookup, AfterCheck, RunStep, Current;
    match e
    case Peeked(i, peek, pollChainId, keyState) =>
      if i < |s.runs| && s.runs[i].phase.Peeking? {
        PeekKeepsInv(ctx, lower, s, i, peek, pollChainId, keyState);
      }
    case LookedUp(i, data, stored) =>
      if i < |s.runs| && s.runs[i].phase.LookingUp? {
        LookupKeepsInv(ctx, lower, s, i, data, stored);
      }
    case Checked(i, status) =>
      if i < |s.runs| && s.runs[i].phase.CheckingReceipt? {
        CheckKeepsInv(ctx, lower, s, i, status);
      }
    case _ =>
  }

  lemma {:induction false} AfterKeepsInv(lower: string -> string, ctx: Option<nat -> Key>, s: State, events: seq<Event>)
    requires Inv(ctx, s) && AllSteady(lower, ctx, s, events)
    ensures Inv(ctx, After(lower, s, events))
    decreases |events|
  {
    if events != [] {
      NextKeepsInv(ctx, lower, s, events[0]);
      AfterKeepsInv(lower, ctx, Next(lower, s, events[0]), events[1..]);
    }
  }

  lemma {:induction false} NoContextIsSteady(lower: string -> string, s: State, events: seq<Event>)
    ensures AllSteady(lower, None, s, events)
    decreases |events|
  {
    if events != [] {
      NoContextIsSteady(lower, Next(lower, s, events[0]), events[1..]);
    }
  }

  /**
   Over every interleaving: a held lock belongs to the current operation and to a run in flight that acquired it for
   its own key. So when no run is in flight the lock is free: no account is left stranded.
   */
  lemma LockBelongsToLiveRun(lower: string -> string, events: seq<Event>, s: State) returns (h: nat)
    requires s == After(lower, START, events)
    ensures s.anchor != FREE ==>
      && s.holder == Some(h) && h < |s.runs| && s.runs[h].phase.InFlight() && s.runs[h].op == s.operationId
      && s.anchor == Anchor(Some(s.runs[h].phase.key), Some(s.runs[h].op))
    ensures (forall i :: 0 <= i < |s.runs| ==> !s.runs[i].phase.InFlight()) ==> s.anchor == FREE
  {
    NoContextIsSteady(lower, START, events);
    AfterKeepsInv(lower, None, START, events);
    h := s.holder.GetOr(0);
  }

  // ----- cleanup

  /**
   A run that lands frees the lock of another run exactly when the two have the same key and the same operation id,
   although cleanup is meant to free only the lock the same run acquired.
   */
  lemma FreesAnothersLockIff(s: State, i: nat, h: nat)
    requires Inv(None, s) && s.holder == Some(h) && i < |s.runs| && i != h && s.runs[i].phase.InFlight()
    ensures Landed(s, i, s.runs[i].phase.key).anchor == FREE
       <==> s.runs[i].phase.key == s.runs[h].phase.key && s.runs[i].op == s.runs[h].op
    ensures Landed(s, i, s.runs[i].phase.key).anchor == FREE || Landed(s, i, s.runs[i].phase.key).anchor == s.anchor
  {
  }

  lemma {:induction false} AfterSnoc(lower: string -> string, s: State, events: seq<Event>, e: Event)
    ensures After(lower, s, events + [e]) == Next(lower, After(lower, s, events), e)
    decreases |events|
  {
    if events == [] {
      assert events + [e] == [e] && [e][1..] == [];
    } else {
      assert (events + [e])[1..] == events[1..] + [e];
      AfterSnoc(lower, Next(lower, s, events[0]), events[1..], e);
    }
  }

  function Same(x: string): string { x }

  /** Nothing but hydrations is going on, in the first operation. */
  ghost predicate Calm(s: State) {
    s.mounted && !s.Busy() && s.operationId == 0 && s.generation == 0 && s.progress.status == Idle
  }

  lemma TakesOff(s: State, i: nat, account: string)
    requires Calm(s) && i < |s.runs| && s.runs[i] == HydrationRun(0, 0, Peeking)
    requires s.hydratedFor == None && !FlightHeld(s.anchor, Key(1, account))
    ensures var s' := AfterPeek(Same, s, i, Found(account, 1), Some(1), KeyPresent);
            && Calm(s') && s'.runs == s.runs[i := HydrationRun(0, 0, LookingUp(account, Key(1, account)))]
            && s'.anchor == Anchor(Some(Key(1, account)), Some(0)) && s'.holder == Some(i)
  {
  }

  /** Connecting again, with the wallet at an account whose lock is not held: another run of the same operation sets off. */
  lemma ConnectsAgain(events: seq<Event>, s: State, account: string) returns (events': seq<Event>, s': State)
    requires s == After(Same, START, events) && Calm(s) && !FlightHeld(s.anchor, Key(1, account))
    ensures s' == After(Same, START, events') && Calm(s')
    ensures s'.runs == s.runs + [HydrationRun(0, 0, LookingUp(account, Key(1, account)))]
    ensures s'.anchor == Anchor(Some(Key(1, account)), Some(0)) && s'.holder == Some(|s.runs|)
  {
    hide After, AfterPeek;
    var starts, ends, peeked := ConnectStarts, ConnectEnds(Some(account)), Peeked(|s.runs|, Found(account, 1), Some(1), KeyPresent);
    AfterSnoc(Same, START, events, starts);
    AfterSnoc(Same, START, events + [starts], ends);
    AfterSnoc(Same, START, events + [starts] + [ends], peeked);
    events' := events + [starts] + [ends] + [peeked];
    s' := After(Same, START, events');
    TakesOff(After(Same, START, events + [starts] + [ends]), |s.runs|, account);
  }

  /** It does happen: the wallet shows account b between two looks at account a, and no wallet event has come yet. */
  lemma OlderRunFreesNewerLock() returns (events: seq<Event>, s: State)
    ensures s == After(Same, START, events) && |s.runs| == 3 && s.holder == Some(2) && s.runs[2].phase.InFlight()
    ensures Next(Same, s, LookedUp(0, None, NothingStored)).anchor == FREE
  {
    var events1, s1 := ConnectsAgain([], START, "a");
    var events2, s2 := ConnectsAgain(events1, s1, "b");
    events, s := ConnectsAgain(events2, s2, "a");
  }

  lemma LandedByOther(ctx: nat -> Key, s: State, i: nat, h: nat)
    requires Inv(Some(ctx), s) && s.holder == Some(h) && i < |s.runs| && i != h && s.runs[i].phase.InFlight()
    ensures Landed(s, i, s.runs[i].phase.key).anchor == s.anchor && Landed(s, i, s.runs[i].phase.key).holder == s.holder
  {
  }

  lemma PeekedByOther(lower: string -> string, ctx: nat -> Key, s: State, e: Event, h: nat)
    requires Inv(Some(ctx), s) && s.holder == Some(h) && e.Peeked? && e.i < |s.runs| && s.runs[e.i].phase.Peeking?
    requires Steady(lower, Some(ctx), s, e)
    ensures Next(lower, s, e).anchor == s.anchor && Next(lower, s, e).holder == s.holder
  {
    hide Write, AfterAcquiring, ReceiptKept;
  }

  lemma ResumedByOther(lower: string -> string, ctx: nat -> Key, s: State, e: Event, i: nat, h: nat)
    requires Inv(Some(ctx), s) && s.holder == Some(h) && i < |s.runs| && i != h && e.IsOf(i) && s.runs[i].phase.InFlight()
    ensures Next(lower, s, e).anchor == s.anchor && Next(lower, s, e).holder == s.holder
  {
    hide Write, MarkHydrated, AfterPeek, Inv, Landed, ReceiptKept, Current;
    var r, key := s.runs[i], s.runs[i].phase.key;
    LandedByOther(ctx, s, i, h);
    forall w
      ensures SameControl(s, Write(lower, s, r, w)) && SameControl(s, MarkHydrated(Write(lower, s, r, w), r, key))
      ensures Landed(Write(lower, s, r, w), i, key).anchor == s.anchor && Landed(Write(lower, s, r, w), i, key).holder == s.holder
      ensures Landed(MarkHydrated(Write(lower, s, r, w), r, key), i, key).anchor == s.anchor
      ensures Landed(MarkHydrated(Write(lower, s, r, w), r, key), i, key).holder == s.holder
    {
      var s1 := Write(lower, s, r, w);
      var s2 := MarkHydrated(s1, r, key);
      MarkKeeps(s1, r, key);
      LandsAlike(s, s1, i, key);
      LandsAlike(s, s2, i, key);
    }
  }

  lemma LandsAlike(s: State, s': State, i: nat, key: Key)
    requires OnlyDisplay(s, s') && i < |s.runs|
    ensures Landed(s', i, key).anchor == Landed(s, i, key).anchor && Landed(s', i, key).holder == Landed(s, i, key).holder
  {
  }

  /** While every run of an operation sees the same wallet, nobody but the holder frees the lock or takes it over. */
  lemma OnlyHolderReleases(lower: string -> string, ctx: nat -> Key, events: seq<Event>, s: State, e: Event, i: nat, h: nat)
    requires AllSteady(lower, Some(ctx), START, events) && s == After(lower, START, events)
    requires s.holder == Some(h) && e.IsOf(i) && i < |s.runs| && i != h && Steady(lower, Some(ctx), s, e)
    ensures Next(lower, s, e).anchor == s.anchor && Next(lower, s, e).holder == s.holder
  {
    hide AllSteady, After, AfterPeek, AfterLookup, AfterCheck;
    AfterKeepsInv(lower, Some(ctx), START, events);
    if s.runs[i].phase.InFlight() {
      ResumedByOther(lower, ctx, s, e, i, h);
    } else if e.Peeked? && s.runs[i].phase.Peeking? {
      PeekedByOther(lower, ctx, s, e, h);
    }
  }

  // ----- what is on display

  datatype Display = Display(progress: Progress, participation: Participation, shown: Option<ShownReceipt>, hydratedFor: Option<Key>)

  function DisplayOf(s: State): Display {
    Display(s.progress, s.participation, s.shown, s.hydratedFor)
  }

  // ----- what a current run shows

  /** The display says this much of the wallet, and nothing else on it changes. */
  ghost predicate NowSays(s: State, s': State, progress: Progress, participation: Participation) {
    s'.progress == progress && s'.participation == participation && s'.shown == s.shown
  }

  /** Mounting, a changed wallet, and the end of a vote or a connection start a run, which is current unless something is busy. */
  lemma HydratesAgain(lower: string -> string, s: State, e: Event)
    requires e.Mount? || e.WalletChanged? || (e.VoteEnds? && s.voting && s.mounted)
             || (e.ConnectEnds? && s.mounted && s.connecting == Some(s.generation))
    ensures var s' := Next(lower, s, e);
            && |s'.runs| == |s.runs| + 1 && s'.runs[..|s.runs|] == s.runs && s'.runs[|s.runs|].phase.Peeking?
            && (Current(s', s'.runs[|s.runs|]) <==> s'.mounted && !s'.Busy() && !InFlightStatus(s'.progress.status))
            && (!e.Mount? ==> s'.hydratedFor == None) && (e.ConnectEnds? ==> s'.progress == Progress(e.connected, Idle))
  {
    hide AfterPeek, AfterLookup, AfterCheck;
  }

  /** The receipt of a vote is shown at once, and no hydration under way takes it off the display while the vote lasts. */
  lemma {:induction false} SubmissionStaysShown(lower: string -> string, s: State, receipt: Receipt, account: string, events: seq<Event>)
    requires s.voting && s.mounted && s.activeGeneration == s.generation
    requires forall j :: 0 <= j < |events| ==> events[j].Peeked? || events[j].LookedUp? || events[j].Checked?
    ensures var s' := After(lower, Next(lower, s, VoteSubmitted(receipt, account)), events);
            s'.shown == Some(ShownReceipt(receipt, account, Unverified)) && s'.voting
  {
    var s1 := Next(lower, s, VoteSubmitted(receipt, account));
    StaysShown(lower, s1, Some(ShownReceipt(receipt, account, Unverified)), events);
  }

  lemma {:induction false} StaysShown(lower: string -> string, s: State, shown: Option<ShownReceipt>, events: seq<Event>)
    requires s.voting && s.shown == shown
    requires forall j :: 0 <= j < |events| ==> events[j].Peeked? || events[j].LookedUp? || events[j].Checked?
    ensures After(lower, s, events).shown == shown && After(lower, s, events).voting
    decreases |events|
  {
    hide Next;
    if events != [] {
      PieceWhileVoting(lower, s, events[0]);
      StaysShown(lower, Next(lower, s, events[0]), shown, events[1..]);
    }
  }

  lemma PieceWhileVoting(lower: string -> string, s: State, e: Event)
    requires s.voting && (e.Peeked? || e.LookedUp? || e.Checked?)
    ensures Next(lower, s, e).shown == s.shown && Next(lower, s, e).voting
  {
    if e.i < |s.runs| {
      StaleRunShowsNothing(lower, s, e, e.i);
      PieceKeepsActivity(lower, s, e);
    }
  }

  /** Without a wallet to look up, a current run says so and is over; a wallet that is gone takes its receipt with it. */
  lemma WithoutWallet(lower: string -> string, s: State, i: nat, peek: WalletPeek, pollChainId: Option<int>, keyState: KeyState)
    requires i < |s.runs| && s.runs[i].phase.Peeking? && Current(s, s.runs[i]) && !peek.Found?
    ensures var s' := Next(lower, s, Peeked(i, peek, pollChainId, keyState));
            && s'.runs[i].phase.Over? && s'.anchor == s.anchor
            && if peek.NoProvider? || peek.NotConnected?
               then s'.participation == Disconnected && s'.shown == None && s'.hydratedFor == None && s'.progress == Progress(None, Idle)
               else NowSays(s, s', s.progress, LookupFailed(None)) && s'.hydratedFor == s.hydratedFor
  {
  }

  /** The wallet's chain and account decide: on the wrong chain that is said; a context already hydrated, or in flight, is left alone. */
  lemma WithWallet(lower: string -> string, s: State, i: nat, account: string, chainId: int, pollChainId: Option<int>, keyState: KeyState)
    requires i < |s.runs| && s.runs[i].phase.Peeking? && Current(s, s.runs[i])
    requires pollChainId != Some(chainId) || s.hydratedFor == Some(Key(chainId, lower(account)))
             || s.anchor.key == Some(Key(chainId, lower(account)))
    ensures var s' := Next(lower, s, Peeked(i, Found(account, chainId), pollChainId, keyState));
            && s'.runs[i].phase.Over? && s'.anchor == s.anchor && s'.hydratedFor == s.hydratedFor
            && (pollChainId == None ==> NowSays(s, s', Progress(Some(account), Idle), LookupFailed(None)))
            && (pollChainId.Some? && pollChainId.value != chainId ==> NowSays(s, s', Progress(Some(account), Idle), WrongChain))
            && (pollChainId == Some(chainId) ==> NowSays(s, s', s.progress, s.participation))
  {
  }

  /** How a key that cannot be used is shown. */
  ghost predicate KeyTrouble(keyState: KeyState, participation: Participation) {
    match keyState
    case KeyPresent => false
    case Missing => participation == KeyMissing
    case Invalid => participation == KeyInvalid
    case StorageError => participation == KeyStorageError
    case ReadThrows => participation == KeyStorageError
  }

  /**
   Any other context is taken into flight: with a key the run says it is checking and waits for the lookup, holding the lock;
   without one it shows what is wrong with the key and frees the lock, the context counting as hydrated unless reading failed.
   */
  lemma TakesFlight(lower: string -> string, s: State, i: nat, account: string, chainId: int, keyState: KeyState)
    requires i < |s.runs| && s.runs[i].phase.Peeking? && Current(s, s.runs[i])
    requires s.hydratedFor != Some(Key(chainId, lower(account))) && s.anchor.key != Some(Key(chainId, lower(account)))
    ensures var key, s' := Key(chainId, lower(account)), Next(lower, s, Peeked(i, Found(account, chainId), Some(chainId), keyState));
            if keyState.KeyPresent? then
              && NowSays(s, s', Progress(Some(account), if s.progress.status == Voted then Voted else Idle), Checking)
              && s'.runs[i].phase == LookingUp(account, key) && s'.anchor == Anchor(Some(key), Some(s.runs[i].op))
              && s'.hydratedFor == s.hydratedFor
            else
              && KeyTrouble(keyState, s'.participation) && NowSays(s, s', Progress(Some(account), Idle), s'.participation)
              && s'.runs[i].phase.Over? && s'.anchor == FREE
              && s'.hydratedFor == if keyState.Missing? || keyState.Invalid? then Some(key) else s.hydratedFor
  {
    hide Started, RunStep, ReceiptKept, AfterLookup, AfterCheck, AfterAcquiring, Write, BeganFlight, Current;
    var key := Key(chainId, lower(account));
    CheckingBegins(lower, s, i, account, key);
    var s1 := Write(lower, BeganFlight(s, i, account, key), s.runs[i], WriteChecking(account));
    Acquires(lower, s1, i, account, key, keyState);
  }

  /** The lock is taken and the run says that it is checking. */
  lemma CheckingBegins(lower: string -> string, s: State, i: nat, account: string, key: Key)
    requires i < |s.runs| && Current(s, s.runs[i])
    ensures var s1 := Write(lower, BeganFlight(s, i, account, key), s.runs[i], WriteChecking(account));
            && |s1.runs| == |s.runs| && s1.runs[i] == s.runs[i].(phase := LookingUp(account, key)) && Current(s1, s1.runs[i])
            && NowSays(s, s1, Progress(Some(account), if s.progress.status == Voted then Voted else Idle), Checking)
            && s1.anchor == Anchor(Some(key), Some(s.runs[i].op)) && s1.hydratedFor == s.hydratedFor
  {
    hide ReceiptKept;
  }

  lemma Acquires(lower: string -> string, s: State, i: nat, account: string, key: Key, keyState: KeyState)
    requires i < |s.runs| && Current(s, s.runs[i]) && s.runs[i].phase == LookingUp(account, key)
    requires s.anchor == Anchor(Some(key), Some(s.runs[i].op))
    ensures var s' := AfterAcquiring(lower, s, i, account, key, keyState);
            if keyState.KeyPresent? then s' == s
            else
              && KeyTrouble(keyState, s'.participation) && NowSays(s, s', Progress(Some(account), Idle), s'.participation)
              && s'.runs[i].phase.Over? && s'.anchor == FREE
              && s'.hydratedFor == if keyState.Missing? || keyState.Invalid? then Some(key) else s.hydratedFor
  {
    hide RunStep, ReceiptKept;
  }

  /** A current run shows exactly what the lookup answered, and goes on to the receipt stored, if any. */
  lemma ShowsLookup(lower: string -> string, s: State, i: nat, data: Option<Lookup>, stored: Stored)
    requires i < |s.runs| && s.runs[i].phase.LookingUp? && Current(s, s.runs[i])
    ensures var account, key, s' := s.runs[i].phase.account, s.runs[i].phase.key, Next(lower, s, LookedUp(i, data, stored));
            match data
            case None =>
              && NowSays(s, s', Progress(Some(account), Idle), LookupFailed(None)) && s'.runs[i].phase.Over?
              && s'.hydratedFor == s.hydratedFor
            case Some(d) =>
              && NowSays(s, s', Progress(Some(account), if s.progress.status == Voted then Voted else Idle),
                         Ready(d.registered, d.stateIndex, if d.isJoined then d.pollStateIndex else None))
              && if stored.StoredReceipt?
                 then s'.runs[i].phase == CheckingReceipt(account, key, stored.receipt) && s'.hydratedFor == s.hydratedFor
                 else s'.runs[i].phase.Over? && s'.hydratedFor == Some(key)
  {
    hide Started;
  }

  /** And then the receipt with the status the chain gives it, unless another transaction's is on display. */
  lemma ShowsReceipt(lower: string -> string, s: State, i: nat, status: ReceiptStatus)
    requires i < |s.runs| && s.runs[i].phase.CheckingReceipt? && Current(s, s.runs[i])
    ensures var CheckingReceipt(account, key, stored), s' := s.runs[i].phase, Next(lower, s, Checked(i, status));
            && s'.runs[i].phase.Over? && s'.hydratedFor == Some(key) && s'.progress == s.progress && s'.participation == s.participation
            && s'.shown == (if s.shown.Some? && lower(s.shown.value.receipt.txHash) != lower(stored.txHash) then s.shown
                            else Some(ShownReceipt(stored, account, status)))
  {
    hide Started;
  }

  /**
   A run that nothing comes in between of carries everything through: from the wallet to the answer of the lookup and the
   receipt on display, the context counted as hydrated and the lock free.
   */
  lemma UndisturbedRunCompletes(lower: string -> string, s: State, i: nat, account: string, chainId: int, d: Lookup, receipt: Receipt,
                                status: ReceiptStatus)
    requires i < |s.runs| && s.runs[i].phase.Peeking? && Current(s, s.runs[i]) && s.shown == None
    requires s.hydratedFor != Some(Key(chainId, lower(account))) && s.anchor.key != Some(Key(chainId, lower(account)))
    ensures var s' := After(lower, s, [Peeked(i, Found(account, chainId), Some(chainId), KeyPresent),
                                       LookedUp(i, Some(d), StoredReceipt(receipt)), Checked(i, status)]);
            && s'.progress == Progress(Some(account), if s.progress.status == Voted then Voted else Idle)
            && s'.participation == Ready(d.registered, d.stateIndex, if d.isJoined then d.pollStateIndex else None)
            && s'.shown == Some(ShownReceipt(receipt, account, status))
            && s'.hydratedFor == Some(Key(chainId, lower(account))) && s'.anchor == FREE
            && i < |s'.runs| && s'.runs[i].phase.Over?
  {
    hide Next;
    var peeked, looked, checked :=
      Peeked(i, Found(account, chainId), Some(chainId), KeyPresent), LookedUp(i, Some(d), StoredReceipt(receipt)), Checked(i, status);
    var s1 := Next(lower, s, peeked);
    NextGrows(lower, s, peeked);
    TakesFlight(lower, s, i, account, chainId, KeyPresent);
    StaysCurrent(lower, s, i, peeked);
    var s2 := Next(lower, s1, looked);
    NextGrows(lower, s1, looked);
    ShowsLookup(lower, s1, i, Some(d), StoredReceipt(receipt));
    StaysCurrent(lower, s1, i, looked);
    var s3 := Next(lower, s2, checked);
    NextGrows(lower, s2, checked);
    ShowsReceipt(lower, s2, i, status);
    FreesItsLock(lower, s2, i, status);
    var events := [peeked, looked, checked];
    assert events[1..] == [looked, checked] && [looked, checked][1..] == [checked] && [checked][1..] == [];
    assert After(lower, s3, []) == s3;
    assert After(lower, s2, [checked]) == s3;
    assert After(lower, s1, [looked, checked]) == s3;
  }

  /** A piece of a current run that is not over leaves it current, with the lock as it took it. */
  lemma StaysCurrent(lower: string -> string, s: State, i: nat, e: Event)
    requires i < |s.runs| && Current(s, s.runs[i]) && e.IsOf(i) && !e.Checked? && (e.Peeked? ==> s.runs[i].phase.Peeking?)
    requires e.LookedUp? ==> s.runs[i].phase.LookingUp?
    requires i < |Next(lower, s, e).runs| && Next(lower, s, e).runs[i].phase.InFlight()
    ensures Current(Next(lower, s, e), Next(lower, s, e).runs[i]) && Next(lower, s, e).runs[i].op == s.runs[i].op
    ensures e.LookedUp? ==> Next(lower, s, e).anchor == s.anchor
  {
    hide Started, AfterPeek, AfterLookup, AfterCheck, RunStep, Current;
    match e
    case Peeked(_, peek, pollChainId, keyState) => PeekKeepsCurrent(lower, s, i, peek, pollChainId, keyState);
    case LookedUp(_, data, stored) => LookupKeepsCurrent(lower, s, i, data, stored);
    case _ =>
  }

  lemma PeekKeepsCurrent(lower: string -> string, s: State, i: nat, peek: WalletPeek, pollChainId: Option<int>, keyState: KeyState)
    requires i < |s.runs| && Current(s, s.runs[i])
    ensures var s' := AfterPeek(lower, s, i, peek, pollChainId, keyState);
            s'.runs[i].phase.InFlight() && s.runs[i].phase.Peeking? ==> Current(s', s'.runs[i]) && s'.runs[i].op == s.runs[i].op
  {
    hide RunStep, ReceiptKept, AfterAcquiring, Write, BeganFlight, Current, Apply;
    match peek
    case Found(account, chainId) =>
      var key := Key(chainId, lower(account));
      CheckingBegins(lower, s, i, account, key);
      Acquires(lower, Write(lower, BeganFlight(s, i, account, key), s.runs[i], WriteChecking(account)), i, account, key, keyState);
    case _ => StaysOver(lower, s, i);
  }

  lemma StaysOver(lower: string -> string, s: State, i: nat)
    requires i < |s.runs|
    ensures WithPhase(s, i, Over).runs[i].phase.Over?
    ensures Write(lower, WithPhase(s, i, Over), s.runs[i], WriteProbeError).runs == WithPhase(s, i, Over).runs
    ensures Apply(lower, WithPhase(s, i, Over), WriteDisconnected).runs == WithPhase(s, i, Over).runs
  {
  }

  lemma LookupKeepsCurrent(lower: string -> string, s: State, i: nat, data: Option<Lookup>, stored: Stored)
    requires i < |s.runs| && Current(s, s.runs[i]) && s.runs[i].phase.LookingUp?
    ensures var s' := AfterLookup(lower, s, i, data, stored);
            s'.runs[i].phase.InFlight() ==> Current(s', s'.runs[i]) && s'.runs[i].op == s.runs[i].op && s'.anchor == s.anchor
  {
    hide RunStep, ReceiptKept;
  }

  lemma FreesItsLock(lower: string -> string, s: State, i: nat, status: ReceiptStatus)
    requires i < |s.runs| && s.runs[i].phase.CheckingReceipt? && s.anchor == Anchor(Some(s.runs[i].phase.key), Some(s.runs[i].op))
    ensures Next(lower, s, Checked(i, status)).anchor == FREE
  {
    hide Started;
  }

  /** A run that may not apply changes nothing on display, whatever answer it gets. */
  lemma StaleRunShowsNothing(lower: string -> string, s: State, e: Event, i: nat)
    requires e.IsOf(i) && i < |s.runs| && !Current(s, s.runs[i])
    ensures DisplayOf(Next(lower, s, e)) == DisplayOf(s)
  {
  }

  lemma NextGrows(lower: string -> string, s: State, e: Event)
    ensures Next(lower, s, e).operationId >= s.operationId && |Next(lower, s, e).runs| >= |s.runs|
    ensures forall i :: 0 <= i < |s.runs| ==> Next(lower, s, e).runs[i].op == s.runs[i].op
  {
    hide AfterPeek, AfterLookup, AfterCheck, Current, ReceiptKept;
  }

  /** A run with an older operation id stays silent for good. */
  lemma {:induction false} SupersededForGood(lower: string -> string, s: State, events: seq<Event>, e: Event, i: nat)
    requires i < |s.runs| && s.runs[i].op < s.operationId && e.IsOf(i)
    ensures DisplayOf(Next(lower, After(lower, s, events), e)) == DisplayOf(After(lower, s, events))
    decreases |events|
  {
    if events == [] {
      StaleRunShowsNothing(lower, s, e, i);
    } else {
      NextGrows(lower, s, events[0]);
      SupersededForGood(lower, Next(lower, s, events[0]), events[1..], e, i);
    }
  }

  /** Once a vote starts or the wallet changes, no hydration that was under way ever changes the display again. */
  lemma NewOperationSilencesOlderRuns(lower: string -> string, before: seq<Event>, start: Event, later: seq<Event>, e: Event, i: nat)
    requires start == WalletChanged || (start == VoteStarts && !After(lower, START, before).Busy())
    requires i < |After(lower, START, before).runs| && e.IsOf(i)
    ensures var s := After(lower, Next(lower, After(lower, START, before), start), later);
            DisplayOf(Next(lower, s, e)) == DisplayOf(s)
  {
    var s := After(lower, START, before);
    NoContextIsSteady(lower, START, before);
    AfterKeepsInv(lower, None, START, before);
    SupersededForGood(lower, Next(lower, s, start), later, e, i);
  }

  /** A hydration never replaces the receipt on display by another transaction's; it can only clear it, for a wallet that is gone. */
  lemma ReceiptIsNotReplaced(lower: string -> string, s: State, e: Event, i: nat)
    requires e.IsOf(i) && s.shown.Some?
    ensures match Next(lower, s, e).shown
            case None => e.Peeked? && (e.peek.NoProvider? || e.peek.NotConnected?)
            case Some(now) => lower(now.receipt.txHash) == lower(s.shown.value.receipt.txHash)
  {
    hide AfterLookup, AfterCheck, AfterAcquiring, Write, Current;
  }

  /** The marker is only set by a run that is current and finishes its flight in the same step. */
  lemma MarkedByFinishedFlight(lower: string -> string, s: State, e: Event)
    requires Next(lower, s, e).hydratedFor != s.hydratedFor && Next(lower, s, e).hydratedFor.Some?
    ensures e.Peeked? || e.LookedUp? || e.Checked?
    ensures e.i < |s.runs| <= |Next(lower, s, e).runs| && Current(s, s.runs[e.i]) && Next(lower, s, e).runs[e.i].phase.Over?
  {
    hide AfterPeek, AfterLookup, AfterCheck, Current, ReceiptKept;
  }

  /** A vote and a connection never go on together. */
  lemma {:induction false} OneActivity(lower: string -> string, s: State, events: seq<Event>)
    requires !(s.voting && s.connecting.Some?)
    ensures !(After(lower, s, events).voting && After(lower, s, events).connecting.Some?)
    decreases |events|
  {
    if events != [] {
      NextKeepsOneActivity(lower, s, events[0]);
      OneActivity(lower, Next(lower, s, events[0]), events[1..]);
    }
  }

  lemma NextKeepsOneActivity(lower: string -> string, s: State, e: Event)
    requires !(s.voting && s.connecting.Some?)
    ensures !(Next(lower, s, e).voting && Next(lower, s, e).connecting.Some?)
  {
    hide AfterPeek, AfterLookup, AfterCheck, Current, ReceiptKept, InFlightStatus;
    if (e.Peeked? || e.LookedUp? || e.Checked?) && e.i < |s.runs| {
      PieceKeepsActivity(lower, s, e);
    }
  }

  lemma PieceKeepsActivity(lower: string -> string, s: State, e: Event)
    requires (e.Peeked? || e.LookedUp? || e.Checked?) && e.i < |s.runs|
    ensures Next(lower, s, e).voting == s.voting && Next(lower, s, e).connecting == s.connecting
  {
    hide AfterPeek, AfterLookup, AfterCheck, Current, ReceiptKept, RunStep;
    match e
    case Peeked(i, peek, pollChainId, keyState) => PeekKeepsActivity(lower, s, i, peek, pollChainId, keyState);
    case LookedUp(i, data, stored) =>
      if s.runs[i].phase.LookingUp? {
        LookupKeepsActivity(lower, s, i, data, stored);
      }
    case Checked(i, status) =>
      if s.runs[i].phase.CheckingReceipt? {
        CheckKeepsActivity(lower, s, i, status);
      }
  }

  lemma PeekKeepsActivity(lower: string -> string, s: State, i: nat, peek: WalletPeek, pollChainId: Option<int>, keyState: KeyState)
    requires i < |s.runs|
    ensures var s' := AfterPeek(lower, s, i, peek, pollChainId, keyState); s'.voting == s.voting && s'.connecting == s.connecting
  {
    hide Current, ReceiptKept, RunStep, Write, AfterAcquiring;
    if peek.Found? {
      var key := Key(peek.chainId, lower(peek.account));
      var s1 := Write(lower, BeganFlight(s, i, peek.account, key), s.runs[i], WriteChecking(peek.account));
      AcquiringKeepsActivity(lower, s1, i, peek.account, key, keyState);
    }
  }

  lemma AcquiringKeepsActivity(lower: string -> string, s: State, i: nat, account: string, key: Key, keyState: KeyState)
    requires i < |s.runs|
    ensures var s' := AfterAcquiring(lower, s, i, account, key, keyState); s'.voting == s.voting && s'.connecting == s.connecting
  {
    hide Current, ReceiptKept, RunStep, Write;
  }

  lemma LookupKeepsActivity(lower: string -> string, s: State, i: nat, data: Option<Lookup>, stored: Stored)
    requires i < |s.runs| && s.runs[i].phase.LookingUp?
    ensures var s' := AfterLookup(lower, s, i, data, stored); s'.voting == s.voting && s'.connecting == s.connecting
  {
    hide Current, ReceiptKept, RunStep, Write;
  }

  lemma CheckKeepsActivity(lower: string -> string, s: State, i: nat, status: ReceiptStatus)
    requires i < |s.runs| && s.runs[i].phase.CheckingReceipt?
    ensures var s' := AfterCheck(lower, s, i, status); s'.voting == s.voting && s'.connecting == s.connecting
  {
    hide Current, ReceiptKept, RunStep, Write;
  }
}
