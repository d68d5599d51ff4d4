/**
 apps/backend/src/eligibility/zkpassport.ts and authorization.ts: challenges, proofs and grants whose calls interleave.
 Code between two awaits runs in one piece, so each such piece is one event; the clock only moves forward.
 */
module Eligibility {
  import JsonEquality
  import opened Nullifiers
  import opened Results

  datatype Challenge = Challenge(id: string, account: string, userDefinedData: string, expiresAt: int)

  datatype Claims = Claims(account: string, userDefinedData: string, nullifier: string)

  datatype Authorization = Authorization(account: string, identityTag: string, nonce: string, issuedAt: int, expiresAt: int)

  datatype Signed = Signed(authorization: Authorization, signature: string)

  datatype IdType = SALTED | NON_SALTED | SALTED_MOCK | NON_SALTED_MOCK

  /** What the service is set up with; address normalization, the context string and the tag HMAC are uninterpreted. */
  datatype Config = Config(
    salted: bool, devMode: bool, minimumAge: bool, nationalityIn: bool,
    revealGender: bool, revealDateOfBirth: bool, revealNationality: bool,
    canonicalQuery: JsonEquality.Parsed, grantLifetimeSeconds: nat,
    accountAddress: string -> Option<string>, context: (string, string, int) -> string, identityTag: string -> string)

  /** What a submitted payload holds, and which attribute gates of its query result are met. */
  datatype Payload = Payload(
    isObject: bool, hasProofs: bool, hasQueries: bool, originalQuery: JsonEquality.Parsed,
    ageMet: bool, nationalityMet: bool, genderMet: bool, dateOfBirthMet: bool, nationalityRevealed: bool)

  datatype VerifyResult = VerifyResult(verified: bool, uniqueIdentifier: Option<string>, idType: IdType)

  datatype Entry = Entry(challenge: Challenge, busy: bool, begun: bool, claims: Option<Claims>)

  datatype GrantSession = GrantSession(challenge: Challenge, busy: bool, issued: Option<Signed>)

  /** Where a call is waiting. */
  datatype Phase =
    | BeginControl
    | ReceiveControl(payload: Payload)
    | ReceiveVerify(payload: Payload)
    | AuthControl
    | AuthClaims(claims: Option<Claims>)
    | AuthSign(authorization: Authorization)
    | Over
  {
    predicate Receiving() { ReceiveControl? || ReceiveVerify? }

    /** The call holds the lock of its entry. */
    predicate OnEntry() { BeginControl? || Receiving() }

    /** The call holds the lock of its session. */
    predicate OnSession() { AuthControl? || AuthClaims? || AuthSign? }
  }

  datatype Call = Call(id: string, phase: Phase)

  /** `created` is every challenge ever made: the source of random ids does not repeat one. */
  datatype State = State(
    now: int, entries: map<string, Entry>, sessions: map<string, GrantSession>, calls: seq<Call>, created: map<string, Challenge>)

  const CHALLENGE_SECONDS: int := 300
  const CAPACITY: nat := 500

  datatype Event =
    | Tick(seconds: nat)
    | Create(account: string, id: string)
    | BeginCalled(id: string)
    | BeginControlled(call: nat, ok: bool)
    | ReceiveCalled(id: string, payload: Payload)
    | ReceiveControlled(call: nat, ok: bool)
    | ReceiveVerified(call: nat, result: Option<VerifyResult>)
    | AuthorizeCalled(id: string)
    | AuthControlled(call: nat, ok: bool)
    | AuthClaimed(call: nat)
    | AuthSigned(call: nat, signature: Option<string>)

  // ----- small steps

  /** entry(id): present and not expired. */
  predicate HasEntry(s: State, id: string) {
    id in s.entries && s.entries[id].challenge.expiresAt > s.now
  }

  predicate HasSession(s: State, id: string) {
    id in s.sessions && s.sessions[id].challenge.expiresAt > s.now
  }

  function WithPhase(s: State, c: nat, phase: Phase): State
    requires c < |s.calls|
  {
    s.(calls := s.calls[c := s.calls[c].(phase := phase)])
  }

  function Called(s: State, id: string, phase: Phase): State {
    s.(calls := s.calls + [Call(id, phase)])
  }

  function EntryBusy(s: State, id: string, busy: bool): State {
    if id in s.entries then s.(entries := s.entries[id := s.entries[id].(busy := busy)]) else s
  }

  function SessionBusy(s: State, id: string, busy: bool): State {
    if id in s.sessions then s.(sessions := s.sessions[id := s.sessions[id].(busy := busy)]) else s
  }

  /** The finally block of begin and receiveProof. */
  function EndOnEntry(s: State, c: nat): State
    requires c < |s.calls|
  {
    WithPhase(EntryBusy(s, s.calls[c].id, false), c, Over)
  }

  /** The finally block of authorize. */
  function EndOnSession(s: State, c: nat): State
    requires c < |s.calls|
  {
    WithPhase(SessionBusy(s, s.calls[c].id, false), c, Over)
  }

  // ----- challenges

  function FreshEntries(s: State): (r: map<string, Entry>)
    ensures forall id :: id in r ==> id in s.entries && r[id] == s.entries[id] && r[id].challenge.expiresAt > s.now
  {
    map id | id in s.entries && s.entries[id].challenge.expiresAt > s.now :: s.entries[id]
  }

  function FreshSessions(s: State): (r: map<string, GrantSession>)
    ensures forall id :: id in r ==> id in s.sessions && r[id] == s.sessions[id] && r[id].challenge.expiresAt > s.now
  {
    map id | id in s.sessions && s.sessions[id].challenge.expiresAt > s.now :: s.sessions[id]
  }

  function WithChallenge(s: State, challenge: Challenge): State {
    s.(entries := s.entries[challenge.id := Entry(challenge, false, false, None)],
       sessions := s.sessions[challenge.id := GrantSession(challenge, false, None)],
       created := s.created[challenge.id := challenge])
  }

  /** createChallenge; ids are random, so a used one cannot come again. */
  function Creates(cfg: Config, s: State, account: string, id: string): State {
    var s1 := s.(entries := FreshEntries(s));
    match cfg.accountAddress(account)
    case None => s1
    case Some(normalized) =>
      var s2 := s1.(sessions := FreshSessions(s1));
      if |s2.sessions| >= CAPACITY || id in s.created then s2
      else
        var expiresAt := s.now + CHALLENGE_SECONDS;
        WithChallenge(s2, Challenge(id, normalized, cfg.context(normalized, id, expiresAt), expiresAt))
  }

  // ----- begin

  function BeginsCall(s: State, id: string): State {
    if !HasEntry(s, id) || s.entries[id].busy then s else Called(EntryBusy(s, id, true), id, BeginControl)
  }

  function BeginsControlled(s: State, c: nat, ok: bool): State
    requires c < |s.calls|
  {
    var id := s.calls[c].id;
    if !ok || !HasEntry(s, id) then EndOnEntry(s, c)
    else EndOnEntry(s.(entries := s.entries[id := s.entries[id].(begun := true)]), c)
  }

  // ----- receiveProof

  function ReceivesCall(s: State, id: string, payload: Payload): State {
    if !HasEntry(s, id) || s.entries[id].busy || !s.entries[id].begun then s
    else Called(EntryBusy(s, id, true), id, ReceiveControl(payload))
  }

  predicate PayloadOk(cfg: Config, p: Payload) {
    p.isObject && p.hasProofs && p.hasQueries && JsonEquality.DeepEqual(p.originalQuery, cfg.canonicalQuery)
  }

  function ReceivesControlled(cfg: Config, s: State, c: nat, ok: bool, payload: Payload): State
    requires c < |s.calls|
  {
    if !ok || !HasEntry(s, s.calls[c].id) || !PayloadOk(cfg, payload) then EndOnEntry(s, c)
    else WithPhase(s, c, ReceiveVerify(payload))
  }

  predicate TypeOk(cfg: Config, t: IdType) {
    if cfg.salted then t == SALTED || (cfg.devMode && t == SALTED_MOCK)
    else t == NON_SALTED || (cfg.devMode && t == NON_SALTED_MOCK)
  }

  predicate AttributesMet(cfg: Config, p: Payload) {
    && (cfg.minimumAge ==> p.ageMet) && (cfg.nationalityIn ==> p.nationalityMet)
    && (cfg.revealGender ==> p.genderMet) && (cfg.revealDateOfBirth ==> p.dateOfBirthMet)
    && (cfg.revealNationality ==> p.nationalityRevealed)
  }

  /** The canonical nullifier of an acceptable proof. */
  function AcceptedNullifier(cfg: Config, p: Payload, result: Option<VerifyResult>): Option<string> {
    if result.None? || !result.value.verified || result.value.uniqueIdentifier.None? then None
    else if !TypeOk(cfg, result.value.idType) || !AttributesMet(cfg, p) then None
    else
      match CanonicalNullifier(result.value.uniqueIdentifier.value)
      case Failure(_) => None
      case Success(nullifier) => Some(nullifier)
  }

  function ReceivesVerified(cfg: Config, s: State, c: nat, payload: Payload, result: Option<VerifyResult>): State
    requires c < |s.calls|
  {
    var id := s.calls[c].id;
    var nullifier := AcceptedNullifier(cfg, payload, result);
    if !HasEntry(s, id) || nullifier.None? || s.entries[id].claims.Some? then EndOnEntry(s, c) else Recorded(s, c, nullifier.value)
  }

  function Recorded(s: State, c: nat, nullifier: string): State
    requires c < |s.calls| && HasEntry(s, s.calls[c].id)
  {
    var id := s.calls[c].id;
    var entry := s.entries[id];
    var claims := Claims(entry.challenge.account, entry.challenge.userDefinedData, nullifier);
    EndOnEntry(s.(entries := s.entries[id := entry.(claims := Some(claims))]), c)
  }

  // ----- authorize

  function AuthorizesCall(s: State, id: string): State {
    if !HasSession(s, id) || s.sessions[id].busy then s else Called(SessionBusy(s, id, true), id, AuthControl)
  }

  /** After account control: an issued grant is returned again, else the claims are read. */
  function AuthControls(s: State, c: nat, ok: bool): State
    requires c < |s.calls|
  {
    var id := s.calls[c].id;
    if !ok || !HasSession(s, id) || s.sessions[id].issued.Some? then EndOnSession(s, c)
    else WithPhase(s, c, AuthClaims(if HasEntry(s, id) then s.entries[id].claims else None))
  }

  /** After the claims: they must be the challenge's own, and their nullifier a plain decimal in range. */
  function AuthPrepares(cfg: Config, s: State, c: nat, claims: Option<Claims>): State
    requires c < |s.calls|
  {
    var id := s.calls[c].id;
    if claims.None? || !HasSession(s, id) then EndOnSession(s, c)
    else
      var challenge, verified := s.sessions[id].challenge, claims.value;
      if cfg.accountAddress(verified.account) != Some(challenge.account) || verified.userDefinedData != challenge.userDefinedData
         || !AllDecimal(verified.nullifier) || !(0 < ValueOf(verified.nullifier, 10) < TWO_TO_256)
      then EndOnSession(s, c)
      else
        var tag := cfg.identityTag(DecimalString(ValueOf(verified.nullifier, 10)));
        WithPhase(s, c, AuthSign(Authorization(challenge.account, tag, id, s.now, s.now + cfg.grantLifetimeSeconds)))
  }

  /** After the signature: the grant is recorded and returned. */
  function AuthIssues(s: State, c: nat, authorization: Authorization, signature: Option<string>): State
    requires c < |s.calls|
  {
    var id := s.calls[c].id;
    if signature.None? || !HasSession(s, id) then EndOnSession(s, c)
    else EndOnSession(s.(sessions := s.sessions[id := s.sessions[id].(issued := Some(Signed(authorization, signature.value)))]), c)
  }

  /** An event that cannot happen in a state changes nothing. */
  function Next(cfg: Config, s: State, e: Event): State {
    match e
    case Tick(seconds) => s.(now := s.now + seconds)
    case Create(account, id) => Creates(cfg, s, account, id)
    case BeginCalled(id) => BeginsCall(s, id)
    case ReceiveCalled(id, payload) => ReceivesCall(s, id, payload)
    case AuthorizeCalled(id) => AuthorizesCall(s, id)
    case BeginControlled(c, ok) =>
      if c < |s.calls| && s.calls[c].phase.BeginControl? then BeginsControlled(s, c, ok) else s
    case ReceiveControlled(c, ok) =>
      if c < |s.calls| && s.calls[c].phase.ReceiveControl? then ReceivesControlled(cfg, s, c, ok, s.calls[c].phase.payload) else s
    case ReceiveVerified(c, result) =>
      if c < |s.calls| && s.calls[c].phase.ReceiveVerify? then ReceivesVerified(cfg, s, c, s.calls[c].phase.payload, result) else s
    case AuthControlled(c, ok) =>
      if c < |s.calls| && s.calls[c].phase.AuthControl? then AuthControls(s, c, ok) else s
    case AuthClaimed(c) =>
      if c < |s.calls| && s.calls[c].phase.AuthClaims? then AuthPrepares(cfg, s, c, s.calls[c].phase.claims) else s
    case AuthSigned(c, signature) =>
      if c < |s.calls| && s.calls[c].phase.AuthSign? then AuthIssues(s, c, s.calls[c].phase.authorization, signature) else s
  }

  /** A grant handed to the caller of authorize by call `call` for challenge `id`. */
  datatype Grant = Grant(id: string, call: nat, signed: Signed)

  /** The grant an event hands out: the one issued before, or the one just signed. */
  function Returns(s: State, e: Event): Option<Grant> {
    match e
    case AuthControlled(c, ok) =>
      if c < |s.calls| && s.calls[c].phase.AuthControl? && ok && HasSession(s, s.calls[c].id)
         && s.sessions[s.calls[c].id].issued.Some?
      then Some(Grant(s.calls[c].id, c, s.sessions[s.calls[c].id].issued.value))
      else None
    case AuthSigned(c, signature) =>
      if c < |s.calls| && s.calls[c].phase.AuthSign? && signature.Some? && HasSession(s, s.calls[c].id)
      then Some(Grant(s.calls[c].id, c, Signed(s.calls[c].phase.authorization, signature.value)))
      else None
    case _ => None
  }

  function Start(now: int): State {
    State(now, map[], map[], [], map[])
  }

  function After(cfg: Config, s: State, events: seq<Event>): State {
    if events == [] then s else Next(cfg, After(cfg, s, events[..|events| - 1]), events[|events| - 1])
  }

  /** Any interleaving is a sequence of events; what is told about the past is told by the events themselves. */
  datatype Run = Run(cfg: Config, start: int, events: seq<Event>) {
    function Len(): nat { |events| }

    /** The state in which event i happens. */
    function At(i: nat): State
      requires i <= |events|
    {
      After(cfg, Start(start), events[..i])
    }

    function End(): State { At(|events|) }

    function Then(e: Event): Run { this.(events := events + [e]) }

    function UpTo(i: nat): Run
      requires i <= |events|
    {
      this.(events := events[..i])
    }

    function GrantAt(k: nat): Option<Grant>
      requires k < |events|
    {
      Returns(At(k), events[k])
    }
  }

  ghost predicate Extends(r: Run, r': Run) {
    r.cfg == r'.cfg && r.start == r'.start && r.events <= r'.events
  }

  lemma AtStays(r: Run, r': Run, i: nat)
    requires Extends(r, r') && i <= r.Len()
    ensures r'.At(i) == r.At(i) && (i < r.Len() ==> r'.events[i] == r.events[i])
  {
    hide After;
    assert r'.events[..i] == r.events[..i];
  }

  /** One more event. */
  lemma ThenIsNext(r: Run, e: Event)
    ensures Extends(r, r.Then(e)) && r.Then(e).At(r.Len()) == r.End() && r.Then(e).events[r.Len()] == e
    ensures r.Then(e).End() == Next(r.cfg, r.End(), e)
  {
    var r' := r.Then(e);
    assert r'.events[..r'.Len()] == r'.events && r.events[..r.Len()] == r.events;
    assert r'.events[..r.Len()] == r.events;
  }

  lemma StepIsNext(r: Run, i: nat)
    requires i < r.Len()
    ensures r.At(i + 1) == Next(r.cfg, r.At(i), r.events[i])
  {
    assert r.events[..i + 1][..i] == r.events[..i];
  }

  // ----- what can have happened

  /** In the state in which event i happens, call c is waiting so. */
  ghost predicate Waits(r: Run, i: nat, c: nat, call: Call) {
    i <= r.Len() && c < |r.At(i).calls| && r.At(i).calls[c] == call
  }

  /** Event b lets a begin of the challenge succeed: the account was checked, and the challenge lives. */
  ghost predicate BeginsAt(r: Run, b: nat, id: string) {
    && b < r.Len() && r.events[b].BeginControlled? && r.events[b].ok
    && Waits(r, b, r.events[b].call, Call(id, BeginControl)) && HasEntry(r.At(b), id)
  }

  ghost predicate Begun(r: Run, id: string, before: nat) {
    exists b: nat :: b < before && BeginsAt(r, b, id)
  }

  /** A submitted proof: the places of its begin, of the call that submits it, of its account check and of its verification. */
  datatype Proof = Proof(begun: nat, submitted: nat, controlled: nat, verified: nat, call: nat, payload: Payload, result: VerifyResult)

  /** Call c hands in the payload, after a begin. */
  ghost predicate SubmittedAt(r: Run, p: Proof, id: string) {
    && p.begun < p.submitted < r.Len() && BeginsAt(r, p.begun, id)
    && r.events[p.submitted] == ReceiveCalled(id, p.payload) && |r.At(p.submitted).calls| == p.call
    && Waits(r, p.submitted + 1, p.call, Call(id, ReceiveControl(p.payload)))
  }

  /** The account was checked in the call that handed in the payload, and the payload is for the canonical query. */
  ghost predicate ControlledAt(r: Run, p: Proof, id: string) {
    && SubmittedAt(r, p, id) && p.submitted < p.controlled < r.Len()
    && r.events[p.controlled] == ReceiveControlled(p.call, true)
    && Waits(r, p.controlled, p.call, Call(id, ReceiveControl(p.payload)))
    && p.payload.isObject && p.payload.hasProofs && p.payload.hasQueries
    && JsonEquality.AsTree(p.payload.originalQuery) == JsonEquality.AsTree(r.cfg.canonicalQuery)
  }

  /** What the policy asks of a verified proof. */
  ghost predicate MeetsPolicy(cfg: Config, p: Payload, result: VerifyResult) {
    && result.verified && result.uniqueIdentifier.Some? && ValidNullifier(result.uniqueIdentifier.value)
    && (result.idType == (if cfg.salted then SALTED else NON_SALTED)
        || (cfg.devMode && result.idType == (if cfg.salted then SALTED_MOCK else NON_SALTED_MOCK)))
    && (cfg.minimumAge ==> p.ageMet) && (cfg.nationalityIn ==> p.nationalityMet) && (cfg.revealGender ==> p.genderMet)
    && (cfg.revealDateOfBirth ==> p.dateOfBirthMet) && (cfg.revealNationality ==> p.nationalityRevealed)
  }

  /** The proof was verified in that same call, meets the policy, and is the first of its living challenge. */
  ghost predicate AcceptedProof(r: Run, p: Proof, id: string) {
    && ControlledAt(r, p, id) && p.controlled < p.verified < r.Len()
    && r.events[p.verified] == ReceiveVerified(p.call, Some(p.result))
    && Waits(r, p.verified, p.call, Call(id, ReceiveVerify(p.payload)))
    && MeetsPolicy(r.cfg, p.payload, p.result)
    && HasEntry(r.At(p.verified), id) && r.At(p.verified).entries[id].claims.None?
  }

  /** The number a proof is about. */
  ghost function Number(p: Proof): nat
    requires p.result.uniqueIdentifier.Some? && ValidNullifier(p.result.uniqueIdentifier.value)
  {
    BigIntOf(p.result.uniqueIdentifier.value)
  }

  /** The authorization of a challenge for the holder proved. */
  ghost predicate AuthorizationOf(cfg: Config, c: Challenge, p: Proof, a: Authorization)
    requires MeetsPolicy(cfg, p.payload, p.result)
  {
    && a.account == c.account && a.nonce == c.id && a.identityTag == cfg.identityTag(DecimalString(Number(p)))
    && a.expiresAt == a.issuedAt + cfg.grantLifetimeSeconds && a.issuedAt < c.expiresAt
  }

  /** Event k is the account check of authorizing call c. */
  ghost predicate AuthControlledAt(r: Run, k: nat, c: nat, id: string) {
    k < r.Len() && r.events[k] == AuthControlled(c, true) && Waits(r, k, c, Call(id, AuthControl))
  }

  lemma BegunStays(r: Run, r': Run, id: string, before: nat)
    requires Extends(r, r') && Begun(r, id, before)
    ensures Begun(r', id, before)
  {
    hide After;
    var b: nat :| b < before && BeginsAt(r, b, id);
    BeginsAtStays(r, r', b, id);
  }

  lemma BeginsAtStays(r: Run, r': Run, b: nat, id: string)
    requires Extends(r, r') && BeginsAt(r, b, id)
    ensures BeginsAt(r', b, id)
  {
    hide After;
    AtStays(r, r', b);
  }

  lemma SubmittedStays(r: Run, r': Run, p: Proof, id: string)
    requires Extends(r, r') && SubmittedAt(r, p, id)
    ensures SubmittedAt(r', p, id)
  {
    hide After;
    BeginsAtStays(r, r', p.begun, id);
    AtStays(r, r', p.submitted);
    AtStays(r, r', p.submitted + 1);
  }

  lemma ControlledStays(r: Run, r': Run, p: Proof, id: string)
    requires Extends(r, r') && ControlledAt(r, p, id)
    ensures ControlledAt(r', p, id)
  {
    hide After;
    SubmittedStays(r, r', p, id);
    AtStays(r, r', p.controlled);
  }

  lemma ProofStays(r: Run, r': Run, p: Proof, id: string)
    requires Extends(r, r') && AcceptedProof(r, p, id)
    ensures AcceptedProof(r', p, id)
  {
    hide After;
    ControlledStays(r, r', p, id);
    AtStays(r, r', p.verified);
  }

  // ----- what holds in every state

  /** Claims are those of a proof accepted before. */
  ghost predicate ClaimsOk(r: Run, s: State, id: string, claims: Claims, before: nat) {
    && id in s.created && claims.account == s.created[id].account && claims.userDefinedData == s.created[id].userDefinedData
    && exists p: Proof :: AcceptedProof(r, p, id) && p.verified < before && claims.nullifier == DecimalString(Number(p))
  }

  /** An authorization is that of a proof accepted before. */
  ghost predicate Backed(r: Run, s: State, id: string, a: Authorization, before: nat) {
    id in s.created && exists p: Proof :: AcceptedProof(r, p, id) && p.verified < before && AuthorizationOf(r.cfg, s.created[id], p, a)
  }

  ghost predicate EntryOk(r: Run, s: State, id: string, e: Entry) {
    && id in s.created && s.created[id] == e.challenge && e.challenge.id == id
    && (e.begun ==> Begun(r, id, r.Len()))
    && (e.claims.Some? ==> ClaimsOk(r, s, id, e.claims.value, r.Len()))
  }

  ghost predicate SessionOk(r: Run, s: State, id: string, x: GrantSession) {
    && id in s.created && s.created[id] == x.challenge && x.challenge.id == id
    && (x.issued.Some? ==> Backed(r, s, id, x.issued.value.authorization, r.Len()))
  }

  /** What a waiting call carries was submitted, checked and proved. */
  ghost predicate PhaseOk(r: Run, s: State, c: nat, id: string, phase: Phase) {
    match phase
    case ReceiveControl(payload) => exists p: Proof :: SubmittedAt(r, p, id) && p.call == c && p.payload == payload
    case ReceiveVerify(payload) => exists p: Proof :: ControlledAt(r, p, id) && p.call == c && p.payload == payload
    case AuthClaims(claims) =>
      exists k: nat :: AuthControlledAt(r, k, c, id) && (claims.Some? ==> ClaimsOk(r, s, id, claims.value, k))
    case AuthSign(authorization) => exists k: nat :: AuthControlledAt(r, k, c, id) && Backed(r, s, id, authorization, k)
    case _ => true
  }

  /** A waiting call holds its lock. */
  ghost predicate LockOk(s: State, id: string, phase: Phase) {
    && (phase.OnEntry() && id in s.entries ==> s.entries[id].busy)
    && (phase.Receiving() && id in s.entries ==> s.entries[id].begun)
    && (phase.OnSession() && id in s.sessions ==> s.sessions[id].busy)
    && ((phase.AuthClaims? || phase.AuthSign?) && id in s.sessions ==> s.sessions[id].issued.None?)
  }

  ghost predicate CallOk(r: Run, s: State, c: nat)
    requires c < |s.calls|
  {
    && s.calls[c].id in s.created && LockOk(s, s.calls[c].id, s.calls[c].phase)
    && PhaseOk(r, s, c, s.calls[c].id, s.calls[c].phase)
  }

  /** At most one call holds the lock of an entry, and at most one that of a session. */
  ghost predicate Exclusive(s: State) {
    forall c, d :: 0 <= c < d < |s.calls| && s.calls[c].id == s.calls[d].id ==>
      && !(s.calls[c].phase.OnEntry() && s.calls[d].phase.OnEntry())
      && !(s.calls[c].phase.OnSession() && s.calls[d].phase.OnSession())
  }

  ghost predicate Inv(r: Run, s: State) {
    && (forall id :: id in s.entries ==> EntryOk(r, s, id, s.entries[id]))
    && (forall id :: id in s.sessions ==> SessionOk(r, s, id, s.sessions[id]))
    && (forall c :: 0 <= c < |s.calls| ==> CallOk(r, s, c))
    && Exclusive(s)
  }

  // ----- keeping it

  /** The run goes on, and challenges are only added. */
  ghost predicate Grows(r: Run, s: State, r': Run, s': State) {
    && Extends(r, r') && forall id :: id in s.created ==> id in s'.created && s'.created[id] == s.created[id]
  }

  lemma ClaimsStay(r: Run, s: State, r': Run, s': State, id: string, claims: Claims, before: nat, before': nat)
    requires Grows(r, s, r', s') && ClaimsOk(r, s, id, claims, before) && before <= before'
    ensures ClaimsOk(r', s', id, claims, before')
  {
    hide After, ControlledAt, DecimalString, BigIntOf;
    var p: Proof :| AcceptedProof(r, p, id) && p.verified < before && claims.nullifier == DecimalString(Number(p));
    ProofStays(r, r', p, id);
  }

  lemma BackedStays(r: Run, s: State, r': Run, s': State, id: string, a: Authorization, before: nat, before': nat)
    requires Grows(r, s, r', s') && Backed(r, s, id, a, before) && before <= before'
    ensures Backed(r', s', id, a, before')
  {
    hide After, AuthorizationOf;
    var p: Proof :| AcceptedProof(r, p, id) && p.verified < before && AuthorizationOf(r.cfg, s.created[id], p, a);
    ProofStays(r, r', p, id);
  }

  lemma EntryStays(r: Run, s: State, r': Run, s': State, id: string, e: Entry)
    requires Grows(r, s, r', s') && EntryOk(r, s, id, e)
    ensures EntryOk(r', s', id, e)
  {
    hide After, ClaimsOk, Begun;
    if e.begun {
      BegunLater(r, r', id);
    }
    if e.claims.Some? {
      ClaimsStay(r, s, r', s', id, e.claims.value, r.Len(), r'.Len());
    }
  }

  lemma BegunLater(r: Run, r': Run, id: string)
    requires Extends(r, r') && Begun(r, id, r.Len())
    ensures Begun(r', id, r'.Len())
  {
    hide After;
    BegunStays(r, r', id, r.Len());
  }

  lemma SessionStays(r: Run, s: State, r': Run, s': State, id: string, x: GrantSession)
    requires Grows(r, s, r', s') && SessionOk(r, s, id, x)
    ensures SessionOk(r', s', id, x)
  {
    hide After, Backed;
    if x.issued.Some? {
      BackedStays(r, s, r', s', id, x.issued.value.authorization, r.Len(), r'.Len());
    }
  }

  lemma AuthControlStays(r: Run, r': Run, k: nat, c: nat, id: string)
    requires Extends(r, r') && AuthControlledAt(r, k, c, id)
    ensures AuthControlledAt(r', k, c, id)
  {
    hide After;
    AtStays(r, r', k);
  }

  lemma PhaseStays(r: Run, s: State, r': Run, s': State, c: nat, id: string, phase: Phase)
    requires Grows(r, s, r', s') && PhaseOk(r, s, c, id, phase)
    ensures PhaseOk(r', s', c, id, phase)
  {
    hide After, ClaimsOk, Backed, SubmittedAt, ControlledAt, AuthControlledAt;
    match phase
    case ReceiveControl(payload) =>
      var p: Proof :| SubmittedAt(r, p, id) && p.call == c && p.payload == payload;
      SubmittedStays(r, r', p, id);
    case ReceiveVerify(payload) =>
      var p: Proof :| ControlledAt(r, p, id) && p.call == c && p.payload == payload;
      ControlledStays(r, r', p, id);
    case AuthClaims(claims) =>
      var k: nat :| AuthControlledAt(r, k, c, id) && (claims.Some? ==> ClaimsOk(r, s, id, claims.value, k));
      AuthControlStays(r, r', k, c, id);
      if claims.Some? {
        ClaimsStay(r, s, r', s', id, claims.value, k, k);
      }
    case AuthSign(authorization) =>
      var k: nat :| AuthControlledAt(r, k, c, id) && Backed(r, s, id, authorization, k);
      AuthControlStays(r, r', k, c, id);
      BackedStays(r, s, r', s', id, authorization, k, k);
    case _ =>
  }

  /** Only call c changes, or is new. */
  ghost predicate SameCallsBut(s: State, s': State, c: nat) {
    && |s.calls| <= |s'.calls| && (|s.calls| < |s'.calls| ==> c == |s.calls| == |s'.calls| - 1)
    && forall d :: 0 <= d < |s.calls| && d != c ==> s'.calls[d] == s.calls[d]
  }

  /** What a step for challenge `id` and call `c` may leave: everything else as it was or swept, the two themselves in order. */
  ghost predicate OnlyTouches(r: Run, s: State, s': State, id: string, c: nat) {
    && Grows(r, s, r, s')
    && (forall i :: i in s'.entries && i != id ==> i in s.entries && s'.entries[i] == s.entries[i])
    && (forall i :: i in s'.sessions && i != id ==> i in s.sessions && s'.sessions[i] == s.sessions[i])
    && SameCallsBut(s, s', c)
    && (id in s'.entries ==> EntryOk(r, s', id, s'.entries[id]))
    && (id in s'.sessions ==> SessionOk(r, s', id, s'.sessions[id]))
    && (c < |s'.calls| ==> s'.calls[c].id == id && CallOk(r, s', c))
  }

  /** Another call of the same challenge keeps its lock, and call c does not take it. */
  ghost predicate LeavesInPeace(s: State, s': State, id: string, c: nat) {
    forall d :: 0 <= d < |s.calls| && d != c && s.calls[d].id == id ==>
      && LockOk(s', id, s.calls[d].phase)
      && (c < |s'.calls| ==> !(s.calls[d].phase.OnEntry() && s'.calls[c].phase.OnEntry()))
      && (c < |s'.calls| ==> !(s.calls[d].phase.OnSession() && s'.calls[c].phase.OnSession()))
  }

  lemma StepKeepsInv(r: Run, s: State, s': State, id: string, c: nat)
    requires Inv(r, s) && OnlyTouches(r, s, s', id, c) && LeavesInPeace(s, s', id, c)
    ensures Inv(r, s')
  {
    hide After, EntryOk, SessionOk, PhaseOk;
    forall i | i in s'.entries
      ensures EntryOk(r, s', i, s'.entries[i])
    {
      if i != id {
        EntryStays(r, s, r, s', i, s'.entries[i]);
      }
    }
    forall i | i in s'.sessions
      ensures SessionOk(r, s', i, s'.sessions[i])
    {
      if i != id {
        SessionStays(r, s, r, s', i, s'.sessions[i]);
      }
    }
    forall d | 0 <= d < |s'.calls|
      ensures CallOk(r, s', d)
    {
      if d != c {
        assert s'.calls[d] == s.calls[d] && CallOk(r, s, d);
        PhaseStays(r, s, r, s', d, s.calls[d].id, s.calls[d].phase);
      }
    }
  }

  lemma InvStays(r: Run, r': Run, s: State)
    requires Inv(r, s) && Extends(r, r')
    ensures Inv(r', s)
  {
    hide After, EntryOk, SessionOk, PhaseOk;
    forall i | i in s.entries
      ensures EntryOk(r', s, i, s.entries[i])
    {
      EntryStays(r, s, r', s, i, s.entries[i]);
    }
    forall i | i in s.sessions
      ensures SessionOk(r', s, i, s.sessions[i])
    {
      SessionStays(r, s, r', s, i, s.sessions[i]);
    }
    forall d | 0 <= d < |s.calls|
      ensures CallOk(r', s, d)
    {
      assert CallOk(r, s, d);
      PhaseStays(r, s, r', s, d, s.calls[d].id, s.calls[d].phase);
    }
  }

  lemma IsCreated(r: Run, s: State, id: string)
    requires Inv(r, s)
    ensures id in s.entries ==> id in s.created && s.created[id] == s.entries[id].challenge && s.entries[id].challenge.id == id
    ensures id in s.sessions ==> id in s.created && s.created[id] == s.sessions[id].challenge && s.sessions[id].challenge.id == id
    ensures forall c :: 0 <= c < |s.calls| ==> s.calls[c].id in s.created
  {
    hide After;
    forall c | 0 <= c < |s.calls|
      ensures s.calls[c].id in s.created
    {
      assert CallOk(r, s, c);
    }
  }

  // ----- the proof flow

  /** Call c starts on an entry that is free, or holds it and moves on or lets go. */
  lemma EntryStepKeeps(r: Run, s: State, s': State, id: string, c: nat)
    requires Inv(r, s) && id in s.created && s' == s.(entries := s'.entries, calls := s'.calls)
    requires forall i :: i in s'.entries && i != id ==> i in s.entries && s'.entries[i] == s.entries[i]
    requires c < |s'.calls| && SameCallsBut(s, s', c) && s'.calls[c].id == id && !s'.calls[c].phase.OnSession()
    requires if c < |s.calls| then s.calls[c].id == id && s.calls[c].phase.OnEntry() else id in s.entries && !s.entries[id].busy
    requires id in s'.entries ==> EntryOk(r, s', id, s'.entries[id])
    requires LockOk(s', id, s'.calls[c].phase) && PhaseOk(r, s', c, id, s'.calls[c].phase)
    ensures Inv(r, s')
  {
    hide After, EntryOk, SessionOk, PhaseOk;
    if id in s'.sessions {
      SessionStays(r, s, r, s', id, s'.sessions[id]);
    }
    forall d | 0 <= d < |s.calls| && d != c && s.calls[d].id == id
      ensures LockOk(s', id, s.calls[d].phase) && !s.calls[d].phase.OnEntry()
    {
      assert CallOk(r, s, d);
    }
    StepKeepsInv(r, s, s', id, c);
  }

  /** An entry keeps being in order when only its lock changes. */
  lemma EntryLockStays(r: Run, s: State, s': State, id: string, e: Entry, busy: bool)
    requires EntryOk(r, s, id, e) && s'.created == s.created
    ensures EntryOk(r, s', id, e.(busy := busy))
  {
    hide After, ClaimsOk, Begun;
    if e.claims.Some? {
      ClaimsStay(r, s, r, s', id, e.claims.value, r.Len(), r.Len());
    }
  }

  lemma EndOnEntryKeeps(r: Run, s: State, c: nat)
    requires Inv(r, s) && c < |s.calls| && s.calls[c].phase.OnEntry()
    ensures Inv(r, EndOnEntry(s, c))
  {
    hide After, EntryOk, SessionOk;
    var id, s' := s.calls[c].id, EndOnEntry(s, c);
    IsCreated(r, s, id);
    if id in s.entries {
      EntryLockStays(r, s, s', id, s.entries[id], false);
    }
    EntryStepKeeps(r, s, s', id, c);
  }

  lemma BeginsCallKeeps(r: Run, s: State, id: string)
    requires Inv(r, s)
    ensures Inv(r, BeginsCall(s, id))
  {
    hide After, EntryOk, SessionOk;
    if HasEntry(s, id) && !s.entries[id].busy {
      IsCreated(r, s, id);
      EntryLockStays(r, s, BeginsCall(s, id), id, s.entries[id], true);
      EntryStepKeeps(r, s, BeginsCall(s, id), id, |s.calls|);
    }
  }

  /** `r` ends with this event, which happens in state s. */
  ghost predicate JustNow(r: Run, s: State, e: Event) {
    r.Len() > 0 && r.events[r.Len() - 1] == e && r.At(r.Len() - 1) == s && r.End() == Next(r.cfg, s, e)
  }

  lemma BeginsControlledKeeps(r: Run, s: State, c: nat, ok: bool)
    requires Inv(r, s) && c < |s.calls| && s.calls[c].phase.BeginControl? && JustNow(r, s, BeginControlled(c, ok))
    ensures Inv(r, BeginsControlled(s, c, ok))
  {
    hide After, SessionOk, ClaimsOk;
    var id, s' := s.calls[c].id, BeginsControlled(s, c, ok);
    if ok && HasEntry(s, id) {
      IsCreated(r, s, id);
      assert s.calls[c] == Call(id, BeginControl);
      assert BeginsAt(r, r.Len() - 1, id);
      EntryLockStays(r, s, s', id, s.entries[id], false);
      EntryStepKeeps(r, s, s', id, c);
    } else {
      EndOnEntryKeeps(r, s, c);
    }
  }

  lemma ReceivesCallKeeps(r: Run, s: State, id: string, payload: Payload)
    requires Inv(r, s) && JustNow(r, s, ReceiveCalled(id, payload)) && BegunBefore(r, s, id)
    ensures Inv(r, ReceivesCall(s, id, payload))
  {
    hide After, EntryOk, SessionOk, BeginsAt;
    if HasEntry(s, id) && !s.entries[id].busy && s.entries[id].begun {
      var c, s' := |s.calls|, ReceivesCall(s, id, payload);
      IsCreated(r, s, id);
      EntryLockStays(r, s, s', id, s.entries[id], true);
      var b: nat :| b < r.Len() - 1 && BeginsAt(r, b, id);
      var anything := VerifyResult(false, None, SALTED);
      var p := Proof(b, r.Len() - 1, 0, 0, c, payload, anything);
      assert SubmittedAt(r, p, id);
      EntryStepKeeps(r, s, s', id, c);
    }
  }

  /** What the entry says had begun before the last event. */
  ghost predicate BegunBefore(r: Run, s: State, id: string) {
    r.Len() > 0 && (id in s.entries && s.entries[id].begun ==> Begun(r, id, r.Len() - 1))
  }

  /** A payload passes exactly with a query that is the canonical one, read as a tree. */
  lemma CanonicalIffSameTree(cfg: Config, p: Payload)
    ensures PayloadOk(cfg, p) <==>
              && p.isObject && p.hasProofs && p.hasQueries
              && JsonEquality.AsTree(p.originalQuery) == JsonEquality.AsTree(cfg.canonicalQuery)
  {
    JsonEquality.DeepEqualIff(p.originalQuery, cfg.canonicalQuery);
  }

  lemma ReceivesControlledKeeps(r: Run, s: State, c: nat, ok: bool, payload: Payload)
    requires Inv(r, s) && c < |s.calls| && s.calls[c].phase == ReceiveControl(payload)
    requires JustNow(r, s, ReceiveControlled(c, ok)) && PhaseBefore(r, s, c)
    ensures Inv(r, ReceivesControlled(r.cfg, s, c, ok, payload))
  {
    hide After, EntryOk, SessionOk, SubmittedAt;
    var id, s' := s.calls[c].id, ReceivesControlled(r.cfg, s, c, ok, payload);
    if ok && HasEntry(s, id) && PayloadOk(r.cfg, payload) {
      IsCreated(r, s, id);
      assert CallOk(r, s, c) && s.calls[c] == Call(id, ReceiveControl(payload));
      EntryLockStays(r, s, s', id, s.entries[id], s.entries[id].busy);
      var q: Proof :| SubmittedAt(r, q, id) && q.submitted < r.Len() - 1 && q.call == c && q.payload == payload;
      var p := q.(controlled := r.Len() - 1);
      SameSubmission(r, p, q, id);
      CanonicalIffSameTree(r.cfg, payload);
      assert ControlledAt(r, p, id);
      EntryStepKeeps(r, s, s', id, c);
    } else {
      EndOnEntryKeeps(r, s, c);
    }
  }

  lemma SameSubmission(r: Run, p: Proof, q: Proof, id: string)
    requires SubmittedAt(r, q, id) && p == q.(controlled := p.controlled)
    ensures SubmittedAt(r, p, id)
  {
    hide After;
  }

  /** What call c carries had been submitted or checked before the last event. */
  ghost predicate PhaseBefore(r: Run, s: State, c: nat)
    requires c < |s.calls|
  {
    var Call(id, phase) := s.calls[c];
    match phase
    case ReceiveControl(payload) =>
      exists p: Proof :: SubmittedAt(r, p, id) && p.submitted < r.Len() - 1 && p.call == c && p.payload == payload
    case ReceiveVerify(payload) =>
      exists p: Proof :: ControlledAt(r, p, id) && p.controlled < r.Len() - 1 && p.call == c && p.payload == payload
    case _ => true
  }

  /** The second part of the checks is exactly the policy. */
  lemma AcceptedIffPolicy(cfg: Config, p: Payload, result: VerifyResult)
    ensures AcceptedNullifier(cfg, p, Some(result)).Some? <==> MeetsPolicy(cfg, p, result)
    ensures MeetsPolicy(cfg, p, result) ==>
      AcceptedNullifier(cfg, p, Some(result)).value == DecimalString(BigIntOf(result.uniqueIdentifier.value))
  {
    hide BigIntOf, IsHexLiteral, IsDecimalLiteral, DecimalString;
  }

  lemma ReceivesVerifiedKeeps(r: Run, s: State, c: nat, payload: Payload, result: Option<VerifyResult>)
    requires Inv(r, s) && c < |s.calls| && s.calls[c].phase == ReceiveVerify(payload)
    requires JustNow(r, s, ReceiveVerified(c, result)) && PhaseBefore(r, s, c)
    ensures Inv(r, ReceivesVerified(r.cfg, s, c, payload, result))
  {
    hide After, EntryOk, SessionOk, ControlledAt, AcceptedNullifier, MeetsPolicy, DecimalString;
    var id, s' := s.calls[c].id, ReceivesVerified(r.cfg, s, c, payload, result);
    var nullifier := AcceptedNullifier(r.cfg, payload, result);
    if HasEntry(s, id) && nullifier.Some? && s.entries[id].claims.None? {
      IsCreated(r, s, id);
      assert s.calls[c] == Call(id, ReceiveVerify(payload));
      OnlySomeIsAccepted(r.cfg, payload, result);
      AcceptedIffPolicy(r.cfg, payload, result.value);
      var q: Proof :| ControlledAt(r, q, id) && q.controlled < r.Len() - 1 && q.call == c && q.payload == payload;
      var p := q.(verified := r.Len() - 1, result := result.value);
      SameControl(r, p, q, id);
      assert AcceptedProof(r, p, id);
      RecordedEntryOk(r, s, s', id, p, nullifier.value);
      EntryStepKeeps(r, s, s', id, c);
    } else {
      EndOnEntryKeeps(r, s, c);
    }
  }

  lemma OnlySomeIsAccepted(cfg: Config, p: Payload, result: Option<VerifyResult>)
    ensures AcceptedNullifier(cfg, p, result).Some? ==> result.Some?
  {
  }

  lemma SameControl(r: Run, p: Proof, q: Proof, id: string)
    requires ControlledAt(r, q, id) && p == q.(verified := p.verified, result := p.result)
    ensures ControlledAt(r, p, id)
  {
    hide After;
  }

  lemma RecordedEntryOk(r: Run, s: State, s': State, id: string, p: Proof, nullifier: string)
    requires id in s.entries && EntryOk(r, s, id, s.entries[id]) && s'.created == s.created
    requires AcceptedProof(r, p, id) && nullifier == DecimalString(Number(p))
    ensures var e := s.entries[id];
            EntryOk(r, s', id, e.(busy := false, claims := Some(Claims(e.challenge.account, e.challenge.userDefinedData, nullifier))))
  {
    hide After, ControlledAt, DecimalString, Begun, BigIntOf;
    assert p.verified < r.Len();
  }

  // ----- the grant flow

  lemma SessionStepKeeps(r: Run, s: State, s': State, id: string, c: nat)
    requires Inv(r, s) && id in s.created && s' == s.(sessions := s'.sessions, calls := s'.calls)
    requires forall i :: i in s'.sessions && i != id ==> i in s.sessions && s'.sessions[i] == s.sessions[i]
    requires c < |s'.calls| && SameCallsBut(s, s', c) && s'.calls[c].id == id && !s'.calls[c].phase.OnEntry()
    requires if c < |s.calls| then s.calls[c].id == id && s.calls[c].phase.OnSession() else id in s.sessions && !s.sessions[id].busy
    requires id in s'.sessions ==> SessionOk(r, s', id, s'.sessions[id])
    requires LockOk(s', id, s'.calls[c].phase) && PhaseOk(r, s', c, id, s'.calls[c].phase)
    ensures Inv(r, s')
  {
    hide After, EntryOk, SessionOk, PhaseOk;
    if id in s'.entries {
      EntryStays(r, s, r, s', id, s'.entries[id]);
    }
    forall d | 0 <= d < |s.calls| && d != c && s.calls[d].id == id
      ensures LockOk(s', id, s.calls[d].phase) && !s.calls[d].phase.OnSession()
    {
      assert CallOk(r, s, d);
    }
    StepKeepsInv(r, s, s', id, c);
  }

  lemma SessionLockStays(r: Run, s: State, s': State, id: string, x: GrantSession, busy: bool)
    requires SessionOk(r, s, id, x) && s'.created == s.created
    ensures SessionOk(r, s', id, x.(busy := busy))
  {
    hide After, Backed;
    if x.issued.Some? {
      BackedStays(r, s, r, s', id, x.issued.value.authorization, r.Len(), r.Len());
    }
  }

  lemma EndOnSessionKeeps(r: Run, s: State, c: nat)
    requires Inv(r, s) && c < |s.calls| && s.calls[c].phase.OnSession()
    ensures Inv(r, EndOnSession(s, c))
  {
    hide After, EntryOk, SessionOk;
    var id, s' := s.calls[c].id, EndOnSession(s, c);
    IsCreated(r, s, id);
    if id in s.sessions {
      SessionLockStays(r, s, s', id, s.sessions[id], false);
    }
    SessionStepKeeps(r, s, s', id, c);
  }

  lemma AuthorizesCallKeeps(r: Run, s: State, id: string)
    requires Inv(r, s)
    ensures Inv(r, AuthorizesCall(s, id))
  {
    hide After, EntryOk, SessionOk;
    if HasSession(s, id) && !s.sessions[id].busy {
      IsCreated(r, s, id);
      SessionLockStays(r, s, AuthorizesCall(s, id), id, s.sessions[id], true);
      SessionStepKeeps(r, s, AuthorizesCall(s, id), id, |s.calls|);
    }
  }

  /** The claims of the entry were proved before the last event. */
  ghost predicate ClaimsBefore(r: Run, s: State, id: string) {
    r.Len() > 0 && (id in s.entries && s.entries[id].claims.Some? ==> ClaimsOk(r, s, id, s.entries[id].claims.value, r.Len() - 1))
  }

  lemma AuthControlsKeeps(r: Run, s: State, c: nat, ok: bool)
    requires Inv(r, s) && c < |s.calls| && s.calls[c].phase.AuthControl?
    requires JustNow(r, s, AuthControlled(c, ok)) && ClaimsBefore(r, s, s.calls[c].id)
    ensures Inv(r, AuthControls(s, c, ok))
  {
    hide After, EntryOk, SessionOk, ClaimsOk;
    var id, s' := s.calls[c].id, AuthControls(s, c, ok);
    if ok && HasSession(s, id) && s.sessions[id].issued.None? {
      IsCreated(r, s, id);
      assert CallOk(r, s, c) && s.calls[c] == Call(id, AuthControl);
      assert AuthControlledAt(r, r.Len() - 1, c, id);
      SessionLockStays(r, s, s', id, s.sessions[id], s.sessions[id].busy);
      if s'.calls[c].phase.claims.Some? {
        ClaimsStay(r, s, r, s', id, s'.calls[c].phase.claims.value, r.Len() - 1, r.Len() - 1);
      }
      SessionStepKeeps(r, s, s', id, c);
    } else {
      EndOnSessionKeeps(r, s, c);
    }
  }

  /** The tag of recorded claims is that of the number proved. */
  lemma ClaimsGiveAuthorization(r: Run, s: State, s': State, id: string, claims: Claims, before: nat, a: Authorization)
    requires ClaimsOk(r, s, id, claims, before) && s'.created == s.created && AllDecimal(claims.nullifier)
    requires a.account == s.created[id].account && a.nonce == s.created[id].id && a.issuedAt < s.created[id].expiresAt
    requires a.expiresAt == a.issuedAt + r.cfg.grantLifetimeSeconds
    requires a.identityTag == r.cfg.identityTag(DecimalString(ValueOf(claims.nullifier, 10)))
    ensures Backed(r, s', id, a, before)
  {
    hide After, ControlledAt, DecimalString, ValueOf;
    var p: Proof :| AcceptedProof(r, p, id) && p.verified < before && claims.nullifier == DecimalString(Number(p));
    DecimalRoundTrip(Number(p));
  }

  lemma ProofMeetsPolicy(r: Run, p: Proof, id: string)
    requires AcceptedProof(r, p, id)
    ensures MeetsPolicy(r.cfg, p.payload, p.result)
  {
    hide After;
  }

  lemma AuthPreparesKeeps(r: Run, s: State, c: nat, claims: Option<Claims>)
    requires Inv(r, s) && c < |s.calls| && s.calls[c].phase == AuthClaims(claims)
    ensures Inv(r, AuthPrepares(r.cfg, s, c, claims))
  {
    hide After, EntryOk, SessionOk, ClaimsOk, Backed, AuthControlledAt, DecimalString, ValueOf, AllDecimal;
    var id, s' := s.calls[c].id, AuthPrepares(r.cfg, s, c, claims);
    if s' == EndOnSession(s, c) {
      EndOnSessionKeeps(r, s, c);
    } else {
      IsCreated(r, s, id);
      assert CallOk(r, s, c);
      var k: nat :| AuthControlledAt(r, k, c, id) && (claims.Some? ==> ClaimsOk(r, s, id, claims.value, k));
      ClaimsGiveAuthorization(r, s, s', id, claims.value, k, s'.calls[c].phase.authorization);
      SessionLockStays(r, s, s', id, s.sessions[id], s.sessions[id].busy);
      SessionStepKeeps(r, s, s', id, c);
    }
  }

  lemma AuthIssuesKeeps(r: Run, s: State, c: nat, authorization: Authorization, signature: Option<string>)
    requires Inv(r, s) && c < |s.calls| && s.calls[c].phase == AuthSign(authorization)
    ensures Inv(r, AuthIssues(s, c, authorization, signature))
  {
    hide After, EntryOk, Backed, AuthControlledAt;
    var id, s' := s.calls[c].id, AuthIssues(s, c, authorization, signature);
    if signature.None? || !HasSession(s, id) {
      EndOnSessionKeeps(r, s, c);
    } else {
      IsCreated(r, s, id);
      assert CallOk(r, s, c);
      var k: nat :| AuthControlledAt(r, k, c, id) && Backed(r, s, id, authorization, k);
      WithinRun(r, k, c, id);
      BackedStays(r, s, r, s', id, authorization, k, r.Len());
      SessionStepKeeps(r, s, s', id, c);
    }
  }

  lemma WithinRun(r: Run, k: nat, c: nat, id: string)
    requires AuthControlledAt(r, k, c, id)
    ensures k < r.Len()
  {
    hide After;
  }

  // ----- new challenges, and every event

  /** Time passes, and what has expired is forgotten. */
  lemma SweepKeeps(r: Run, s: State, s': State)
    requires Inv(r, s) && s' == s.(now := s'.now, entries := s'.entries, sessions := s'.sessions)
    requires forall i :: i in s'.entries ==> i in s.entries && s'.entries[i] == s.entries[i]
    requires forall i :: i in s'.sessions ==> i in s.sessions && s'.sessions[i] == s.sessions[i]
    ensures Inv(r, s')
  {
    hide After, EntryOk, SessionOk, PhaseOk;
    forall i | i in s'.entries
      ensures EntryOk(r, s', i, s'.entries[i])
    {
      EntryStays(r, s, r, s', i, s'.entries[i]);
    }
    forall i | i in s'.sessions
      ensures SessionOk(r, s', i, s'.sessions[i])
    {
      SessionStays(r, s, r, s', i, s'.sessions[i]);
    }
    forall d | 0 <= d < |s'.calls|
      ensures CallOk(r, s', d)
    {
      assert CallOk(r, s, d);
      PhaseStays(r, s, r, s', d, s.calls[d].id, s.calls[d].phase);
    }
  }

  lemma NewChallengeKeeps(r: Run, s: State, challenge: Challenge)
    requires Inv(r, s) && challenge.id !in s.created
    ensures Inv(r, WithChallenge(s, challenge))
  {
    hide After, PhaseOk, ClaimsOk, Backed;
    IsCreated(r, s, challenge.id);
    StepKeepsInv(r, s, WithChallenge(s, challenge), challenge.id, |s.calls|);
  }

  /** The sessions that have not expired. */
  ghost function LivingSessions(s: State): set<string> {
    set i | i in s.sessions && s.sessions[i].challenge.expiresAt > s.now
  }

  /**
   Apart from the new ones, the entries that have not expired stay as they were and no other does; likewise the sessions,
   which are only swept for a valid account.
   */
  ghost predicate KeepsTheLiving(s: State, s': State, valid: bool, added: set<string>) {
    && (forall i :: i !in added ==> (i in s'.entries <==> i in s.entries && s.entries[i].challenge.expiresAt > s.now))
    && (forall i :: i in s'.entries && i !in added ==> s'.entries[i] == s.entries[i])
    && (forall i :: i !in added ==> (i in s'.sessions <==> i in s.sessions && (valid ==> s.sessions[i].challenge.expiresAt > s.now)))
    && forall i :: i in s'.sessions && i !in added ==> s'.sessions[i] == s.sessions[i]
  }

  /** A challenge is made exactly for a valid account while fewer than 500 sessions live; nobody who lives is forgotten. */
  lemma CreatesIff(cfg: Config, s: State, account: string, id: string)
    requires id !in s.created
    ensures var s' := Creates(cfg, s, account, id);
            && (id in s'.created <==> cfg.accountAddress(account).Some? && |LivingSessions(s)| < 500)
            && KeepsTheLiving(s, s', cfg.accountAddress(account).Some?, if id in s'.created then {id} else {})
  {
    hide Creates, KeepsTheLiving, LivingSessions;
    CreatesWhen(cfg, s, account, id);
    CreatesKeepTheLiving(cfg, s, account, id);
  }

  /** The challenge that is made. */
  lemma CreatesMakes(cfg: Config, s: State, account: string, id: string)
    requires id !in s.created
    ensures var s' := Creates(cfg, s, account, id);
            id in s'.created ==>
              && var c := s'.created[id];
              && c.id == id && cfg.accountAddress(account) == Some(c.account) && c.expiresAt == s.now + 300
              && c.userDefinedData == cfg.context(c.account, id, s.now + 300) && s'.now == s.now
              && s'.created == s.created[id := c] && HasEntry(s', id) && HasSession(s', id) && |s'.sessions| <= 500
  {
    hide FreshEntries, FreshSessions;
  }

  lemma CreatesWhen(cfg: Config, s: State, account: string, id: string)
    requires id !in s.created
    ensures id in Creates(cfg, s, account, id).created <==> cfg.accountAddress(account).Some? && |LivingSessions(s)| < 500
  {
    hide FreshEntries, FreshSessions, LivingSessions;
    FreshAreLiving(s, s.(entries := FreshEntries(s)));
  }

  lemma CreatesKeepTheLiving(cfg: Config, s: State, account: string, id: string)
    requires id !in s.created
    ensures var s' := Creates(cfg, s, account, id);
            KeepsTheLiving(s, s', cfg.accountAddress(account).Some?, if id in s'.created then {id} else {})
  {
    hide FreshEntries, FreshSessions;
    FreshAreLiving(s, s.(entries := FreshEntries(s)));
  }

  lemma FreshAreLiving(s: State, s1: State)
    requires s1.sessions == s.sessions && s1.now == s.now
    ensures |FreshSessions(s1)| == |LivingSessions(s)|
    ensures forall i :: i in FreshEntries(s) <==> i in s.entries && s.entries[i].challenge.expiresAt > s.now
    ensures forall i :: i in FreshSessions(s1) <==> i in s.sessions && s.sessions[i].challenge.expiresAt > s.now
  {
    assert FreshSessions(s1).Keys == LivingSessions(s);
    assert |FreshSessions(s1)| == |FreshSessions(s1).Keys|;
  }

  lemma CreatesKeeps(r: Run, s: State, account: string, id: string)
    requires Inv(r, s)
    ensures Inv(r, Creates(r.cfg, s, account, id))
  {
    hide After, Inv, FreshEntries, FreshSessions, WithChallenge;
    var s1 := s.(entries := FreshEntries(s));
    var s2 := s1.(sessions := FreshSessions(s1));
    SweepKeeps(r, s, s1);
    SweepKeeps(r, s1, s2);
    if r.cfg.accountAddress(account).Some? && |s2.sessions| < CAPACITY && id !in s.created {
      var expiresAt, normalized := s.now + CHALLENGE_SECONDS, r.cfg.accountAddress(account).value;
      NewChallengeKeeps(r, s2, Challenge(id, normalized, r.cfg.context(normalized, id, expiresAt), expiresAt));
    }
  }

  lemma JustThen(r: Run, e: Event)
    ensures JustNow(r.Then(e), r.End(), e) && Extends(r, r.Then(e))
  {
    hide After;
    ThenIsNext(r, e);
  }

  lemma EntryWasOk(r: Run, e: Event, id: string)
    requires Inv(r, r.End())
    ensures BegunBefore(r.Then(e), r.End(), id) && ClaimsBefore(r.Then(e), r.End(), id)
  {
    hide After, Begun, ClaimsOk;
    var s := r.End();
    JustThen(r, e);
    if id in s.entries {
      assert EntryOk(r, s, id, s.entries[id]);
      if s.entries[id].begun {
        BegunStays(r, r.Then(e), id, r.Len());
      }
      if s.entries[id].claims.Some? {
        ClaimsStay(r, s, r.Then(e), s, id, s.entries[id].claims.value, r.Len(), r.Len());
      }
    }
  }

  lemma PhaseWasOk(r: Run, e: Event, c: nat)
    requires Inv(r, r.End()) && c < |r.End().calls|
    ensures PhaseBefore(r.Then(e), r.End(), c)
  {
    hide After, EntryOk, SessionOk, Waits, BeginsAt;
    var s := r.End();
    var Call(id, phase) := s.calls[c];
    JustThen(r, e);
    assert CallOk(r, s, c);
    if phase.ReceiveControl? {
      var p: Proof :| SubmittedAt(r, p, id) && p.call == c && p.payload == phase.payload;
      SubmittedStays(r, r.Then(e), p, id);
    } else if phase.ReceiveVerify? {
      var p: Proof :| ControlledAt(r, p, id) && p.call == c && p.payload == phase.payload;
      ControlledStays(r, r.Then(e), p, id);
    }
  }

  lemma EntryFlowKeeps(r: Run, e: Event)
    requires Inv(r, r.End())
    requires e.BeginCalled? || e.BeginControlled? || e.ReceiveCalled? || e.ReceiveControlled? || e.ReceiveVerified?
    ensures Inv(r.Then(e), Next(r.cfg, r.End(), e))
  {
    hide After, Inv, JustNow, BegunBefore, PhaseBefore;
    hide BeginsCall, BeginsControlled, ReceivesCall, ReceivesControlled, ReceivesVerified;
    var r', s := r.Then(e), r.End();
    JustThen(r, e);
    InvStays(r, r', s);
    match e
    case BeginCalled(id) => BeginsCallKeeps(r', s, id);
    case BeginControlled(c, ok) =>
      if c < |s.calls| && s.calls[c].phase.BeginControl? {
        BeginsControlledKeeps(r', s, c, ok);
      }
    case ReceiveCalled(id, payload) =>
      EntryWasOk(r, e, id);
      ReceivesCallKeeps(r', s, id, payload);
    case ReceiveControlled(c, ok) =>
      if c < |s.calls| && s.calls[c].phase.ReceiveControl? {
        PhaseWasOk(r, e, c);
        ReceivesControlledKeeps(r', s, c, ok, s.calls[c].phase.payload);
      }
    case ReceiveVerified(c, result) =>
      if c < |s.calls| && s.calls[c].phase.ReceiveVerify? {
        PhaseWasOk(r, e, c);
        ReceivesVerifiedKeeps(r', s, c, s.calls[c].phase.payload, result);
      }
  }

  lemma NextKeepsInv(r: Run, e: Event)
    requires Inv(r, r.End())
    ensures Inv(r.Then(e), Next(r.cfg, r.End(), e))
  {
    hide After, Inv, JustNow, ClaimsBefore, Creates, BeginsCall, BeginsControlled, ReceivesCall, ReceivesControlled, ReceivesVerified;
    hide AuthorizesCall, AuthControls, AuthPrepares, AuthIssues;
    var r', s := r.Then(e), r.End();
    JustThen(r, e);
    InvStays(r, r', s);
    match e
    case Tick(seconds) => SweepKeeps(r', s, s.(now := s.now + seconds));
    case Create(account, id) => CreatesKeeps(r', s, account, id);
    case AuthorizeCalled(id) => AuthorizesCallKeeps(r', s, id);
    case AuthControlled(c, ok) =>
      if c < |s.calls| && s.calls[c].phase.AuthControl? {
        EntryWasOk(r, e, s.calls[c].id);
        AuthControlsKeeps(r', s, c, ok);
      }
    case AuthClaimed(c) =>
      if c < |s.calls| && s.calls[c].phase.AuthClaims? {
        AuthPreparesKeeps(r', s, c, s.calls[c].phase.claims);
      }
    case AuthSigned(c, signature) =>
      if c < |s.calls| && s.calls[c].phase.AuthSign? {
        AuthIssuesKeeps(r', s, c, s.calls[c].phase.authorization, signature);
      }
    case _ => EntryFlowKeeps(r, e);
  }

  /** Every interleaving keeps the locks exclusive, and whatever is stored or carried was earned by the events before. */
  lemma {:induction false} RunKeepsInv(r: Run)
    ensures Inv(r, r.End())
    decreases r.Len()
  {
    hide Inv, Next;
    if r.Len() > 0 {
      var before, e := r.UpTo(r.Len() - 1), r.events[r.Len() - 1];
      RunKeepsInv(before);
      NextKeepsInv(before, e);
      ThenIsNext(before, e);
      assert before.Then(e) == r;
    } else {
      NothingYet(r);
    }
  }

  lemma NothingYet(r: Run)
    requires r.Len() == 0
    ensures Inv(r, r.End())
  {
  }

  /** The same for the state at any place of the run. */
  lemma AlwaysInv(r: Run, i: nat)
    requires i <= r.Len()
    ensures Inv(r.UpTo(i), r.At(i)) && Extends(r.UpTo(i), r)
  {
    RunKeepsInv(r.UpTo(i));
    assert r.UpTo(i).events[..i] == r.events[..i];
  }

  // ----- what every interleaving guarantees

  /** At most one call is at work on the entry of a challenge and one on its session, while the lock is set. */
  lemma LocksAreExclusive(r: Run, i: nat, c: nat, d: nat)
    requires i <= r.Len() && c < |r.At(i).calls| && d < |r.At(i).calls| && r.At(i).calls[c].id == r.At(i).calls[d].id
    ensures r.At(i).calls[c].phase.OnEntry() && r.At(i).calls[d].phase.OnEntry() ==> c == d
    ensures r.At(i).calls[c].phase.OnSession() && r.At(i).calls[d].phase.OnSession() ==> c == d
    ensures LockOk(r.At(i), r.At(i).calls[c].id, r.At(i).calls[c].phase)
  {
    hide After;
    AlwaysInv(r, i);
    assert CallOk(r.UpTo(i), r.At(i), c);
  }

  /** A proof is only ever received for a challenge that has begun. */
  lemma ReceiversAlwaysHaveBegun(r: Run, i: nat, c: nat)
    requires i <= r.Len() && c < |r.At(i).calls| && r.At(i).calls[c].phase.Receiving() && r.At(i).calls[c].id in r.At(i).entries
    ensures r.At(i).entries[r.At(i).calls[c].id].begun && Begun(r, r.At(i).calls[c].id, i)
  {
    hide After, PhaseOk, SessionOk, Begun;
    var id := r.At(i).calls[c].id;
    AlwaysInv(r, i);
    assert CallOk(r.UpTo(i), r.At(i), c) && EntryOk(r.UpTo(i), r.At(i), id, r.At(i).entries[id]);
    BegunStays(r.UpTo(i), r, id, i);
  }

  /** A lock that is set is held: some call of that very challenge is at work on it. */
  ghost predicate LocksAreHeld(s: State) {
    && (forall id :: id in s.entries && s.entries[id].busy ==> EntryIsHeld(s, id))
    && forall id :: id in s.sessions && s.sessions[id].busy ==> SessionIsHeld(s, id)
  }

  ghost predicate EntryIsHeld(s: State, id: string) {
    exists c :: 0 <= c < |s.calls| && s.calls[c].id == id && s.calls[c].phase.OnEntry()
  }

  ghost predicate SessionIsHeld(s: State, id: string) {
    exists c :: 0 <= c < |s.calls| && s.calls[c].id == id && s.calls[c].phase.OnSession()
  }

  /** Call c of challenge `id` moves, and nothing else but that challenge's locks. */
  ghost predicate MovesOn(s: State, s': State, id: string, c: nat) {
    && c < |s'.calls| && SameCallsBut(s, s', c) && s'.calls[c].id == id && (c < |s.calls| ==> s.calls[c].id == id)
    && (forall i :: i in s'.entries && i != id ==> i in s.entries && s'.entries[i].busy == s.entries[i].busy)
    && (forall i :: i in s'.sessions && i != id ==> i in s.sessions && s'.sessions[i].busy == s.sessions[i].busy)
  }

  /** The call works on the entry, which is busy afterwards only if it still does; the sessions' locks stay. */
  lemma HeldOnEntry(s: State, s': State, id: string, c: nat)
    requires LocksAreHeld(s) && MovesOn(s, s', id, c) && !s'.calls[c].phase.OnSession()
    requires c < |s.calls| ==> s.calls[c].phase.OnEntry()
    requires id in s'.entries && s'.entries[id].busy ==> s'.calls[c].phase.OnEntry()
    requires id in s'.sessions ==> id in s.sessions && s'.sessions[id].busy == s.sessions[id].busy
    ensures LocksAreHeld(s')
  {
    forall i | i in s'.entries && s'.entries[i].busy
      ensures EntryIsHeld(s', i)
    {
      if i == id {
        assert s'.calls[c].id == i;
      } else {
        var d :| 0 <= d < |s.calls| && s.calls[d].id == i && s.calls[d].phase.OnEntry();
        assert s'.calls[d] == s.calls[d];
      }
    }
    forall i | i in s'.sessions && s'.sessions[i].busy
      ensures SessionIsHeld(s', i)
    {
      var d :| 0 <= d < |s.calls| && s.calls[d].id == i && s.calls[d].phase.OnSession();
      assert s'.calls[d] == s.calls[d];
    }
  }

  lemma HeldOnSession(s: State, s': State, id: string, c: nat)
    requires LocksAreHeld(s) && MovesOn(s, s', id, c) && !s'.calls[c].phase.OnEntry()
    requires c < |s.calls| ==> s.calls[c].phase.OnSession()
    requires id in s'.sessions && s'.sessions[id].busy ==> s'.calls[c].phase.OnSession()
    requires id in s'.entries ==> id in s.entries && s'.entries[id].busy == s.entries[id].busy
    ensures LocksAreHeld(s')
  {
    forall i | i in s'.sessions && s'.sessions[i].busy
      ensures SessionIsHeld(s', i)
    {
      if i == id {
        assert s'.calls[c].id == i;
      } else {
        var d :| 0 <= d < |s.calls| && s.calls[d].id == i && s.calls[d].phase.OnSession();
        assert s'.calls[d] == s.calls[d];
      }
    }
    forall i | i in s'.entries && s'.entries[i].busy
      ensures EntryIsHeld(s', i)
    {
      var d :| 0 <= d < |s.calls| && s.calls[d].id == i && s.calls[d].phase.OnEntry();
      assert s'.calls[d] == s.calls[d];
    }
  }

  lemma HeldByCalls(s: State, id: string)
    requires LocksAreHeld(s)
    ensures LocksAreHeld(BeginsCall(s, id)) && LocksAreHeld(AuthorizesCall(s, id))
    ensures forall payload :: LocksAreHeld(ReceivesCall(s, id, payload))
  {
    hide LocksAreHeld;
    if BeginsCall(s, id) != s {
      HeldOnEntry(s, BeginsCall(s, id), id, |s.calls|);
    }
    forall payload | ReceivesCall(s, id, payload) != s
      ensures LocksAreHeld(ReceivesCall(s, id, payload))
    {
      HeldOnEntry(s, ReceivesCall(s, id, payload), id, |s.calls|);
    }
    if AuthorizesCall(s, id) != s {
      HeldOnSession(s, AuthorizesCall(s, id), id, |s.calls|);
    }
  }

  lemma HeldWhenBegun(s: State, c: nat, ok: bool)
    requires LocksAreHeld(s) && c < |s.calls| && s.calls[c].phase.BeginControl?
    ensures LocksAreHeld(BeginsControlled(s, c, ok))
  {
    hide LocksAreHeld;
    HeldOnEntry(s, BeginsControlled(s, c, ok), s.calls[c].id, c);
  }

  lemma HeldWhenReceived(cfg: Config, s: State, c: nat, ok: bool, payload: Payload)
    requires LocksAreHeld(s) && c < |s.calls| && s.calls[c].phase == ReceiveControl(payload)
    ensures LocksAreHeld(ReceivesControlled(cfg, s, c, ok, payload))
  {
    hide LocksAreHeld, PayloadOk;
    HeldOnEntry(s, ReceivesControlled(cfg, s, c, ok, payload), s.calls[c].id, c);
  }

  lemma HeldWhenControlled(s: State, c: nat, ok: bool)
    requires LocksAreHeld(s) && c < |s.calls| && s.calls[c].phase.AuthControl?
    ensures LocksAreHeld(AuthControls(s, c, ok))
  {
    hide LocksAreHeld;
    HeldOnSession(s, AuthControls(s, c, ok), s.calls[c].id, c);
  }

  lemma HeldWhenVerified(cfg: Config, s: State, c: nat, payload: Payload, result: Option<VerifyResult>)
    requires LocksAreHeld(s) && c < |s.calls| && s.calls[c].phase == ReceiveVerify(payload)
    ensures LocksAreHeld(ReceivesVerified(cfg, s, c, payload, result))
  {
    hide LocksAreHeld, AcceptedNullifier;
    VerifiedMoves(cfg, s, c, payload, result);
    HeldOnEntry(s, ReceivesVerified(cfg, s, c, payload, result), s.calls[c].id, c);
  }

  lemma HeldWhenPrepared(cfg: Config, s: State, c: nat, claims: Option<Claims>)
    requires LocksAreHeld(s) && c < |s.calls| && s.calls[c].phase == AuthClaims(claims)
    ensures LocksAreHeld(AuthPrepares(cfg, s, c, claims))
  {
    hide LocksAreHeld, AllDecimal, ValueOf, DecimalString;
    HeldOnSession(s, AuthPrepares(cfg, s, c, claims), s.calls[c].id, c);
  }

  lemma HeldWhenSigned(s: State, c: nat, authorization: Authorization, signature: Option<string>)
    requires LocksAreHeld(s) && c < |s.calls| && s.calls[c].phase == AuthSign(authorization)
    ensures LocksAreHeld(AuthIssues(s, c, authorization, signature))
  {
    hide LocksAreHeld;
    HeldOnSession(s, AuthIssues(s, c, authorization, signature), s.calls[c].id, c);
  }

  lemma HeldByCreate(cfg: Config, s: State, account: string, id: string)
    requires LocksAreHeld(s)
    ensures LocksAreHeld(Creates(cfg, s, account, id))
  {
    hide FreshEntries, FreshSessions;
    var s' := Creates(cfg, s, account, id);
    CreatesCallsNothing(cfg, s, account, id);
    forall i | i in s'.entries && s'.entries[i].busy
      ensures EntryIsHeld(s', i)
    {
      assert EntryIsHeld(s, i);
    }
    forall i | i in s'.sessions && s'.sessions[i].busy
      ensures SessionIsHeld(s', i)
    {
      assert SessionIsHeld(s, i);
    }
  }

  lemma NextHoldsLocks(cfg: Config, s: State, e: Event)
    requires LocksAreHeld(s)
    ensures LocksAreHeld(Next(cfg, s, e))
  {
    hide LocksAreHeld, Creates, BeginsControlled, ReceivesControlled, ReceivesVerified, AuthControls, AuthPrepares, AuthIssues;
    hide BeginsCall, ReceivesCall, AuthorizesCall;
    match e
    case Tick(seconds) => HeldAnyTime(s, seconds);
    case Create(account, id) => HeldByCreate(cfg, s, account, id);
    case BeginCalled(id) => HeldByCalls(s, id);
    case ReceiveCalled(id, payload) => HeldByCalls(s, id);
    case AuthorizeCalled(id) => HeldByCalls(s, id);
    case BeginControlled(c, ok) =>
      if c < |s.calls| && s.calls[c].phase.BeginControl? {
        HeldWhenBegun(s, c, ok);
      }
    case ReceiveControlled(c, ok) =>
      if c < |s.calls| && s.calls[c].phase.ReceiveControl? {
        HeldWhenReceived(cfg, s, c, ok, s.calls[c].phase.payload);
      }
    case AuthControlled(c, ok) =>
      if c < |s.calls| && s.calls[c].phase.AuthControl? {
        HeldWhenControlled(s, c, ok);
      }
    case ReceiveVerified(c, result) =>
      if c < |s.calls| && s.calls[c].phase.ReceiveVerify? {
        HeldWhenVerified(cfg, s, c, s.calls[c].phase.payload, result);
      }
    case AuthClaimed(c) =>
      if c < |s.calls| && s.calls[c].phase.AuthClaims? {
        HeldWhenPrepared(cfg, s, c, s.calls[c].phase.claims);
      }
    case AuthSigned(c, signature) =>
      if c < |s.calls| && s.calls[c].phase.AuthSign? {
        HeldWhenSigned(s, c, s.calls[c].phase.authorization, signature);
      }
  }

  lemma HeldAnyTime(s: State, seconds: nat)
    requires LocksAreHeld(s)
    ensures LocksAreHeld(s.(now := s.now + seconds))
  {
    var s' := s.(now := s.now + seconds);
    assert forall id :: EntryIsHeld(s, id) ==> EntryIsHeld(s', id);
    assert forall id :: SessionIsHeld(s, id) ==> SessionIsHeld(s', id);
  }

  /** In every interleaving no lock stays set once the calls on it are over: the next call is never refused for nothing. */
  lemma {:induction false} BusyMeansHeld(r: Run, i: nat)
    requires i <= r.Len()
    ensures LocksAreHeld(r.At(i))
  {
    hide Next;
    if i > 0 {
      StepIsNext(r, i - 1);
      BusyMeansHeld(r, i - 1);
      NextHoldsLocks(r.cfg, r.At(i - 1), r.events[i - 1]);
    }
  }

  /** A payload for the canonical query whose call passes its account check. */
  lemma ControlledNow(r: Run, c: nat) returns (p: Proof)
    requires c < |r.End().calls| && r.End().calls[c].phase.ReceiveControl? && PayloadOk(r.cfg, r.End().calls[c].phase.payload)
    ensures ControlledAt(r.Then(ReceiveControlled(c, true)), p, r.End().calls[c].id)
    ensures p.controlled == r.Len() && p.call == c
  {
    hide After, Inv, SubmittedAt;
    var e := ReceiveControlled(c, true);
    var Call(id, phase) := r.End().calls[c];
    RunKeepsInv(r);
    PhaseWasOk(r, e, c);
    JustThen(r, e);
    var q: Proof :| SubmittedAt(r.Then(e), q, id) && q.submitted < r.Len() && q.call == c && q.payload == phase.payload;
    p := q.(controlled := r.Len());
    SameSubmission(r.Then(e), p, q, id);
    CanonicalIffSameTree(r.cfg, phase.payload);
  }

  /** Recorded nullifiers pass the check of the grant flow. */
  lemma ClaimsAreNumbers(r: Run, s: State, id: string, claims: Claims, before: nat)
    requires ClaimsOk(r, s, id, claims, before)
    ensures AllDecimal(claims.nullifier) && 0 < ValueOf(claims.nullifier, 10) < TWO_TO_256
  {
    hide After, ControlledAt, DecimalString, ValueOf;
    var p: Proof :| AcceptedProof(r, p, id) && p.verified < before && claims.nullifier == DecimalString(Number(p));
    DecimalRoundTrip(Number(p));
  }

  /** A first proof that meets the policy is accepted, in the call that handed it in and checked the account. */
  lemma AcceptedNow(r: Run, c: nat, result: VerifyResult) returns (p: Proof)
    requires c < |r.End().calls| && r.End().calls[c].phase.ReceiveVerify?
    requires HasEntry(r.End(), r.End().calls[c].id) && r.End().entries[r.End().calls[c].id].claims.None?
    requires MeetsPolicy(r.cfg, r.End().calls[c].phase.payload, result)
    ensures AcceptedProof(r.Then(ReceiveVerified(c, Some(result))), p, r.End().calls[c].id)
    ensures p.verified == r.Len() && p.call == c && p.result == result
  {
    hide After, Inv, MeetsPolicy, ControlledAt;
    var e := ReceiveVerified(c, Some(result));
    var Call(id, phase) := r.End().calls[c];
    RunKeepsInv(r);
    PhaseWasOk(r, e, c);
    JustThen(r, e);
    var q: Proof :| ControlledAt(r.Then(e), q, id) && q.controlled < r.Len() && q.call == c && q.payload == phase.payload;
    p := q.(verified := r.Len(), result := result);
    SameControl(r.Then(e), p, q, id);
  }

  // ----- when a grant was dated and signed

  /** The call that signed a grant, and the places of its account check, of the reading of the clock and of the signature. */
  datatype Signing = Signing(call: nat, controlled: nat, dated: nat, signed: nat)

  /** The grant is dated by the clock as it stood between the account check of the signing call and the signature. */
  ghost predicate SignedAt(r: Run, x: Signing, g: Grant) {
    && x.controlled < x.dated < x.signed < r.Len() && AuthControlledAt(r, x.controlled, x.call, g.id)
    && r.events[x.dated] == AuthClaimed(x.call) && g.signed.authorization.issuedAt == r.At(x.dated).now
    && r.events[x.signed] == AuthSigned(x.call, Some(g.signed.signature))
    && Waits(r, x.signed, x.call, Call(g.id, AuthSign(g.signed.authorization)))
  }

  /** How a step can leave call c: as it was, just made, over, or one wait further. */
  ghost predicate CallMoves(s: State, s': State, e: Event, c: nat)
    requires c < |s'.calls|
  {
    var after := s'.calls[c].phase;
    if c >= |s.calls| then after.BeginControl? || after.ReceiveControl? || after.AuthControl?
    else
      && s'.calls[c].id == s.calls[c].id
      && (after.AuthClaims? ==> after == s.calls[c].phase || (e == AuthControlled(c, true) && s.calls[c].phase.AuthControl?))
      && (after.AuthSign? ==> || after == s.calls[c].phase
                              || (e == AuthClaimed(c) && s.calls[c].phase.AuthClaims? && after.authorization.issuedAt == s.now))
  }

  lemma CreatesCallsNothing(cfg: Config, s: State, account: string, id: string)
    ensures Creates(cfg, s, account, id).calls == s.calls
  {
    hide FreshEntries, FreshSessions;
  }

  /** Only call c is in another phase. */
  ghost predicate OneMoves(s: State, s': State, c: nat, phase: Phase)
    requires c < |s.calls|
  {
    s'.calls == s.calls[c := s.calls[c].(phase := phase)]
  }

  lemma BeginMoves(s: State, c: nat, ok: bool)
    requires c < |s.calls|
    ensures OneMoves(s, BeginsControlled(s, c, ok), c, Over)
  {
  }

  lemma ReceiveMoves(cfg: Config, s: State, c: nat, ok: bool, payload: Payload)
    requires c < |s.calls|
    ensures OneMoves(s, ReceivesControlled(cfg, s, c, ok, payload), c, Over)
         || OneMoves(s, ReceivesControlled(cfg, s, c, ok, payload), c, ReceiveVerify(payload))
  {
    hide PayloadOk;
  }

  lemma VerifiedMoves(cfg: Config, s: State, c: nat, payload: Payload, result: Option<VerifyResult>)
    requires c < |s.calls|
    ensures OneMoves(s, ReceivesVerified(cfg, s, c, payload, result), c, Over)
  {
    hide AcceptedNullifier;
  }

  lemma ControlMoves(s: State, c: nat, ok: bool)
    requires c < |s.calls|
    ensures var s' := AuthControls(s, c, ok);
            || OneMoves(s, s', c, Over)
            || (ok && OneMoves(s, s', c, AuthClaims(if HasEntry(s, s.calls[c].id) then s.entries[s.calls[c].id].claims else None)))
  {
  }

  lemma PreparesMoves(cfg: Config, s: State, c: nat, claims: Option<Claims>)
    requires c < |s.calls|
    ensures var s' := AuthPrepares(cfg, s, c, claims);
            || OneMoves(s, s', c, Over)
            || (OneMoves(s, s', c, s'.calls[c].phase) && s'.calls[c].phase.AuthSign? && s'.calls[c].phase.authorization.issuedAt == s.now)
  {
    hide AllDecimal, ValueOf, DecimalString;
  }

  lemma IssuesMove(s: State, c: nat, authorization: Authorization, signature: Option<string>)
    requires c < |s.calls|
    ensures OneMoves(s, AuthIssues(s, c, authorization, signature), c, Over)
  {
  }

  lemma CallsMove(cfg: Config, s: State, e: Event, c: nat)
    requires c < |Next(cfg, s, e).calls|
    ensures CallMoves(s, Next(cfg, s, e), e, c)
  {
    hide Creates, BeginsControlled, ReceivesControlled, ReceivesVerified, AuthControls, AuthPrepares, AuthIssues;
    match e
    case Create(account, id) => CreatesCallsNothing(cfg, s, account, id);
    case BeginControlled(d, ok) =>
      if d < |s.calls| && s.calls[d].phase.BeginControl? {
        BeginMoves(s, d, ok);
      }
    case ReceiveControlled(d, ok) =>
      if d < |s.calls| && s.calls[d].phase.ReceiveControl? {
        ReceiveMoves(cfg, s, d, ok, s.calls[d].phase.payload);
      }
    case ReceiveVerified(d, result) =>
      if d < |s.calls| && s.calls[d].phase.ReceiveVerify? {
        VerifiedMoves(cfg, s, d, s.calls[d].phase.payload, result);
      }
    case AuthControlled(d, ok) =>
      if d < |s.calls| && s.calls[d].phase.AuthControl? {
        ControlMoves(s, d, ok);
      }
    case AuthClaimed(d) =>
      if d < |s.calls| && s.calls[d].phase.AuthClaims? {
        PreparesMoves(cfg, s, d, s.calls[d].phase.claims);
      }
    case AuthSigned(d, signature) =>
      if d < |s.calls| && s.calls[d].phase.AuthSign? {
        IssuesMove(s, d, s.calls[d].phase.authorization, signature);
      }
    case _ =>
  }

  lemma IssuedBySigning(cfg: Config, s: State, e: Event, id: string, x: Signed)
    requires id in Next(cfg, s, e).sessions && Next(cfg, s, e).sessions[id].issued == Some(x)
    ensures || (id in s.sessions && s.sessions[id].issued == Some(x))
            || (e.AuthSigned? && e.signature == Some(x.signature) && e.call < |s.calls|
                && s.calls[e.call] == Call(id, AuthSign(x.authorization)))
  {
    hide Creates, BeginsControlled, ReceivesControlled, ReceivesVerified, AuthControls, AuthPrepares, AuthIssues;
    match e
    case Create(account, other) =>
      CreatesIssuesNothing(cfg, s, account, other, id);
    case BeginControlled(c, ok) =>
      if c < |s.calls| {
        EntryPiecesIssueNothing(cfg, s, c, ok, None);
      }
    case ReceiveControlled(c, ok) =>
      if c < |s.calls| {
        EntryPiecesIssueNothing(cfg, s, c, ok, None);
      }
    case ReceiveVerified(c, result) =>
      if c < |s.calls| {
        EntryPiecesIssueNothing(cfg, s, c, true, result);
      }
    case AuthControlled(c, ok) =>
      if c < |s.calls| {
        SessionPiecesIssueNothing(cfg, s, c, ok);
      }
    case AuthClaimed(c) =>
      if c < |s.calls| {
        SessionPiecesIssueNothing(cfg, s, c, true);
      }
    case AuthSigned(c, signature) =>
      if c < |s.calls| && s.calls[c].phase.AuthSign? {
        SigningIssues(s, c, s.calls[c].phase.authorization, signature, id, x);
      }
    case _ =>
  }

  /** Every session is there already, with the same grant. */
  ghost predicate IssuesNothing(s: State, s': State) {
    forall id :: id in s'.sessions ==> id in s.sessions && s'.sessions[id].issued == s.sessions[id].issued
  }

  lemma EntryPiecesIssueNothing(cfg: Config, s: State, c: nat, ok: bool, result: Option<VerifyResult>)
    requires c < |s.calls|
    ensures IssuesNothing(s, BeginsControlled(s, c, ok))
    ensures s.calls[c].phase.ReceiveControl? ==> IssuesNothing(s, ReceivesControlled(cfg, s, c, ok, s.calls[c].phase.payload))
    ensures s.calls[c].phase.ReceiveVerify? ==> IssuesNothing(s, ReceivesVerified(cfg, s, c, s.calls[c].phase.payload, result))
  {
    hide PayloadOk, AcceptedNullifier, Recorded;
    RecordsInPlace(s, c);
  }

  lemma SessionPiecesIssueNothing(cfg: Config, s: State, c: nat, ok: bool)
    requires c < |s.calls|
    ensures s.calls[c].phase.AuthControl? ==> IssuesNothing(s, AuthControls(s, c, ok))
    ensures s.calls[c].phase.AuthClaims? ==> IssuesNothing(s, AuthPrepares(cfg, s, c, s.calls[c].phase.claims))
  {
    hide AllDecimal, ValueOf, DecimalString;
  }

  lemma SigningIssues(s: State, c: nat, a: Authorization, signature: Option<string>, id: string, x: Signed)
    requires c < |s.calls| && id in AuthIssues(s, c, a, signature).sessions
    requires AuthIssues(s, c, a, signature).sessions[id].issued == Some(x)
    ensures || (id in s.sessions && s.sessions[id].issued == Some(x))
            || (signature == Some(x.signature) && a == x.authorization && s.calls[c].id == id)
  {
  }

  lemma CreatesIssuesNothing(cfg: Config, s: State, account: string, other: string, id: string)
    requires id in Creates(cfg, s, account, other).sessions && Creates(cfg, s, account, other).sessions[id].issued.Some?
    ensures id in s.sessions && s.sessions[id] == Creates(cfg, s, account, other).sessions[id]
  {
    hide FreshEntries, FreshSessions;
  }

  /** Where a call that waits for its signature read the clock. */
  lemma {:induction false} WasDated(r: Run, i: nat, c: nat, id: string, a: Authorization) returns (d: nat)
    requires i <= r.Len() && Waits(r, i, c, Call(id, AuthSign(a)))
    ensures d < i && r.events[d] == AuthClaimed(c) && a.issuedAt == r.At(d).now
    ensures c < |r.At(d).calls| && r.At(d).calls[c].id == id && r.At(d).calls[c].phase.AuthClaims?
  {
    hide Next;
    if i == 0 {
      assert false;
    } else {
      StepIsNext(r, i - 1);
      CallsMove(r.cfg, r.At(i - 1), r.events[i - 1], c);
      if r.At(i - 1).calls[c].phase == AuthSign(a) {
        d := WasDated(r, i - 1, c, id, a);
      } else {
        d := i - 1;
      }
    }
  }

  /** Where a call that waits for its claims passed its account check. */
  lemma {:induction false} WasControlled(r: Run, i: nat, c: nat, id: string, claims: Option<Claims>) returns (k: nat)
    requires i <= r.Len() && Waits(r, i, c, Call(id, AuthClaims(claims)))
    ensures k < i && AuthControlledAt(r, k, c, id)
  {
    hide Next;
    if i == 0 {
      assert false;
    } else {
      StepIsNext(r, i - 1);
      CallsMove(r.cfg, r.At(i - 1), r.events[i - 1], c);
      if r.At(i - 1).calls[c].phase == AuthClaims(claims) {
        k := WasControlled(r, i - 1, c, id, claims);
      } else {
        k := i - 1;
      }
    }
  }

  /** Where an issued grant was signed. */
  lemma {:induction false} WasSigned(r: Run, i: nat, id: string, x: Signed) returns (j: nat, c: nat)
    requires i <= r.Len() && id in r.At(i).sessions && r.At(i).sessions[id].issued == Some(x)
    ensures j < i && r.events[j] == AuthSigned(c, Some(x.signature)) && Waits(r, j, c, Call(id, AuthSign(x.authorization)))
  {
    hide Next;
    if i == 0 {
      assert false;
    } else {
      StepIsNext(r, i - 1);
      IssuedBySigning(r.cfg, r.At(i - 1), r.events[i - 1], id, x);
      if id in r.At(i - 1).sessions && r.At(i - 1).sessions[id].issued == Some(x) {
        j, c := WasSigned(r, i - 1, id, x);
      } else {
        j, c := i - 1, r.events[i - 1].call;
      }
    }
  }

  /** Every grant handed out was signed then or before, dated before that, and controlled before that, all in one call. */
  lemma GrantWasSigned(r: Run, k: nat) returns (x: Signing)
    requires k < r.Len() && r.GrantAt(k).Some?
    ensures SignedAt(r, x, r.GrantAt(k).value) && x.signed <= k
  {
    hide After, Next;
    var g := r.GrantAt(k).value;
    var j, c := k, g.call;
    if r.events[k].AuthControlled? {
      j, c := WasSigned(r, k, g.id, g.signed);
    }
    var d := WasDated(r, j, c, g.id, g.signed.authorization);
    var control := WasControlled(r, d, c, g.id, r.At(d).calls[c].phase.claims);
    x := Signing(c, control, d, j);
  }

  /**
   What earns the grant that event k hands out: proof p, then the account check `control` in the call that gets the grant,
   and the signing that dated it.
   */
  ghost predicate Earned(r: Run, k: nat, g: Grant, p: Proof, control: nat, x: Signing) {
    && k < r.Len() && AcceptedProof(r, p, g.id) && p.verified < control <= k && AuthControlledAt(r, control, g.call, g.id)
    && g.id in r.At(k).created && r.At(k).now < r.At(k).created[g.id].expiresAt
    && AuthorizationOf(r.cfg, r.At(k).created[g.id], p, g.signed.authorization)
    && SignedAt(r, x, g) && x.signed <= k
  }

  /** A grant handed out is backed by a proof from before the account check of the call that gets it. */
  lemma GrantIsBacked(r: Run, k: nat) returns (control: nat)
    requires k < r.Len() && r.GrantAt(k).Some?
    ensures var g := r.GrantAt(k).value;
            && control <= k && AuthControlledAt(r, control, g.call, g.id) && Grows(r.UpTo(k), r.At(k), r, r.At(k))
            && g.id in r.At(k).created && r.At(k).now < r.At(k).created[g.id].expiresAt
            && Backed(r.UpTo(k), r.At(k), g.id, g.signed.authorization, control)
  {
    hide ControlledAt, AuthorizationOf, EntryOk, MeetsPolicy, HasEntry, LockOk, Exclusive, After, Next, AcceptedProof;
    var s, g, before := r.At(k), r.GrantAt(k).value, r.UpTo(k);
    AlwaysInv(r, k);
    IsCreated(before, s, g.id);
    assert CallOk(before, s, g.call) && SessionOk(before, s, g.id, s.sessions[g.id]);
    if r.events[k].AuthControlled? {
      assert s.calls[g.call] == Call(g.id, AuthControl);
      control := k;
    } else {
      control :| AuthControlledAt(before, control, g.call, g.id) && Backed(before, s, g.id, g.signed.authorization, control);
      AuthControlStays(before, r, control, g.call, g.id);
    }
  }

  /**
   Behind every grant handed out there are, in this order: a begin with its account check; a payload handed in after it,
   for the canonical query; the account check of that very call; the verification of that very payload, which was positive
   and met the configured policy; and the account check of the call that gets the grant. All of it happens before the
   challenge expires. The grant names the challenge's account, the tag of the number proved, and the configured lifetime from
   the clock as it stood between the account check of the call that signed it and its signature.
   */
  lemma GrantsAreEarned(r: Run, k: nat) returns (p: Proof, control: nat, x: Signing)
    requires k < r.Len() && r.GrantAt(k).Some?
    ensures Earned(r, k, r.GrantAt(k).value, p, control, x)
  {
    hide SignedAt, AuthorizationOf, ControlledAt, MeetsPolicy, HasEntry, AuthControlledAt, Grows, After, Next;
    var s, g := r.At(k), r.GrantAt(k).value;
    control := GrantIsBacked(r, k);
    x := GrantWasSigned(r, k);
    BackedStays(r.UpTo(k), s, r, s, g.id, g.signed.authorization, control, control);
    p :| AcceptedProof(r, p, g.id) && p.verified < control && AuthorizationOf(r.cfg, s.created[g.id], p, g.signed.authorization);
  }

  // ----- one authorization for a challenge

  /** A session that has issued its grant keeps it. */
  lemma IssuedStays(r: Run, s: State, e: Event, id: string)
    requires Inv(r, s) && id in s.sessions && s.sessions[id].issued.Some? && id in Next(r.cfg, s, e).sessions
    ensures Next(r.cfg, s, e).sessions[id].issued == s.sessions[id].issued
  {
    hide After, EntryOk, SessionOk, PhaseOk, AcceptedNullifier, PayloadOk, DecimalString, ValueOf, AllDecimal, FreshEntries, FreshSessions;
    IsCreated(r, s, id);
    forall c | 0 <= c < |s.calls| && s.calls[c].phase.AuthSign?
      ensures s.calls[c].id != id
    {
      assert CallOk(r, s, c);
    }
  }

  lemma CreatedStays(cfg: Config, s: State, e: Event, id: string)
    requires id in s.created
    ensures id in Next(cfg, s, e).created && Next(cfg, s, e).created[id] == s.created[id]
    ensures id !in s.entries ==> id !in Next(cfg, s, e).entries
    ensures id !in s.sessions ==> id !in Next(cfg, s, e).sessions
  {
    hide AcceptedNullifier, PayloadOk, DecimalString, ValueOf, AllDecimal, Creates, Recorded;
    if e.Create? {
      CreatesAnother(cfg, s, e.account, e.id, id);
    } else if e.ReceiveVerified? && e.call < |s.calls| {
      RecordsInPlace(s, e.call);
    }
  }

  lemma CreatesAnother(cfg: Config, s: State, account: string, other: string, id: string)
    requires id in s.created
    ensures var s' := Creates(cfg, s, account, other);
            && id in s'.created && s'.created[id] == s.created[id]
            && (id !in s.entries ==> id !in s'.entries) && (id !in s.sessions ==> id !in s'.sessions)
  {
    hide FreshEntries, FreshSessions;
  }

  lemma RecordsInPlace(s: State, c: nat)
    requires c < |s.calls|
    ensures HasEntry(s, s.calls[c].id) ==> forall nullifier ::
              var s' := Recorded(s, c, nullifier);
              s'.now == s.now && s'.created == s.created && s'.sessions == s.sessions && s'.entries.Keys == s.entries.Keys
  {
  }

  /** Once a grant is out, the session holds it as long as it lives. */
  ghost predicate StillIssued(s: State, g: Grant) {
    g.id in s.created && (g.id in s.sessions ==> s.sessions[g.id].issued == Some(g.signed))
  }

  lemma HandedOutIsIssued(r: Run, k: nat)
    requires k < r.Len() && r.GrantAt(k).Some?
    ensures StillIssued(r.At(k + 1), r.GrantAt(k).value)
  {
    hide After, EntryOk, SessionOk, PhaseOk;
    var s := r.At(k);
    AlwaysInv(r, k);
    IsCreated(r.UpTo(k), s, r.GrantAt(k).value.id);
    StepIsNext(r, k);
  }

  lemma {:induction false} StaysIssued(r: Run, k: nat, i: nat)
    requires k < i <= r.Len() && r.GrantAt(k).Some?
    ensures StillIssued(r.At(i), r.GrantAt(k).value)
  {
    hide Inv, Returns, After, Next;
    var g := r.GrantAt(k).value;
    if i == k + 1 {
      HandedOutIsIssued(r, k);
    } else {
      StaysIssued(r, k, i - 1);
      StepIsNext(r, i - 1);
      AlwaysInv(r, i - 1);
      var s, e := r.At(i - 1), r.events[i - 1];
      CreatedStays(r.cfg, s, e, g.id);
      if g.id in s.sessions && g.id in r.At(i).sessions {
        IssuedStays(r.UpTo(i - 1), s, e, g.id);
      }
    }
  }

  /** A challenge yields one authorization value, however often and however interleaved it is asked for. */
  lemma OneAuthorizationPerChallenge(r: Run, j: nat, k: nat)
    requires j < k < r.Len() && r.GrantAt(j).Some? && r.GrantAt(k).Some? && r.GrantAt(j).value.id == r.GrantAt(k).value.id
    ensures r.GrantAt(j).value.signed == r.GrantAt(k).value.signed
  {
    hide After, EntryOk, SessionOk, PhaseOk;
    StaysIssued(r, j, k);
    AlwaysInv(r, k);
    assert CallOk(r.UpTo(k), r.At(k), r.GrantAt(k).value.call);
  }

  /** The lifetime the environment can set never exceeds the policy's cap. */
  lemma GrantsAreShort(r: Run, raw: Option<string>, k: nat)
    requires ResolveGrantLifetimeSeconds(raw) == Success(r.cfg.grantLifetimeSeconds)
    requires k < r.Len() && r.GrantAt(k).Some?
    ensures var a := r.GrantAt(k).value.signed.authorization;
            a.issuedAt < a.expiresAt <= a.issuedAt + MAX_GRANT_LIFETIME_SECONDS
  {
    hide After;
    var p, control, signing := GrantsAreEarned(r, k);
  }

  // ----- a grant is still good when it is handed out

  lemma ExpiryStep(cfg: Config, s: State, e: Event, id: string)
    requires id in Next(cfg, s, e).created && (id in s.created ==> s.created[id].expiresAt <= s.now + 300)
    ensures Next(cfg, s, e).created[id].expiresAt <= Next(cfg, s, e).now + 300
  {
    hide AcceptedNullifier, PayloadOk, DecimalString, ValueOf, AllDecimal, Creates, Recorded;
    if e.ReceiveVerified? && e.call < |s.calls| {
      RecordsInPlace(s, e.call);
    } else if e.Create? {
      CreatesShort(cfg, s, e.account, e.id, id);
    }
  }

  lemma CreatesShort(cfg: Config, s: State, account: string, other: string, id: string)
    requires id in Creates(cfg, s, account, other).created && (id in s.created ==> s.created[id].expiresAt <= s.now + 300)
    ensures Creates(cfg, s, account, other).created[id].expiresAt <= s.now + 300 && Creates(cfg, s, account, other).now == s.now
  {
    hide FreshEntries, FreshSessions;
  }

  /** No challenge is ever more than 300 seconds from its end. */
  lemma {:induction false} ChallengesAreShort(r: Run, i: nat, id: string)
    requires i <= r.Len() && id in r.At(i).created
    ensures r.At(i).created[id].expiresAt <= r.At(i).now + 300
  {
    hide Next;
    if i == 0 {
      assert false;
    } else {
      StepIsNext(r, i - 1);
      if id in r.At(i - 1).created {
        ChallengesAreShort(r, i - 1, id);
      }
      ExpiryStep(r.cfg, r.At(i - 1), r.events[i - 1], id);
    }
  }

  lemma {:induction false} ChallengeStays(r: Run, i: nat, j: nat, id: string)
    requires i <= j <= r.Len() && id in r.At(i).created
    ensures id in r.At(j).created && r.At(j).created[id] == r.At(i).created[id]
    decreases j
  {
    hide After, Next;
    if i < j {
      ChallengeStays(r, i, j - 1, id);
      StepIsNext(r, j - 1);
      CreatedStays(r.cfg, r.At(j - 1), r.events[j - 1], id);
    }
  }

  /** With a lifetime of at least 300 seconds no grant is ever handed out expired, however long its call waited. */
  lemma GrantsAreHandedOutInTime(r: Run, k: nat)
    requires k < r.Len() && r.GrantAt(k).Some? && r.cfg.grantLifetimeSeconds >= 300
    ensures r.GrantAt(k).value.signed.authorization.expiresAt > r.At(k).now
  {
    hide After, AcceptedProof, SignedAt, AuthControlledAt;
    var p, control, x := GrantsAreEarned(r, k);
    var id := r.GrantAt(k).value.id;
    DatedInTime(r, x, r.GrantAt(k).value);
    ChallengesAreShort(r, x.dated, id);
    ChallengeStays(r, x.dated, k, id);
  }

  lemma DatedInTime(r: Run, x: Signing, g: Grant)
    requires SignedAt(r, x, g)
    ensures x.dated < x.signed < r.Len() && g.id in r.At(x.dated).created && g.signed.authorization.issuedAt == r.At(x.dated).now
  {
    hide After;
    var id := g.id;
    AlwaysInv(r, x.controlled);
    IsCreated(r.UpTo(x.controlled), r.At(x.controlled), id);
    ChallengeStays(r, x.controlled, x.dated, id);
  }

  /** The clock, the challenge's entry and session, and the calls. */
  ghost predicate Stands(s: State, now: int, id: string, entry: Entry, session: GrantSession, calls: seq<Call>) {
    && s.now == now && id in s.entries && s.entries[id] == entry && id in s.sessions && s.sessions[id] == session
    && s.calls == calls && entry.challenge == session.challenge && entry.challenge.expiresAt == session.challenge.expiresAt > now
  }

  /** The step from the end of a run. */
  lemma Onward(r: Run, e: Event, s: State)
    requires r.End() == s
    ensures r.Then(e).End() == Next(r.cfg, s, e) && r.Then(e).Len() == r.Len() + 1
    ensures r.Then(e).At(r.Len()) == s && r.Then(e).events[r.Len()] == e
  {
    hide After, Next;
    ThenIsNext(r, e);
  }

  lemma CreateStands(cfg: Config, start: int, account: string, normalized: string, id: string) returns (c: Challenge)
    requires cfg.accountAddress(account) == Some(normalized)
    ensures c.account == normalized && c.id == id && c.expiresAt == start + 300
    ensures Stands(Next(cfg, Start(start), Create(account, id)), start, id, Entry(c, false, false, None), GrantSession(c, false, None), [])
  {
    c := Challenge(id, normalized, cfg.context(normalized, id, start + 300), start + 300);
  }

  lemma BeginStands(cfg: Config, s: State, now: int, id: string, c: Challenge, x: GrantSession)
    requires Stands(s, now, id, Entry(c, false, false, None), x, [])
    ensures var s1 := Next(cfg, s, BeginCalled(id));
            Stands(Next(cfg, s1, BeginControlled(0, true)), now, id, Entry(c, false, true, None), x, [Call(id, Over)])
  {
    var s1 := Next(cfg, s, BeginCalled(id));
    assert Stands(s1, now, id, Entry(c, true, false, None), x, [Call(id, BeginControl)]);
  }

  lemma ReceiveStands(cfg: Config, s: State, now: int, id: string, c: Challenge, x: GrantSession, payload: Payload)
    requires Stands(s, now, id, Entry(c, false, true, None), x, [Call(id, Over)]) && PayloadOk(cfg, payload)
    ensures var s1 := Next(cfg, s, ReceiveCalled(id, payload));
            Stands(Next(cfg, s1, ReceiveControlled(1, true)), now, id, Entry(c, true, true, None), x,
                   [Call(id, Over), Call(id, ReceiveVerify(payload))])
  {
    hide PayloadOk;
    var s1 := Next(cfg, s, ReceiveCalled(id, payload));
    assert s1.calls == [Call(id, Over)] + [Call(id, ReceiveControl(payload))] == [Call(id, Over), Call(id, ReceiveControl(payload))];
    assert Stands(s1, now, id, Entry(c, true, true, None), x, [Call(id, Over), Call(id, ReceiveControl(payload))]);
  }

  lemma VerifyStands(cfg: Config, s: State, now: int, id: string, c: Challenge, x: GrantSession, payload: Payload, result: VerifyResult)
    returns (claims: Claims)
    requires MeetsPolicy(cfg, payload, result)
    requires Stands(s, now, id, Entry(c, true, true, None), x, [Call(id, Over), Call(id, ReceiveVerify(payload))])
    ensures claims.account == c.account && claims.userDefinedData == c.userDefinedData
    ensures AllDecimal(claims.nullifier) && 0 < ValueOf(claims.nullifier, 10) < TWO_TO_256
    ensures Stands(Next(cfg, s, ReceiveVerified(1, Some(result))), now, id, Entry(c, false, true, Some(claims)), x,
                   [Call(id, Over), Call(id, Over)])
  {
    hide AcceptedNullifier, DecimalString, ValueOf, BigIntOf, IsHexLiteral, IsDecimalLiteral;
    AcceptedIffPolicy(cfg, payload, result);
    DecimalRoundTrip(BigIntOf(result.uniqueIdentifier.value));
    claims := Claims(c.account, c.userDefinedData, AcceptedNullifier(cfg, payload, Some(result)).value);
  }

  lemma AuthorizeStands(cfg: Config, s: State, now: int, id: string, c: Challenge, claims: Claims)
    requires Stands(s, now, id, Entry(c, false, true, Some(claims)), GrantSession(c, false, None), [Call(id, Over), Call(id, Over)])
    ensures var s1 := Next(cfg, s, AuthorizeCalled(id));
            Stands(Next(cfg, s1, AuthControlled(2, true)), now, id, Entry(c, false, true, Some(claims)), GrantSession(c, true, None),
                   [Call(id, Over), Call(id, Over), Call(id, AuthClaims(Some(claims)))])
  {
    var s1 := Next(cfg, s, AuthorizeCalled(id));
    assert s1.calls == [Call(id, Over), Call(id, Over)] + [Call(id, AuthControl)]
        == [Call(id, Over), Call(id, Over), Call(id, AuthControl)];
    assert Stands(s1, now, id, Entry(c, false, true, Some(claims)), GrantSession(c, true, None),
                  [Call(id, Over), Call(id, Over), Call(id, AuthControl)]);
  }

  lemma DateStands(cfg: Config, s: State, now: int, id: string, c: Challenge, claims: Claims, seconds: nat) returns (a: Authorization)
    requires Stands(s, now, id, Entry(c, false, true, Some(claims)), GrantSession(c, true, None),
                    [Call(id, Over), Call(id, Over), Call(id, AuthClaims(Some(claims)))])
    requires cfg.accountAddress(claims.account) == Some(c.account) && claims.userDefinedData == c.userDefinedData
    requires AllDecimal(claims.nullifier) && 0 < ValueOf(claims.nullifier, 10) < TWO_TO_256 && now + seconds < c.expiresAt
    ensures a.issuedAt == now && a.expiresAt == now + cfg.grantLifetimeSeconds
    ensures var s1 := Next(cfg, s, AuthClaimed(2));
            Stands(Next(cfg, s1, Tick(seconds)), now + seconds, id, Entry(c, false, true, Some(claims)), GrantSession(c, true, None),
                   [Call(id, Over), Call(id, Over), Call(id, AuthSign(a))])
  {
    hide ValueOf, DecimalString;
    a := Authorization(c.account, cfg.identityTag(DecimalString(ValueOf(claims.nullifier, 10))), id, now, now + cfg.grantLifetimeSeconds);
  }

  /**
   A proof that meets the policy, handed in and authorized for while its challenge lives and without another call in between,
   is granted: to the challenge's account, dated when the claims were read, however long the signature took.
   */
  lemma UndisturbedFlowIsGranted(cfg: Config, start: int, account: string, normalized: string, id: string, payload: Payload,
                                 result: VerifyResult, wait: nat, signature: string)
    returns (r: Run, k: nat, a: Authorization)
    requires PayloadOk(cfg, payload) && MeetsPolicy(cfg, payload, result) && wait < 300
    requires cfg.accountAddress(account) == Some(normalized) && cfg.accountAddress(normalized) == Some(normalized)
    ensures r.cfg == cfg && r.start == start && k < r.Len() && r.GrantAt(k) == Some(Grant(id, 2, Signed(a, signature)))
    ensures a.issuedAt == start && a.expiresAt == start + cfg.grantLifetimeSeconds && r.At(k).now == start + wait
  {
    hide After, Next, PayloadOk, MeetsPolicy, AllDecimal, ValueOf, Stands, Returns;
    r := Run(cfg, start, []);
    assert r.End() == Start(start) by {
      EmptyRun(cfg, start);
    }
    Onward(r, Create(account, id), r.End());
    var c := CreateStands(cfg, start, account, normalized, id);
    var x := GrantSession(c, false, None);
    r := r.Then(Create(account, id));
    BeginStands(cfg, r.End(), start, id, c, x);
    r := Two(r, BeginCalled(id), BeginControlled(0, true));
    ReceiveStands(cfg, r.End(), start, id, c, x, payload);
    r := Two(r, ReceiveCalled(id, payload), ReceiveControlled(1, true));
    Onward(r, ReceiveVerified(1, Some(result)), r.End());
    var claims := VerifyStands(cfg, r.End(), start, id, c, x, payload, result);
    r := r.Then(ReceiveVerified(1, Some(result)));
    AuthorizeStands(cfg, r.End(), start, id, c, claims);
    r := Two(r, AuthorizeCalled(id), AuthControlled(2, true));
    a := DateStands(cfg, r.End(), start, id, c, claims, wait);
    r := Two(r, AuthClaimed(2), Tick(wait));
    k := r.Len();
    SignedLate(r.End(), start + wait, id, c, claims, a, signature);
    Onward(r, AuthSigned(2, Some(signature)), r.End());
    r := r.Then(AuthSigned(2, Some(signature)));
  }

  /**
   With every lifetime below 300 seconds a grant can be handed out expired: its signature takes as long as the grant lives,
   and the challenge lives longer.
   */
  lemma ShortGrantsCanBeExpired(cfg: Config, start: int, account: string, normalized: string, id: string, payload: Payload,
                                result: VerifyResult, signature: string)
    returns (r: Run, k: nat)
    requires cfg.grantLifetimeSeconds < 300 && PayloadOk(cfg, payload) && MeetsPolicy(cfg, payload, result)
    requires cfg.accountAddress(account) == Some(normalized) && cfg.accountAddress(normalized) == Some(normalized)
    ensures r.cfg == cfg && r.start == start && k < r.Len() && r.GrantAt(k).Some?
    ensures r.GrantAt(k).value.signed.authorization.expiresAt <= r.At(k).now
  {
    hide After, PayloadOk, MeetsPolicy, Returns;
    var a;
    r, k, a := UndisturbedFlowIsGranted(cfg, start, account, normalized, id, payload, result, cfg.grantLifetimeSeconds, signature);
  }

  lemma SignedLate(s: State, now: int, id: string, c: Challenge, claims: Claims, a: Authorization, signature: string)
    requires Stands(s, now, id, Entry(c, false, true, Some(claims)), GrantSession(c, true, None),
                    [Call(id, Over), Call(id, Over), Call(id, AuthSign(a))])
    ensures s.now == now && Returns(s, AuthSigned(2, Some(signature))) == Some(Grant(id, 2, Signed(a, signature)))
  {
  }

  lemma EmptyRun(cfg: Config, start: int)
    ensures Run(cfg, start, []).End() == Start(start)
  {
    var none: seq<Event> := [];
    assert none[..0] == none;
  }

  lemma Two(r: Run, e: Event, e': Event) returns (r': Run)
    ensures r'.cfg == r.cfg && r'.start == r.start && r'.End() == Next(r.cfg, Next(r.cfg, r.End(), e), e')
  {
    hide After, Next;
    ThenIsNext(r, e);
    ThenIsNext(r.Then(e), e');
    r' := r.Then(e).Then(e');
  }

  // ----- one proof for a challenge

  lemma ClaimsStep(cfg: Config, s: State, e: Event, id: string)
    requires id in s.entries && s.entries[id].claims.Some? && id in Next(cfg, s, e).entries && id in s.created
    ensures Next(cfg, s, e).entries[id].claims == s.entries[id].claims
  {
    hide AcceptedNullifier, PayloadOk, DecimalString, ValueOf, AllDecimal, FreshEntries, FreshSessions;
  }

  /** Claims once recorded never change while their challenge lives. */
  lemma {:induction false} ClaimsNeverChange(r: Run, i: nat, j: nat, id: string)
    requires i <= j <= r.Len() && id in r.At(i).entries && r.At(i).entries[id].claims.Some?
    ensures id in r.At(j).created && (id in r.At(j).entries ==> r.At(j).entries[id].claims == r.At(i).entries[id].claims)
  {
    hide After, EntryOk, SessionOk, PhaseOk;
    if i == j {
      AlwaysInv(r, i);
      IsCreated(r.UpTo(i), r.At(i), id);
    } else {
      ClaimsNeverChange(r, i, j - 1, id);
      StepIsNext(r, j - 1);
      CreatedStays(r.cfg, r.At(j - 1), r.events[j - 1], id);
      if id in r.At(j).entries {
        ClaimsStep(r.cfg, r.At(j - 1), r.events[j - 1], id);
      }
    }
  }

  lemma AcceptedIsRecorded(r: Run, p: Proof, id: string)
    requires AcceptedProof(r, p, id)
    ensures id in r.At(p.verified + 1).entries && r.At(p.verified + 1).entries[id].claims.Some?
  {
    hide After, ControlledAt, AcceptedNullifier, MeetsPolicy;
    AcceptedIffPolicy(r.cfg, p.payload, p.result);
    StepIsNext(r, p.verified);
  }

  /** At most one proof is ever accepted for a challenge. */
  lemma OneProofPerChallenge(r: Run, p: Proof, q: Proof, id: string)
    requires AcceptedProof(r, p, id) && AcceptedProof(r, q, id)
    ensures p.verified == q.verified && p.call == q.call && p.payload == q.payload && p.result == q.result
  {
    hide After, ControlledAt, MeetsPolicy;
    AcceptedIsRecorded(r, p, id);
    AcceptedIsRecorded(r, q, id);
    if p.verified < q.verified {
      ClaimsNeverChange(r, p.verified + 1, q.verified, id);
    } else if q.verified < p.verified {
      ClaimsNeverChange(r, q.verified + 1, p.verified, id);
    }
  }

  /**
   Two grants, of one challenge or of two, carry the same tag if the proofs accepted for them show the same number in any
   encoding; and only then, if the tag function is injective.
   */
  lemma SameNumberSameTag(r: Run, j: nat, p: Proof, k: nat, q: Proof)
    requires j < r.Len() && r.GrantAt(j).Some? && AcceptedProof(r, p, r.GrantAt(j).value.id)
    requires k < r.Len() && r.GrantAt(k).Some? && AcceptedProof(r, q, r.GrantAt(k).value.id)
    ensures var tagJ, tagK := r.GrantAt(j).value.signed.authorization.identityTag, r.GrantAt(k).value.signed.authorization.identityTag;
            && (Number(p) == Number(q) ==> tagJ == tagK)
            && ((forall a, b :: r.cfg.identityTag(a) == r.cfg.identityTag(b) ==> a == b) && tagJ == tagK ==> Number(p) == Number(q))
  {
    hide After, ControlledAt, DecimalString, BigIntOf, ValidNullifier;
    var p', control, signing := GrantsAreEarned(r, j);
    var q', control', signing' := GrantsAreEarned(r, k);
    OneProofPerChallenge(r, p, p', r.GrantAt(j).value.id);
    OneProofPerChallenge(r, q, q', r.GrantAt(k).value.id);
    ProofMeetsPolicy(r, p, r.GrantAt(j).value.id);
    ProofMeetsPolicy(r, q, r.GrantAt(k).value.id);
    DecimalRoundTrip(Number(p));
    DecimalRoundTrip(Number(q));
  }
}
