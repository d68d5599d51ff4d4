/** The two maps of eligibility/zkpassport.ts and authorization.ts, updated in place, against module Eligibility. */
module EligibilityServices {
  import opened Eligibility
  import JsonEquality
  import opened Nullifiers
  import opened Results

  /** A call that is waiting for one of its dependencies, or a value or an error. */
  datatype Outcome<T> = Waiting(call: nat) | Returned(value: T) | Threw(error: string)

  datatype Receipt = Accepted | Duplicate

  /** A grant the last event of the run handed out, with everything that has to be behind it. */
  ghost predicate EarnedNow(past: Run, g: Grant) {
    && past.Len() > 0 && past.GrantAt(past.Len() - 1) == Some(g)
    && IsEarned(past, past.Len() - 1, g)
  }

  ghost predicate IsEarned(past: Run, k: nat, g: Grant) {
    exists p: Proof, control: nat, signing: Signing :: Earned(past, k, g, p, control, signing)
  }

  class ZkPassportEligibility {
    const cfg: Config
    var now: int
    var entries: map<string, Entry>
    var sessions: map<string, GrantSession>
    var calls: seq<Call>
    ghost var created: map<string, Challenge>
    ghost var past: Run

    ghost function St(): State
      reads this
    {
      State(now, entries, sessions, calls, created)
    }

    /** The fields are what the run so far has made of them. */
    ghost predicate Valid()
      reads this
    {
      past.cfg == cfg && past.End() == St()
    }

    constructor (cfg: Config, now: int)
      ensures Valid() && this.cfg == cfg && past == Run(cfg, now, [])
    {
      this.cfg, this.now := cfg, now;
      entries, sessions, calls, created, past := map[], map[], [], map[], Run(cfg, now, []);
    }

    /** entry(id). */
    predicate Lives(id: string)
      reads `now, `entries
    {
      id in entries && entries[id].challenge.expiresAt > now
    }

    predicate SessionLives(id: string)
      reads `now, `sessions
    {
      id in sessions && sessions[id].challenge.expiresAt > now
    }

    /** The event that has just been handled joins the run. */
    ghost method Happened(e: Event, before: State)
      requires past.cfg == cfg && past.End() == before && St() == Next(cfg, before, e)
      modifies `past
      ensures Valid() && past == old(past).Then(e)
    {
      hide Next;
      ThenIsNext(past, e);
      past := past.Then(e);
    }

    /** The clock moves on between two events. */
    method TimePasses(seconds: nat)
      requires Valid()
      modifies `now, `past
      ensures Valid() && past == old(past).Then(Tick(seconds))
    {
      now := now + seconds;
      Happened(Tick(seconds), old(St()));
    }

    method AddCall(id: string, phase: Phase) returns (c: nat)
      modifies `calls
      ensures c == |old(calls)| && calls == old(calls) + [Call(id, phase)]
    {
      c := |calls|;
      calls := calls + [Call(id, phase)];
    }

    method MoveTo(c: nat, phase: Phase)
      requires c < |calls|
      modifies `calls
      ensures calls == old(calls)[c := old(calls)[c].(phase := phase)]
    {
      calls := calls[c := calls[c].(phase := phase)];
    }

    /** `entry.busy = false` on an entry that may have been forgotten meanwhile. */
    method ReleaseEntry(c: nat)
      requires c < |calls|
      modifies `entries, `calls
      ensures St() == EndOnEntry(old(St()), c)
    {
      var id := calls[c].id;
      if id in entries {
        entries := entries[id := entries[id].(busy := false)];
      }
      MoveTo(c, Over);
    }

    method ReleaseSession(c: nat)
      requires c < |calls|
      modifies `sessions, `calls
      ensures St() == EndOnSession(old(St()), c)
    {
      var id := calls[c].id;
      if id in sessions {
        sessions := sessions[id := sessions[id].(busy := false)];
      }
      MoveTo(c, Over);
    }

    // ----- challenges

    /** Forgets the expired entries. */
    method SweepEntries()
      modifies `entries
      ensures entries == FreshEntries(old(St()))
    {
      entries := map i | i in entries && entries[i].challenge.expiresAt > now :: entries[i];
    }

    method SweepSessions()
      modifies `sessions
      ensures sessions == FreshSessions(old(St()))
    {
      sessions := map i | i in sessions && sessions[i].challenge.expiresAt > now :: sessions[i];
    }

    method CreateChallenge(account: string, id: string) returns (r: Result<Challenge>)
      requires Valid() && id !in created
      modifies `entries, `sessions, `created, `past
      ensures Valid() && past == old(past).Then(Create(account, id))
      ensures r.Success? ==> r.value.expiresAt == now + 300 && cfg.accountAddress(account) == Some(r.value.account) && r.value.id == id
      ensures r.Success? ==> r.value.userDefinedData == cfg.context(r.value.account, id, now + 300)
      ensures r.Success? ==> created == old(created)[id := r.value] && |sessions| <= 500 && Lives(id) && SessionLives(id)
      ensures r.Success? <==> cfg.accountAddress(account).Some? && |LivingSessions(old(St()))| < 500
      ensures r.Failure? ==> created == old(created)
                             && r.error == if cfg.accountAddress(account).None? then "INVALID_ACCOUNT" else "CHALLENGE_CAPACITY"
      ensures KeepsTheLiving(old(St()), St(), cfg.accountAddress(account).Some?, if r.Success? then {id} else {})
      ensures forall i :: i in entries || i in sessions ==> i in created
    {
      hide Creates, After, KeepsTheLiving, LivingSessions;
      CreatesIff(cfg, St(), account, id);
      CreatesMakes(cfg, St(), account, id);
      r := StoreChallenge(account, id);
      Happened(Create(account, id), old(St()));
      OnlyCreated();
    }

    /** createChallenge of both classes: the sweep of the entries, then that of the sessions, then the two new ones. */
    method StoreChallenge(account: string, id: string) returns (r: Result<Challenge>)
      requires id !in created
      modifies `entries, `sessions, `created
      ensures St() == Creates(cfg, old(St()), account, id)
      ensures r.Success? ==> created == old(created)[id := r.value]
      ensures r.Failure? ==> created == old(created)
                             && r.error == if cfg.accountAddress(account).None? then "INVALID_ACCOUNT" else "CHALLENGE_CAPACITY"
    {
      hide FreshEntries, FreshSessions;
      SweepEntries();
      var normalized := cfg.accountAddress(account);
      if normalized.None? {
        return Failure("INVALID_ACCOUNT");
      }
      SweepSessions();
      if |sessions| >= 500 {
        return Failure("CHALLENGE_CAPACITY");
      }
      var expiresAt := now + 300;
      var challenge := Challenge(id, normalized.value, cfg.context(normalized.value, id, expiresAt), expiresAt);
      sessions := sessions[id := GrantSession(challenge, false, None)];
      entries := entries[id := Entry(challenge, false, false, None)];
      created := created[id := challenge];
      r := Success(challenge);
    }

    lemma OnlyCreated()
      requires Valid()
      ensures forall i :: i in entries || i in sessions ==> i in created
    {
      RunKeepsInv(past);
      forall i | i in entries || i in sessions
        ensures i in created
      {
        IsCreated(past, St(), i);
      }
    }

    // ----- begin

    method Begin(id: string) returns (r: Outcome<()>)
      requires Valid()
      modifies `entries, `calls, `past
      ensures Valid() && past == old(past).Then(BeginCalled(id))
      ensures r == (if !old(Lives(id)) then Threw("CHALLENGE_EXPIRED_OR_MISSING")
                    else if old(entries[id].busy) then Threw("CHALLENGE_BUSY")
                    else Waiting(|old(calls)|))
    {
      if !Lives(id) {
        r := Threw("CHALLENGE_EXPIRED_OR_MISSING");
      } else if entries[id].busy {
        r := Threw("CHALLENGE_BUSY");
      } else {
        entries := entries[id := entries[id].(busy := true)];
        var c := AddCall(id, BeginControl);
        r := Waiting(c);
      }
      Happened(BeginCalled(id), old(St()));
    }

    /** verifyAccountControl has answered. */
    method BeginResumes(c: nat, ok: bool) returns (r: Outcome<()>)
      requires Valid() && c < |calls| && calls[c].phase.BeginControl?
      modifies `entries, `calls, `past
      ensures Valid() && past == old(past).Then(BeginControlled(c, ok))
      ensures r.Returned? <==> ok && old(Lives(calls[c].id))
      ensures r.Returned? ==> BeginsAt(past, past.Len() - 1, old(calls[c].id)) && Lives(old(calls[c].id)) && entries[old(calls[c].id)].begun
    {
      var id := calls[c].id;
      if !ok {
        ReleaseEntry(c);
        r := Threw("ACCOUNT_CONTROL_FAILED");
      } else if !Lives(id) {
        ReleaseEntry(c);
        r := Threw("CHALLENGE_EXPIRED_OR_MISSING");
      } else {
        entries := entries[id := entries[id].(begun := true)];
        ReleaseEntry(c);
        r := Returned(());
      }
      ThenIsNext(past, BeginControlled(c, ok));
      Happened(BeginControlled(c, ok), old(St()));
    }

    // ----- receiveProof

    method ReceiveProof(id: string, payload: Payload) returns (r: Outcome<Receipt>)
      requires Valid()
      modifies `entries, `calls, `past
      ensures Valid() && past == old(past).Then(ReceiveCalled(id, payload))
      ensures r == (if !old(Lives(id)) then Threw("CHALLENGE_EXPIRED_OR_MISSING")
                    else if old(entries[id].busy) then Threw("CHALLENGE_BUSY")
                    else if !old(entries[id].begun) then Threw("ZKPASSPORT_SESSION_NOT_STARTED")
                    else Waiting(|old(calls)|))
      ensures r.Waiting? ==> Begun(past, id, past.Len() - 1)
    {
      hide Begun, ClaimsOk, After, Inv, EntryOk;
      ghost var e := ReceiveCalled(id, payload);
      RunKeepsInv(past);
      EntryWasOk(past, e, id);
      if !Lives(id) {
        r := Threw("CHALLENGE_EXPIRED_OR_MISSING");
      } else if entries[id].busy {
        r := Threw("CHALLENGE_BUSY");
      } else {
        entries := entries[id := entries[id].(busy := true)];
        if !entries[id].begun {
          entries := entries[id := entries[id].(busy := false)];
          assert entries == old(entries);
          r := Threw("ZKPASSPORT_SESSION_NOT_STARTED");
        } else {
          var c := AddCall(id, ReceiveControl(payload));
          r := Waiting(c);
        }
      }
      Happened(e, old(St()));
    }

    method ReceiveProofResumes(c: nat, ok: bool) returns (r: Outcome<Receipt>)
      requires Valid() && c < |calls| && calls[c].phase.ReceiveControl?
      modifies `entries, `calls, `past
      ensures Valid() && past == old(past).Then(ReceiveControlled(c, ok))
      ensures r.Waiting? <==> ok && old(Lives(calls[c].id)) && PayloadOk(cfg, old(calls[c].phase.payload))
      ensures !r.Returned?
      ensures r.Waiting? ==> exists p: Proof ::
                ControlledAt(past, p, old(calls[c].id)) && p.call == c && p.controlled == past.Len() - 1
    {
      hide SubmittedAt;
      var id, payload := calls[c].id, calls[c].phase.payload;
      if !ok {
        ReleaseEntry(c);
        r := Threw("ACCOUNT_CONTROL_FAILED");
      } else if !Lives(id) {
        ReleaseEntry(c);
        r := Threw("CHALLENGE_EXPIRED_OR_MISSING");
      } else if !payload.isObject || !payload.hasProofs || !payload.hasQueries {
        ReleaseEntry(c);
        r := Threw("ZKPASSPORT_INVALID_PAYLOAD");
      } else if !JsonEquality.DeepEqual(payload.originalQuery, cfg.canonicalQuery) {
        ReleaseEntry(c);
        r := Threw("ZKPASSPORT_QUERY_MISMATCH");
      } else {
        MoveTo(c, ReceiveVerify(payload));
        ghost var p := ControlledNow(past, c);
        r := Waiting(c);
      }
      Happened(ReceiveControlled(c, ok), old(St()));
    }

    /** The SDK has verified the proof, or thrown. */
    method ReceiveProofVerified(c: nat, result: Option<VerifyResult>) returns (r: Outcome<Receipt>)
      requires Valid() && c < |calls| && calls[c].phase.ReceiveVerify?
      modifies `entries, `calls, `past
      ensures Valid() && past == old(past).Then(ReceiveVerified(c, result))
      ensures r == Returned(Accepted) ==> exists p: Proof ::
                AcceptedProof(past, p, old(calls[c].id)) && p.call == c && p.verified == past.Len() - 1 && Some(p.result) == result
      ensures r == Returned(Accepted) <==>
                && result.Some? && MeetsPolicy(cfg, old(calls[c].phase.payload), result.value)
                && old(Lives(calls[c].id)) && old(entries[calls[c].id].claims).None?
      ensures r == Returned(Duplicate) ==>
                && old(Lives(calls[c].id)) && old(entries[calls[c].id].claims).Some? && result.Some? && result.value.uniqueIdentifier.Some?
                && CanonicalNullifier(result.value.uniqueIdentifier.value) == Success(old(entries[calls[c].id].claims).value.nullifier)
    {
      hide CanonicalNullifier, TypeOk, AttributesMet, MeetsPolicy, ControlledAt, Waits, DecimalString, BigIntOf;
      var payload, id := calls[c].phase.payload, calls[c].id;
      assert result.Some? && AcceptedNullifier(cfg, payload, result).None? ==> !MeetsPolicy(cfg, payload, result.value) by {
        if result.Some? {
          AcceptedIffPolicy(cfg, payload, result.value);
        }
      }
      if result.None? || !result.value.verified || result.value.uniqueIdentifier.None? {
        ReleaseEntry(c);
        r := Threw("ZKPASSPORT_VERIFICATION_FAILED");
      } else if !TypeOk(cfg, result.value.idType) {
        ReleaseEntry(c);
        r := Threw("ZKPASSPORT_UNIQUENESS_TYPE_MISMATCH");
      } else if !Lives(id) {
        ReleaseEntry(c);
        r := Threw("CHALLENGE_EXPIRED_OR_MISSING");
      } else if !AttributesMet(cfg, payload) {
        ReleaseEntry(c);
        r := Threw("ZKPASSPORT_REQUIREMENT_UNMET");
      } else {
        var nullifier := CanonicalNullifier(result.value.uniqueIdentifier.value);
        if nullifier.Failure? {
          ReleaseEntry(c);
          r := Threw(nullifier.error);
        } else {
          AcceptedIffPolicy(cfg, payload, result.value);
          if entries[id].claims.None? {
            ghost var p := AcceptedNow(past, c, result.value);
          }
          r := RecordClaims(c, nullifier.value);
        }
      }
      Happened(ReceiveVerified(c, result), old(St()));
    }

    /** Claims are recorded once; a second proof of the same holder is a duplicate, one of another holder a conflict. */
    method RecordClaims(c: nat, nullifier: string) returns (r: Outcome<Receipt>)
      requires c < |calls| && Lives(calls[c].id)
      modifies `entries, `calls
      ensures old(entries[calls[c].id]).claims.Some? ==> St() == EndOnEntry(old(St()), c) && r != Returned(Accepted)
      ensures old(entries[calls[c].id]).claims.Some? ==>
                (r == Returned(Duplicate) <==> old(entries[calls[c].id]).claims.value.nullifier == nullifier)
      ensures old(entries[calls[c].id]).claims.None? ==> r == Returned(Accepted) && St() == Recorded(old(St()), c, nullifier)
    {
      var id := calls[c].id;
      var entry := entries[id];
      if entry.claims.Some? {
        ReleaseEntry(c);
        return if entry.claims.value.nullifier != nullifier then Threw("ZKPASSPORT_CONFLICTING_RESULT") else Returned(Duplicate);
      }
      entries := entries[id := entry.(claims := Some(Claims(entry.challenge.account, entry.challenge.userDefinedData, nullifier)))];
      ReleaseEntry(c);
      r := Returned(Accepted);
    }

    // ----- authorize

    method Authorize(id: string) returns (r: Outcome<Signed>)
      requires Valid()
      modifies `sessions, `calls, `past
      ensures Valid() && past == old(past).Then(AuthorizeCalled(id))
      ensures r == (if !old(SessionLives(id)) then Threw("CHALLENGE_EXPIRED_OR_MISSING")
                    else if old(sessions[id].busy) then Threw("CHALLENGE_BUSY")
                    else Waiting(|old(calls)|))
    {
      if !SessionLives(id) {
        r := Threw("CHALLENGE_EXPIRED_OR_MISSING");
      } else if sessions[id].busy {
        r := Threw("CHALLENGE_BUSY");
      } else {
        sessions := sessions[id := sessions[id].(busy := true)];
        var c := AddCall(id, AuthControl);
        r := Waiting(c);
      }
      Happened(AuthorizeCalled(id), old(St()));
    }

    /** What a call of authorize returns is the grant the run hands out to it, and all that is behind it. */
    lemma ReturnIsEarned(before: Run, e: Event, g: Grant)
      requires Returns(before.End(), e) == Some(g)
      ensures EarnedNow(before.Then(e), g)
    {
      hide Earned, Returns, Next, After, Extends;
      ThenIsNext(before, e);
      var p, control, signing := GrantsAreEarned(before.Then(e), before.Len());
    }

    method AuthorizeControlled(c: nat, ok: bool) returns (r: Outcome<Signed>)
      requires Valid() && c < |calls| && calls[c].phase.AuthControl?
      modifies `sessions, `calls, `past
      ensures Valid() && past == old(past).Then(AuthControlled(c, ok))
      ensures r.Returned? <==> ok && old(SessionLives(calls[c].id)) && old(sessions[calls[c].id].issued).Some?
      ensures r.Returned? ==> EarnedNow(past, Grant(old(calls[c].id), c, r.value)) && r.value == old(sessions[calls[c].id].issued).value
    {
      hide EarnedNow;
      var id := calls[c].id;
      if !ok {
        ReleaseSession(c);
        r := Threw("ACCOUNT_CONTROL_FAILED");
      } else if !SessionLives(id) {
        ReleaseSession(c);
        r := Threw("CHALLENGE_EXPIRED");
      } else if sessions[id].issued.Some? {
        var issued := sessions[id].issued.value;
        ReturnIsEarned(past, AuthControlled(c, ok), Grant(id, c, issued));
        ReleaseSession(c);
        r := Returned(issued);
      } else {
        MoveTo(c, AuthClaims(if Lives(id) then entries[id].claims else None));
        r := Waiting(c);
      }
      Happened(AuthControlled(c, ok), old(St()));
    }

    method AuthorizeClaimed(c: nat) returns (r: Outcome<Signed>)
      requires Valid() && c < |calls| && calls[c].phase.AuthClaims?
      modifies `sessions, `calls, `past
      ensures Valid() && past == old(past).Then(AuthClaimed(c))
      ensures r.Waiting? <==>
        && old(calls[c].phase.claims).Some? && old(SessionLives(calls[c].id))
        && cfg.accountAddress(old(calls[c].phase.claims).value.account) == Some(old(sessions[calls[c].id].challenge.account))
      ensures !r.Returned?
      ensures r.Waiting? ==>
        && c < |calls| && calls[c].phase.AuthSign? && calls[c].phase.authorization.issuedAt == now
        && calls[c].phase.authorization.expiresAt == now + cfg.grantLifetimeSeconds
        && calls[c].phase.authorization.account == old(sessions[calls[c].id].challenge.account)
        && calls[c].phase.authorization.nonce == old(calls[c].id)
    {
      hide DecimalString, ValueOf;
      var id, claims := calls[c].id, calls[c].phase.claims;
      if claims.None? {
        ReleaseSession(c);
        r := Threw("ZKPASSPORT_NOT_VERIFIED");
      } else if !SessionLives(id) {
        ReleaseSession(c);
        r := Threw("CHALLENGE_EXPIRED");
      } else {
        var challenge, verified := sessions[id].challenge, claims.value;
        if cfg.accountAddress(verified.account) != Some(challenge.account) || verified.userDefinedData != challenge.userDefinedData {
          ReleaseSession(c);
          r := Threw("SELF_CONTEXT_MISMATCH");
        } else if !AllDecimal(verified.nullifier) || ValueOf(verified.nullifier, 10) <= 0 || ValueOf(verified.nullifier, 10) >= TWO_TO_256 {
          ReleaseSession(c);
          r := Threw("INVALID_NULLIFIER");
        } else {
          var identityTag := cfg.identityTag(DecimalString(ValueOf(verified.nullifier, 10)));
          MoveTo(c, AuthSign(Authorization(challenge.account, identityTag, id, now, now + cfg.grantLifetimeSeconds)));
          r := Waiting(c);
        }
      }
      ClaimsPass(old(past), old(St()), c);
      Happened(AuthClaimed(c), old(St()));
    }

    /** The claims a call carries are those of its own challenge, with a nullifier that passes the second check. */
    static lemma ClaimsPass(r: Run, s: State, c: nat)
      requires s == r.End() && c < |s.calls| && s.calls[c].phase.AuthClaims?
      ensures s.calls[c].phase.claims.Some? && s.calls[c].id in s.sessions ==>
                && s.calls[c].phase.claims.value.account == s.sessions[s.calls[c].id].challenge.account
                && s.calls[c].phase.claims.value.userDefinedData == s.sessions[s.calls[c].id].challenge.userDefinedData
                && AllDecimal(s.calls[c].phase.claims.value.nullifier)
                && 0 < ValueOf(s.calls[c].phase.claims.value.nullifier, 10) < TWO_TO_256
    {
      hide AcceptedProof, DecimalString, ValueOf, AuthControlledAt;
      var Call(id, phase) := s.calls[c];
      RunKeepsInv(r);
      IsCreated(r, s, id);
      assert CallOk(r, s, c);
      if phase.claims.Some? {
        var k: nat :| AuthControlledAt(r, k, c, id) && ClaimsOk(r, s, id, phase.claims.value, k);
        ClaimsAreNumbers(r, s, id, phase.claims.value, k);
      }
    }

    /** The call that signs is the first of its challenge. */
    static lemma NothingIssued(r: Run, s: State, c: nat)
      requires s == r.End() && c < |s.calls| && s.calls[c].phase.AuthSign?
      ensures s.calls[c].id in s.sessions ==> s.sessions[s.calls[c].id].issued.None?
    {
      RunKeepsInv(r);
      assert CallOk(r, s, c);
    }

    method AuthorizeSigned(c: nat, signature: Option<string>) returns (r: Outcome<Signed>)
      requires Valid() && c < |calls| && calls[c].phase.AuthSign?
      modifies `sessions, `calls, `past
      ensures Valid() && past == old(past).Then(AuthSigned(c, signature))
      ensures r.Returned? <==> signature.Some? && old(SessionLives(calls[c].id))
      ensures r.Returned? ==>
                && EarnedNow(past, Grant(old(calls[c].id), c, r.value)) && r.value.signature == signature.value
                && SessionLives(old(calls[c].id)) && sessions[old(calls[c].id)].issued == Some(r.value)
                && old(sessions[calls[c].id].issued).None?
    {
      hide EarnedNow, Inv, Extends, EntryOk;
      var id, authorization := calls[c].id, calls[c].phase.authorization;
      NothingIssued(past, St(), c);
      if signature.None? {
        ReleaseSession(c);
        r := Threw("SIGNING_FAILED");
      } else if !SessionLives(id) {
        ReleaseSession(c);
        r := Threw("CHALLENGE_EXPIRED");
      } else {
        var signed := Signed(authorization, signature.value);
        ReturnIsEarned(past, AuthSigned(c, signature), Grant(id, c, signed));
        sessions := sessions[id := sessions[id].(issued := Some(signed))];
        ReleaseSession(c);
        r := Returned(signed);
      }
      Happened(AuthSigned(c, signature), old(St()));
    }
  }
}
