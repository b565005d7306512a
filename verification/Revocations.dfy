/** Revocations that hold: over every run, introspection answers by the simple rule for each hash that was
    either never revoked or revoked once to effect, whatever happened to other hashes. */
module Revocations {
  import opened EntityGraph
  import opened Helpers
  import opened Operations
  import opened Invariants
  import opened PlansLegal
  import opened Footprints
  import opened TokenRecords

  // ---------------------------------------------------------------- what a call keeps

  lemma KeptTransitive(s: Store, t: Store, u: Store, nanos: int)
    requires Kept(s, t, nanos) && Kept(t, u, nanos)
    ensures Kept(s, u, nanos)
  {
    forall i | 0 <= i < |s.ents|
      ensures KeptEntity(s.ents[i], u.ents[i], nanos)
    {
      assert KeptEntity(s.ents[i], t.ents[i], nanos) && KeptEntity(t.ents[i], u.ents[i], nanos);
    }
  }

  lemma {:induction false} UnrelatedAllKept(s: Store, ws: seq<Write>, nanos: int)
    requires UnrelatedAll(s, ws)
    ensures Kept(s, ApplyAll(s, ws), nanos)
    ensures forall i :: |s.ents| <= i < |ApplyAll(s, ws).ents| ==> ApplyAll(s, ws).ents[i].typ !in ARTIFACTS
    decreases |ws|
  {
    if |ws| > 0 {
      var t := Apply(s, ws[0]);
      if ws[0].Update? && ws[0].id < |s.ents| && s.ents[ws[0].id].typ in ARTIFACTS {
        assert s.ents[ws[0].id].props + map[] == s.ents[ws[0].id].props;
      }
      UnrelatedAllKept(t, ws[1..], nanos);
      KeptTransitive(s, t, ApplyAll(t, ws[1..]), nanos);
      assert forall i :: |s.ents| <= i < |t.ents| ==> KeptEntity(t.ents[i], ApplyAll(t, ws[1..]).ents[i], nanos);
    }
  }

  lemma TokenWriteKept(s: Store, op: Op, nanos: int)
    requires TokensSound(s) && Admissible(s, op) && OnTokens(op) && (op.Purge? ==> op.at <= nanos)
    ensures Plan(s, op).Writes? && |Plan(s, op).ws| == 1
    ensures Kept(s, Apply(s, Plan(s, op).ws[0]), nanos) && TokensSound(Apply(s, Plan(s, op).ws[0]))
  {
    if op.Mint? {
      assert forall i :: 0 <= i < |s.ents| && IsToken(s.ents[i]) ==> !Has(s.ents[i], TokenHash, Text(op.hash));
    }
    TokensSoundKept(s, Apply(s, Plan(s, op).ws[0]), nanos);
  }

  lemma OtherCallKept(s: Store, c: Call, nanos: int)
    requires Inv(s) && Admissible(s, c.op) && !OnTokens(c.op)
    ensures Kept(s, AfterCall(s, c), nanos)
    ensures forall i :: |s.ents| <= i < |AfterCall(s, c).ents| ==> AfterCall(s, c).ents[i].typ !in ARTIFACTS
  {
    var ws := WritesOf(Plan(s, c.op));
    PlanUnrelated(s, c.op);
    UnrelatedCut(s, ws, c.done);
    UnrelatedAllKept(s, Cut(ws, c.done), nanos);
  }

  lemma TokenCallKept(s: Store, c: Call, nanos: int)
    requires TokensSound(s) && Admissible(s, c.op) && OnTokens(c.op) && (c.op.Purge? ==> c.op.at <= nanos)
    ensures Kept(s, AfterCall(s, c), nanos) && TokensSound(AfterCall(s, c))
  {
    TokenWriteKept(s, c.op, nanos);
    SingleWriteCall(s, c);
  }

  lemma CallKeptAndSound(s: Store, c: Call, nanos: int)
    requires Inv(s) && TokensSound(s) && Admissible(s, c.op) && (c.op.Purge? ==> c.op.at <= nanos)
    ensures Kept(s, AfterCall(s, c), nanos) && TokensSound(AfterCall(s, c))
  {
    if OnTokens(c.op) {
      TokenCallKept(s, c, nanos);
    } else {
      OtherCallKept(s, c, nanos);
      TokensSoundKept(s, AfterCall(s, c), nanos);
    }
  }

  lemma {:induction false} RunTokensSound(agency: string, calls: seq<Call>)
    requires ValidRun(agency, calls)
    ensures TokensSound(Run(agency, calls))
  {
    if |calls| > 0 {
      var before, c := calls[..|calls| - 1], calls[|calls| - 1];
      RunTokensSound(agency, before);
      RunKeepsInv(agency, before);
      CallKeptAndSound(Run(agency, before), c, if c.op.Purge? then c.op.at else 0);
    }
  }

  // ---------------------------------------------------------------- revocations that hold

  /** A revocation holds when its search finds a token, or when no listed access token with the hash lasts
      beyond the second of the revocation. */
  ghost predicate Holds(s: Store, op: Op)
    requires op.Revoke?
  {
    SearchExpiry(s, op.hash, op.sawAccess, op.sawRefresh).Some? ||
    forall i: Id :: AccessRecord(s, i, op.hash) && !s.ents[i].deleted ==>
      WellTimed(s.ents[i]) && s.ents[i].props[ExpiresAt].sec <= op.now
  }

  ghost predicate HoldingCall(s: Store, c: Call, hash: string) {
    c.op.Revoke? && c.op.hash == hash && c.done > 0 && Holds(s, c.op)
  }

  /** Some recorded revocation of the hash held. */
  ghost predicate HeldRevoke(agency: string, calls: seq<Call>, hash: string) {
    |calls| > 0 &&
    (var before, c := calls[..|calls| - 1], calls[|calls| - 1];
     HeldRevoke(agency, before, hash) || HoldingCall(Run(agency, before), c, hash))
  }

  /** If the hash was revoked at all, one of its revocations held. What happened to other tokens is irrelevant. */
  ghost predicate RevokedForGood(agency: string, calls: seq<Call>, hash: string) {
    hash in LedgerOf(calls).revoked ==> HeldRevoke(agency, calls, hash)
  }

  /** A revocation whose first lookup did not fail holds. */
  lemma SeenRevokeHolds(s: Store, op: Op)
    requires op.Revoke? && op.sawAccess
    ensures Holds(s, op)
  {
    if i: Id :| AccessRecord(s, i, op.hash) && !s.ents[i].deleted {
      assert i in AccessTokensOf(s, op.hash);
      assert ExpiryFrom(s, TAccessToken, op.hash).Some?;
    }
  }

  lemma FoundIsOwnExpiry(s: Store, hash: string, i: Id, sawAccess: bool, sawRefresh: bool)
    requires TokensSound(s) && AccessRecord(s, i, hash) && SearchExpiry(s, hash, sawAccess, sawRefresh).Some?
    ensures SearchExpiry(s, hash, sawAccess, sawRefresh).value == s.ents[i].props[ExpiresAt]
  {
    var v := SearchExpiry(s, hash, sawAccess, sawRefresh).value;
    FoundExpiry(s, hash, sawAccess, sawRefresh);
    var t :| 0 <= t < |s.ents| && IsToken(s.ents[t]) && HashOf(s.ents[t]) == Text(hash) && Has(s.ents[t], ExpiresAt, v);
    assert IsToken(s.ents[i]) && HashOf(s.ents[i]) == Text(hash);
    assert t == i;
  }

  function RevocationOf(s: Store, op: Op): Entity
    requires op.Revoke?
  {
    Entity(TTokenRevocation,
      RevocationProps(s.agency, op.hash, SearchExpiry(s, op.hash, op.sawAccess, op.sawRefresh), op.reason, op.now),
      false)
  }

  lemma RevocationFields(s: Store, op: Op)
    requires op.Revoke?
    ensures var r := RevocationOf(s, op);
      Has(r, TokenHash, Text(op.hash)) && ExpiresAt in r.props &&
      var found := SearchExpiry(s, op.hash, op.sawAccess, op.sawRefresh);
      (found.None? ==> r.props[ExpiresAt] == At(op.now)) &&
      (found.Some? && found.value.At? ==> r.props[ExpiresAt] == found.value)
  {
  }

  /** The store a recorded revocation leaves. */
  lemma RevokeCall(s: Store, c: Call)
    requires c.op.Revoke? && c.done > 0
    ensures AfterCall(s, c) == s.(ents := s.ents + [RevocationOf(s, c.op)])
  {
    assert Plan(s, c.op) == Writes([Create(TTokenRevocation, RevocationOf(s, c.op).props)]);
    SingleWriteCall(s, c);
  }

  lemma NoTokenElsewhere(s: Store, c: Call, i: Id)
    requires Inv(s) && Admissible(s, c.op) && !OnTokens(c.op)
    requires i < |AfterCall(s, c).ents| && AfterCall(s, c).ents[i].typ in ARTIFACTS
    ensures i < |s.ents|
  {
    CallUntouched(s, c);
    FootprintApart(c.op);
  }

  lemma NotMinted(s: Store, c: Call, hash: string, r: Id, i: Id)
    requires c.op.Mint? && Admissible(s, c.op) && RevocationRecord(s, r, hash) && AccessRecord(AfterCall(s, c), i, hash)
    ensures i < |s.ents|
  {
    assert s.ents[r].typ in ARTIFACTS;
    assert c.op.hash != hash;
    SingleWriteCall(s, c);
  }

  /** Once a hash is revoked, no token with it can be minted any more. */
  lemma NoNewToken(s: Store, c: Call, hash: string, r: Id, i: Id)
    requires Inv(s) && Admissible(s, c.op) && RevocationRecord(s, r, hash) && AccessRecord(AfterCall(s, c), i, hash)
    ensures i < |s.ents|
  {
    if !OnTokens(c.op) {
      NoTokenElsewhere(s, c, i);
    } else if c.done == 0 {
      SingleWriteCall(s, c);
    } else if c.op.Mint? {
      NotMinted(s, c, hash, r, i);
    } else if c.op.Revoke? {
      RevokeCall(s, c);
    } else {
      SingleWriteCall(s, c);
    }
  }

  lemma JustHeld(agency: string, before: seq<Call>, c: Call, hash: string)
    requires HoldingCall(Run(agency, before), c, hash)
    ensures HeldRevoke(agency, before + [c], hash)
  {
    assert (before + [c])[..|before|] == before;
  }

  lemma {:induction false} HeldIsRevoked(agency: string, calls: seq<Call>, hash: string)
    requires HeldRevoke(agency, calls, hash)
    ensures hash in LedgerOf(calls).revoked
  {
    var before, c := calls[..|calls| - 1], calls[|calls| - 1];
    assert LedgerOf(calls) == Note(LedgerOf(before), c);
    if !HoldingCall(Run(agency, before), c, hash) {
      HeldIsRevoked(agency, before, hash);
    }
  }

  lemma GuardedKept(s: Store, t: Store, hash: string, i: Id, nanos: int)
    requires Guarded(s, hash, i, nanos) && Kept(s, t, nanos) && s.ents[i].typ in ARTIFACTS
    ensures Guarded(t, hash, i, nanos)
  {
    assert KeptEntity(s.ents[i], t.ents[i], nanos);
    if r: Id :| RevocationRecord(s, r, hash) && Outlasts(s, r, i) {
      assert KeptEntity(s.ents[r], t.ents[r], nanos);
      assert RevocationRecord(t, r, hash) && Outlasts(t, r, i);
    }
  }

  /** The entity has an expiry no earlier than the second. */
  predicate LastsTo(e: Entity, sec: int) {
    ExpiresAt in e.props && e.props[ExpiresAt].At? && sec <= e.props[ExpiresAt].sec
  }

  lemma FoundLasts(s: Store, op: Op, i: Id)
    requires TokensSound(s) && op.Revoke? && AccessRecord(s, i, op.hash) && WellTimed(s.ents[i])
    requires SearchExpiry(s, op.hash, op.sawAccess, op.sawRefresh).Some?
    ensures LastsTo(RevocationOf(s, op), s.ents[i].props[ExpiresAt].sec)
  {
    FoundIsOwnExpiry(s, op.hash, i, op.sawAccess, op.sawRefresh);
    RevocationFields(s, op);
  }

  lemma UnfoundLasts(s: Store, op: Op, sec: int)
    requires op.Revoke? && SearchExpiry(s, op.hash, op.sawAccess, op.sawRefresh).None? && sec <= op.now
    ensures LastsTo(RevocationOf(s, op), sec)
  {
    RevocationFields(s, op);
  }

  /** The expiry a holding revocation records is no earlier than that of a token not yet past its own. */
  lemma HoldingOutlasts(s: Store, op: Op, i: Id, nanos: int)
    requires TokensSound(s) && PurgedExpired(s, nanos) && op.Revoke? && Holds(s, op) && AccessRecord(s, i, op.hash)
    ensures WellTimed(s.ents[i])
    ensures After(nanos, s.ents[i].props[ExpiresAt].sec) || LastsTo(RevocationOf(s, op), s.ents[i].props[ExpiresAt].sec)
  {
    assert IsToken(s.ents[i]);
    if SearchExpiry(s, op.hash, op.sawAccess, op.sawRefresh).Some? {
      FoundLasts(s, op, i);
    } else if s.ents[i].deleted {
      assert s.ents[i].typ in ARTIFACTS;
    } else {
      UnfoundLasts(s, op, s.ents[i].props[ExpiresAt].sec);
    }
  }

  lemma HoldingGuards(s: Store, c: Call, hash: string, i: Id, nanos: int)
    requires TokensSound(s) && PurgedExpired(s, nanos) && HoldingCall(s, c, hash) &&
             AccessRecord(AfterCall(s, c), i, hash)
    ensures Guarded(AfterCall(s, c), hash, i, nanos)
  {
    var t, r := AfterCall(s, c), |s.ents|;
    RevokeCall(s, c);
    assert i < r && t.ents[i] == s.ents[i] && t.ents[r] == RevocationOf(s, c.op);
    HoldingOutlasts(s, c.op, i, nanos);
    if !After(nanos, s.ents[i].props[ExpiresAt].sec) {
      RevocationFields(s, c.op);
      assert RevocationRecord(t, r, hash) && Outlasts(t, r, i);
    }
  }

  /** Once a revocation of a hash held, every access token with it is past its expiry or outlasted by a
      revocation of the same hash. */
  lemma {:induction false} HeldGuards(agency: string, calls: seq<Call>, hash: string, i: Id, nanos: int)
    requires ValidRun(agency, calls) && PurgedBy(calls, nanos) && HeldRevoke(agency, calls, hash)
    requires AccessRecord(Run(agency, calls), i, hash)
    ensures Guarded(Run(agency, calls), hash, i, nanos)
  {
    var before, c := calls[..|calls| - 1], calls[|calls| - 1];
    var s, t := Run(agency, before), Run(agency, calls);
    assert c in calls && forall d :: d in before ==> d in calls;
    RunKeepsInv(agency, before);
    RunTracks(agency, before, nanos);
    if HoldingCall(s, c, hash) {
      HoldingGuards(s, c, hash, i, nanos);
    } else {
      HeldIsRevoked(agency, before, hash);
      var r: Id :| RevocationRecord(s, r, hash);
      NoNewToken(s, c, hash, r, i);
      CallKeptAndSound(s, c, nanos);
      RecordsKept(s, t, nanos);
      HeldGuards(agency, before, hash, i, nanos);
      GuardedKept(s, t, hash, i, nanos);
    }
  }

  // ---------------------------------------------------------------- introspection over whole runs

  /** Introspect answers by the simple rule - minted, not past its expiry, never revoked - for every hash
      whose revocation, if any, held: exactly when no lookup fails, and inactive otherwise. */
  lemma IntrospectRefinesRule(agency: string, calls: seq<Call>, hash: string,
                              revocationsFail: bool, tokensFail: bool, nanos: int)
    requires ValidRun(agency, calls) && PurgedBy(calls, nanos) && RevokedForGood(agency, calls, hash)
    ensures Introspect(Run(agency, calls), hash, revocationsFail, tokensFail, nanos)
            == if revocationsFail || tokensFail then Inactive else Rule(LedgerOf(calls), hash, nanos)
  {
    var s, l := Run(agency, calls), LedgerOf(calls);
    RunTracks(agency, calls, nanos);
    assert Upheld(s, l, hash, nanos) by {
      forall i: Id | hash in l.revoked && AccessRecord(s, i, hash)
        ensures Guarded(s, hash, i, nanos)
      {
        HeldGuards(agency, calls, hash, i, nanos);
      }
    }
    IntrospectIsRule(s, l, hash, revocationsFail, tokensFail, nanos);
  }

  ghost predicate Unpurging(calls: seq<Call>) {
    forall c :: c in calls ==> !c.op.Purge?
  }

  lemma NothingPurged(agency: string, calls: seq<Call>, i: Id)
    requires ValidRun(agency, calls) && Unpurging(calls)
    requires i < |Run(agency, calls).ents| && Run(agency, calls).ents[i].typ in ARTIFACTS
    ensures !Run(agency, calls).ents[i].deleted
  {
    var s := Run(agency, calls);
    RunTracks(agency, calls, 0);
    if s.ents[i].deleted {
      RunTracks(agency, calls, s.ents[i].props[ExpiresAt].sec * 1_000_000_000);
      assert false;
    }
  }

  /** As long as nothing is purged the rule holds for every hash, however its revocations went. */
  lemma IntrospectWithoutPurging(agency: string, calls: seq<Call>, hash: string,
                                 revocationsFail: bool, tokensFail: bool, nanos: int)
    requires ValidRun(agency, calls) && Unpurging(calls)
    ensures Introspect(Run(agency, calls), hash, revocationsFail, tokensFail, nanos)
            == if revocationsFail || tokensFail then Inactive else Rule(LedgerOf(calls), hash, nanos)
  {
    var s, l := Run(agency, calls), LedgerOf(calls);
    RunTracks(agency, calls, nanos);
    if hash in l.revoked {
      var r: Id :| RevocationRecord(s, r, hash);
      NothingPurged(agency, calls, r);
      assert r in RevocationsOf(s, hash);
    } else {
      IntrospectIsRule(s, l, hash, revocationsFail, tokensFail, nanos);
    }
  }
}
