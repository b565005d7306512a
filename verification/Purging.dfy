/** Purging expired records: what it cannot be seen to do, and the one case in which a revocation is lost. */
module Purging {
  import opened EntityGraph
  import opened Helpers
  import opened Operations
  import opened Invariants
  import opened PlansLegal
  import opened Footprints
  import opened TokenRecords
  import opened Revocations

  // ---------------------------------------------------------------- the run without its purges

  function WithoutPurges(calls: seq<Call>): seq<Call> {
    if |calls| == 0 then []
    else
      var n := |calls| - 1;
      WithoutPurges(calls[..n]) + (if calls[n].op.Purge? then [] else [calls[n]])
  }

  lemma WithoutPurgesSnoc(before: seq<Call>, c: Call)
    ensures WithoutPurges(before + [c]) == if c.op.Purge? then WithoutPurges(before) else WithoutPurges(before) + [c]
  {
    assert (before + [c])[..|before|] == before;
    assert WithoutPurges(before) + [] == WithoutPurges(before);
  }

  lemma {:induction false} WithoutPurgesUnpurging(calls: seq<Call>)
    ensures Unpurging(WithoutPurges(calls))
  {
    if |calls| > 0 {
      WithoutPurgesUnpurging(calls[..|calls| - 1]);
    }
  }

  lemma NoteSnoc(calls: seq<Call>, c: Call)
    ensures LedgerOf(calls + [c]) == Note(LedgerOf(calls), c)
  {
    assert (calls + [c])[..|calls|] == calls;
  }

  /** The ledger knows nothing of purging. */
  lemma {:induction false} LedgerWithoutPurges(calls: seq<Call>)
    ensures LedgerOf(WithoutPurges(calls)) == LedgerOf(calls)
  {
    if |calls| > 0 {
      var before, c := calls[..|calls| - 1], calls[|calls| - 1];
      SplitLast([], calls);
      LedgerWithoutPurges(before);
      WithoutPurgesSnoc(before, c);
      NoteSnoc(WithoutPurges(before), c);
    }
  }

  /** `b` is `a` with a purge undone: the same entity, but a token or revocation is not deleted, and a
      revocation may carry another expiry, since its search may have missed a purged token. */
  predicate RestoredEntity(a: Entity, b: Entity) {
    a.typ == b.typ &&
    (a.typ in ARTIFACTS ==> !b.deleted) &&
    (a.typ !in ARTIFACTS ==> a == b) &&
    (IsToken(a) ==> a.props == b.props) &&
    (a.typ == TTokenRevocation ==> a.props - {ExpiresAt} == b.props - {ExpiresAt})
  }

  ghost predicate Restored(s: Store, u: Store) {
    s.agency == u.agency && s.edges == u.edges && |s.ents| == |u.ents| &&
    forall i :: 0 <= i < |s.ents| ==> RestoredEntity(s.ents[i], u.ents[i])
  }

  lemma ListRestored(s: Store, u: Store, typ: TypeName, f: Filter)
    requires Restored(s, u) && typ !in ARTIFACTS
    ensures List(u.ents, typ, f) == List(s.ents, typ, f)
  {
    forall i | 0 <= i < |s.ents|
      ensures Matches(u.ents[i], typ, f) == Matches(s.ents[i], typ, f)
    {
      assert RestoredEntity(s.ents[i], u.ents[i]);
    }
    ListSameMatches(u.ents, s.ents, typ, f);
  }

  /** What the plans look at in an entity that is no token and no revocation. */
  lemma EntityRestored(s: Store, u: Store, i: Id)
    requires Restored(s, u) && i < |s.ents|
    ensures u.ents[i].typ == s.ents[i].typ
    ensures s.ents[i].typ !in ARTIFACTS ==> u.ents[i] == s.ents[i]
  {
    assert RestoredEntity(s.ents[i], u.ents[i]);
  }

  lemma KeyRestored(a: Entity, b: Entity, p: Prop, v: Value)
    requires RestoredEntity(a, b) && p != ExpiresAt
    ensures Has(b, p, v) == Has(a, p, v)
  {
    if a.typ == TTokenRevocation {
      assert p in a.props - {ExpiresAt} <==> p in b.props - {ExpiresAt};
      assert p in a.props ==> (a.props - {ExpiresAt})[p] == (b.props - {ExpiresAt})[p];
    }
  }

  lemma RestoredCreate(s: Store, u: Store, typ: TypeName, p: Props, q: Props)
    requires Restored(s, u)
    requires p == q || (typ == TTokenRevocation && p - {ExpiresAt} == q - {ExpiresAt})
    ensures Restored(Apply(s, Create(typ, p)), Apply(u, Create(typ, q)))
  {
    assert forall i :: 0 <= i < |s.ents| ==> RestoredEntity(s.ents[i], u.ents[i]);
  }

  lemma RestoredApply(s: Store, u: Store, w: Write)
    requires Restored(s, u) && Unrelated(s, w)
    ensures Restored(Apply(s, w), Apply(u, w))
  {
    var s', u' := Apply(s, w), Apply(u, w);
    if w.Create? {
      RestoredCreate(s, u, w.typ, w.props, w.props);
    } else {
      forall i | 0 <= i < |s'.ents|
        ensures RestoredEntity(s'.ents[i], u'.ents[i])
      {
        assert RestoredEntity(s.ents[i], u.ents[i]);
        if w.Update? && w.id == i && s.ents[i].typ in ARTIFACTS {
          assert s.ents[i].props + map[] == s.ents[i].props && u.ents[i].props + map[] == u.ents[i].props;
        }
      }
    }
  }

  lemma {:induction false} RestoredApplyAll(s: Store, u: Store, ws: seq<Write>)
    requires Restored(s, u) && UnrelatedAll(s, ws)
    ensures Restored(ApplyAll(s, ws), ApplyAll(u, ws))
    decreases |ws|
  {
    if |ws| > 0 {
      RestoredApply(s, u, ws[0]);
      RestoredApplyAll(Apply(s, ws[0]), Apply(u, ws[0]), ws[1..]);
    }
  }

  // ---------------------------------------------------------------- no plan sees a purge

  lemma {:induction false} SeedRestored(s: Store, u: Store, bs: seq<Builtin>, now: int)
    requires Restored(s, u)
    ensures SeedWrites(u, bs, now) == SeedWrites(s, bs, now)
    decreases |bs|
  {
    if |bs| > 0 {
      var w := Create(TRole, BuiltinProps(s.agency, bs[0], now));
      ListRestored(s, u, TRole, Where(Name, Text(bs[0].name)));
      RestoredApply(s, u, w);
      SeedRestored(s, u, bs[1..], now);
      SeedRestored(Apply(s, w), Apply(u, w), bs[1..], now);
    }
  }

  lemma InitRestored(s: Store, u: Store, req: OrgRequest, now: int)
    requires Restored(s, u)
    ensures InitOrganizationPlan(u, req, now) == InitOrganizationPlan(s, req, now)
  {
    var w := Create(TOrganization, OrgProps(s.agency, req, now));
    ListRestored(s, u, TOrganization, Any);
    RestoredApply(s, u, w);
    SeedRestored(Apply(s, w), Apply(u, w), BUILTINS, now);
  }

  lemma AcceptRestored(s: Store, u: Store, hash: string, checked: int, now: int)
    requires Restored(s, u)
    ensures AcceptInvitationPlan(u, hash, checked, now) == AcceptInvitationPlan(s, hash, checked, now)
  {
    var found := List(s.ents, TInvitation, Where(TokenHash, Text(hash)));
    ListRestored(s, u, TInvitation, Where(TokenHash, Text(hash)));
    if found != [] {
      EntityRestored(s, u, found[0]);
      assert EdgesInto(u, HasInvitation, found[0]) == EdgesInto(s, HasInvitation, found[0]);
    }
  }

  lemma RegisterRestored(s: Store, u: Store, req: ScopeRequest, now: int)
    requires Restored(s, u)
    ensures RegisterScopePlan(u, req, now) == RegisterScopePlan(s, req, now)
  {
    var found := List(s.ents, TScope, Where(Name, Text(req.name)));
    assert List(u.ents, TScope, Where(Name, Text(req.name))) == found by {
      ListRestored(s, u, TScope, Where(Name, Text(req.name)));
    }
    if found != [] {
      assert u.ents[found[0]] == s.ents[found[0]] by {
        EntityRestored(s, u, found[0]);
      }
    }
  }

  lemma ClientRestored(s: Store, u: Store, op: Op)
    requires Restored(s, u) && (op.RotateClientSecret? || op.DeleteOAuthClient?)
    ensures Plan(u, op) == Plan(s, op)
  {
    ListRestored(s, u, TOAuthClient, Where(ClientId, Text(op.clientId)));
  }

  lemma KeyedRestored(s: Store, u: Store, op: Op)
    requires Restored(s, u) && (op.InviteUser? || op.CreateRole?)
    ensures Plan(u, op) == Plan(s, op)
  {
    match op
    case InviteUser(req, _, _) => ListRestored(s, u, TUser, Where(Email, Text(req.email)));
    case CreateRole(req, _) => ListRestored(s, u, TRole, Where(Name, Text(req.name)));
  }

  lemma OrgRestored(s: Store, u: Store, op: Op)
    requires Restored(s, u) && (op.UpdateOrganization? || op.DisableOrganization? || op.DeleteOrganization?)
    ensures Plan(u, op) == Plan(s, op)
  {
    ListRestored(s, u, TOrganization, Any);
  }

  lemma ByIdRestored(s: Store, u: Store, op: Op)
    requires Restored(s, u)
    requires op.ChangeUser? || op.UpdateRole? || op.DeleteRole? || op.DeprecateScope? || op.RevokeMembership? ||
             op.GrantMembership? || op.CreateOAuthClient?
    ensures Plan(u, op) == Plan(s, op)
  {
    if (op.ChangeUser? || op.UpdateRole? || op.DeleteRole?) && op.id < |s.ents| {
      EntityRestored(s, u, op.id);
      KeyRestored(s.ents[op.id], u.ents[op.id], EntityGraph.Builtin, Flag(true));
    }
  }

  /** No operation outside token_ops.go can tell whether tokens and revocations were purged. */
  lemma PlanRestored(s: Store, u: Store, op: Op)
    requires Restored(s, u) && !OnTokens(op)
    ensures Plan(u, op) == Plan(s, op)
  {
    match op
    case InitOrganization(req, now) => InitRestored(s, u, req, now);
    case AcceptInvitation(hash, checked, now) => AcceptRestored(s, u, hash, checked, now);
    case InviteUser(_, _, _) => KeyedRestored(s, u, op);
    case CreateRole(_, _) => KeyedRestored(s, u, op);
    case RegisterScope(req, now) => RegisterRestored(s, u, req, now);
    case RotateClientSecret(_, _, _) => ClientRestored(s, u, op);
    case DeleteOAuthClient(_) => ClientRestored(s, u, op);
    case UpdateOrganization(_, _) => OrgRestored(s, u, op);
    case DisableOrganization(_) => OrgRestored(s, u, op);
    case DeleteOrganization => OrgRestored(s, u, op);
    case _ => ByIdRestored(s, u, op);
  }

  /** What a run takes for granted about a call it may take for granted without the purges, too. */
  lemma AdmissibleRestored(s: Store, u: Store, op: Op)
    requires Restored(s, u) && Admissible(s, op) && !op.Purge?
    ensures Admissible(u, op)
  {
    match op
    case InviteUser(_, hash, _) => ListRestored(s, u, TInvitation, Where(TokenHash, Text(hash)));
    case CreateOAuthClient(_, clientId, _, _) => ListRestored(s, u, TOAuthClient, Where(ClientId, Text(clientId)));
    case Mint(_, hash, _, _) =>
      forall i | 0 <= i < |u.ents| && u.ents[i].typ in ARTIFACTS
        ensures !Has(u.ents[i], TokenHash, Text(hash))
      {
        KeyRestored(s.ents[i], u.ents[i], TokenHash, Text(hash));
      }
    case UpdateRole(id, _, _) => if id < |s.ents| { EntityRestored(s, u, id); }
    case DeleteRole(id) => if id < |s.ents| { EntityRestored(s, u, id); }
    case DeprecateScope(id, _) => if id < |s.ents| { EntityRestored(s, u, id); }
    case RevokeMembership(id, _) => if id < |s.ents| { EntityRestored(s, u, id); }
    case _ =>
  }

  lemma RevocationRestored(s: Store, u: Store, op: Op)
    requires s.agency == u.agency && op.Revoke?
    ensures RevocationOf(s, op).props - {ExpiresAt} == RevocationOf(u, op).props - {ExpiresAt}
  {
  }

  lemma TokenCallRestored(s: Store, u: Store, c: Call)
    requires Restored(s, u) && (c.op.Mint? || c.op.Revoke?)
    ensures Restored(AfterCall(s, c), AfterCall(u, c))
  {
    if c.op.Revoke? && c.done > 0 {
      RevokeCall(s, c);
      RevokeCall(u, c);
      RevocationRestored(s, u, c.op);
      RestoredCreate(s, u, TTokenRevocation, RevocationOf(s, c.op).props, RevocationOf(u, c.op).props);
    } else {
      SingleWriteCall(s, c);
      SingleWriteCall(u, c);
      if c.op.Mint? {
        var w := Plan(s, c.op).ws[0];
        RestoredCreate(s, u, w.typ, w.props, w.props);
      }
    }
  }

  lemma CallRestored(s: Store, u: Store, c: Call)
    requires Inv(s) && Admissible(s, c.op) && !c.op.Purge? && Restored(s, u)
    ensures Restored(AfterCall(s, c), AfterCall(u, c))
  {
    if OnTokens(c.op) {
      TokenCallRestored(s, u, c);
    } else {
      var ws := WritesOf(Plan(s, c.op));
      PlanRestored(s, u, c.op);
      PlanUnrelated(s, c.op);
      UnrelatedCut(s, ws, c.done);
      RestoredApplyAll(s, u, Cut(ws, c.done));
    }
  }

  lemma PurgeRestored(s: Store, u: Store, c: Call)
    requires c.op.Purge? && Admissible(s, c.op) && Restored(s, u)
    ensures Restored(AfterCall(s, c), u)
  {
    SingleWriteCall(s, c);
    var t := AfterCall(s, c);
    forall i | 0 <= i < |t.ents|
      ensures RestoredEntity(t.ents[i], u.ents[i])
    {
      assert RestoredEntity(s.ents[i], u.ents[i]);
    }
  }

  /** Taking the purges out of a valid run leaves a valid run, which leads to the same store with the purged
      records back - the expiry that a revocation recorded apart. */
  lemma {:induction false} RunRestored(agency: string, calls: seq<Call>)
    requires ValidRun(agency, calls)
    ensures ValidRun(agency, WithoutPurges(calls))
    ensures Restored(Run(agency, calls), Run(agency, WithoutPurges(calls)))
  {
    if |calls| > 0 {
      var before, c := calls[..|calls| - 1], calls[|calls| - 1];
      var s, u := Run(agency, before), Run(agency, WithoutPurges(before));
      SplitLast([], calls);
      RunRestored(agency, before);
      WithoutPurgesSnoc(before, c);
      if c.op.Purge? {
        PurgeRestored(s, u, c);
      } else {
        RunKeepsInv(agency, before);
        AdmissibleRestored(s, u, c.op);
        CallRestored(s, u, c);
        RunSnoc(agency, WithoutPurges(before), c);
      }
    }
  }

  /** Purging is invisible: for every hash whose revocation, if any, held, Introspect answers exactly as it
      would had nothing ever been purged. */
  lemma PurgingIsInvisible(agency: string, calls: seq<Call>, hash: string,
                           revocationsFail: bool, tokensFail: bool, nanos: int)
    requires ValidRun(agency, calls) && PurgedBy(calls, nanos) && RevokedForGood(agency, calls, hash)
    ensures Introspect(Run(agency, calls), hash, revocationsFail, tokensFail, nanos)
            == Introspect(Run(agency, WithoutPurges(calls)), hash, revocationsFail, tokensFail, nanos)
  {
    IntrospectRefinesRule(agency, calls, hash, revocationsFail, tokensFail, nanos);
    RunRestored(agency, calls);
    WithoutPurgesUnpurging(calls);
    LedgerWithoutPurges(calls);
    IntrospectWithoutPurging(agency, WithoutPurges(calls), hash, revocationsFail, tokensFail, nanos);
  }

  // ---------------------------------------------------------------- when every search found its token

  function Revive(e: Entity): Entity {
    if e.typ in ARTIFACTS then e.(deleted := false) else e
  }

  function ReviveAll(ents: seq<Entity>): seq<Entity> {
    seq(|ents|, i requires 0 <= i < |ents| => Revive(ents[i]))
  }

  function Unpurged(s: Store): Store {
    s.(ents := ReviveAll(s.ents))
  }

  /** Every recorded revocation found its token. */
  ghost predicate AllFound(agency: string, calls: seq<Call>) {
    |calls| == 0 ||
    (var before, c := calls[..|calls| - 1], calls[|calls| - 1];
     AllFound(agency, before) &&
     (c.op.Revoke? && c.done > 0 ==>
        SearchExpiry(Run(agency, before), c.op.hash, c.op.sawAccess, c.op.sawRefresh).Some?))
  }

  lemma UnpurgedIsRestored(s: Store)
    ensures Restored(s, Unpurged(s))
  {
  }

  lemma UnpurgedApply(s: Store, w: Write)
    requires w.Delete? && w.id < |s.ents| ==> s.ents[w.id].typ !in ARTIFACTS
    ensures Unpurged(Apply(s, w)) == Apply(Unpurged(s), w)
  {
    assert Unpurged(Apply(s, w)).ents == Apply(Unpurged(s), w).ents;
  }

  lemma {:induction false} UnpurgedApplyAll(s: Store, ws: seq<Write>)
    requires UnrelatedAll(s, ws)
    ensures Unpurged(ApplyAll(s, ws)) == ApplyAll(Unpurged(s), ws)
    decreases |ws|
  {
    if |ws| > 0 {
      UnpurgedApply(s, ws[0]);
      UnpurgedApplyAll(Apply(s, ws[0]), ws[1..]);
    }
  }

  /** A lookup that hits in the purged store hits the same token in the unpurged one. */
  lemma HitUnpurged(s: Store, typ: TypeName, hash: string)
    requires TokensSound(s) && (typ == TAccessToken || typ == TRefreshToken)
    requires ExpiryFrom(s, typ, hash).Some?
    ensures ExpiryFrom(Unpurged(s), typ, hash) == ExpiryFrom(s, typ, hash)
  {
    var u, f := Unpurged(s), Where(TokenHash, Text(hash));
    var here, there := List(s.ents, typ, f), List(u.ents, typ, f);
    assert Matches(u.ents[here[0]], typ, f);
    assert here[0] in there;
    assert Matches(u.ents[there[0]], typ, f) && Matches(s.ents[here[0]], typ, f);
    assert IsToken(s.ents[here[0]]) && HashOf(s.ents[here[0]]) == Text(hash);
    assert IsToken(s.ents[there[0]]) && HashOf(s.ents[there[0]]) == Text(hash);
  }

  lemma UnpurgedHitIsRecord(s: Store, typ: TypeName, hash: string)
    requires ExpiryFrom(Unpurged(s), typ, hash).Some?
    ensures exists i :: 0 <= i < |s.ents| && s.ents[i].typ == typ && HashOf(s.ents[i]) == Text(hash)
  {
    var u, f := Unpurged(s), Where(TokenHash, Text(hash));
    var there := List(u.ents, typ, f);
    assert Matches(u.ents[there[0]], typ, f);
    assert s.ents[there[0]].typ == typ && HashOf(s.ents[there[0]]) == Text(hash);
  }

  lemma SearchUnpurged(s: Store, hash: string, sawAccess: bool, sawRefresh: bool)
    requires TokensSound(s) && SearchExpiry(s, hash, sawAccess, sawRefresh).Some?
    ensures SearchExpiry(Unpurged(s), hash, sawAccess, sawRefresh) == SearchExpiry(s, hash, sawAccess, sawRefresh)
  {
    if sawAccess && ExpiryFrom(s, TAccessToken, hash).Some? {
      HitUnpurged(s, TAccessToken, hash);
    } else {
      HitUnpurged(s, TRefreshToken, hash);
      if ExpiryFrom(Unpurged(s), TAccessToken, hash).Some? {
        UnpurgedHitIsRecord(s, TAccessToken, hash);
        UnpurgedHitIsRecord(s, TRefreshToken, hash);
        var i :| 0 <= i < |s.ents| && s.ents[i].typ == TAccessToken && HashOf(s.ents[i]) == Text(hash);
        var j :| 0 <= j < |s.ents| && s.ents[j].typ == TRefreshToken && HashOf(s.ents[j]) == Text(hash);
        assert IsToken(s.ents[i]) && IsToken(s.ents[j]);
        assert false;
      }
    }
  }

  lemma UnpurgedCall(s: Store, c: Call)
    requires Inv(s) && TokensSound(s) && Admissible(s, c.op) && !c.op.Purge?
    requires c.op.Revoke? && c.done > 0 ==> SearchExpiry(s, c.op.hash, c.op.sawAccess, c.op.sawRefresh).Some?
    ensures AfterCall(Unpurged(s), c) == Unpurged(AfterCall(s, c))
  {
    if OnTokens(c.op) {
      SingleWriteCall(s, c);
      SingleWriteCall(Unpurged(s), c);
      UnpurgedApply(s, Plan(s, c.op).ws[0]);
      if c.op.Revoke? && c.done > 0 {
        SearchUnpurged(s, c.op.hash, c.op.sawAccess, c.op.sawRefresh);
      }
    } else {
      var ws := WritesOf(Plan(s, c.op));
      UnpurgedIsRestored(s);
      PlanRestored(s, Unpurged(s), c.op);
      PlanUnrelated(s, c.op);
      UnrelatedCut(s, ws, c.done);
      UnpurgedApplyAll(s, Cut(ws, c.done));
    }
  }

  lemma UnpurgedPurge(s: Store, c: Call)
    requires c.op.Purge? && Admissible(s, c.op)
    ensures Unpurged(AfterCall(s, c)) == Unpurged(s)
  {
    SingleWriteCall(s, c);
    assert Unpurged(AfterCall(s, c)).ents == Unpurged(s).ents;
  }

  lemma RunUnpurgedStep(agency: string, before: seq<Call>, c: Call)
    requires ValidRun(agency, before + [c]) && AllFound(agency, before + [c])
    requires Run(agency, WithoutPurges(before)) == Unpurged(Run(agency, before))
    ensures Run(agency, WithoutPurges(before + [c])) == Unpurged(Run(agency, before + [c]))
  {
    var s := Run(agency, before);
    assert (before + [c])[..|before|] == before;
    RunSnoc(agency, before, c);
    WithoutPurgesSnoc(before, c);
    if c.op.Purge? {
      UnpurgedPurge(s, c);
    } else {
      assert Inv(s) && TokensSound(s) by {
        RunKeepsInv(agency, before);
        RunTokensSound(agency, before);
      }
      UnpurgedCall(s, c);
      RunSnoc(agency, WithoutPurges(before), c);
    }
  }

  /** In a run in which every recorded revocation found its token, taking the purges out gives the very same store
      with the purged records back. */
  lemma {:induction false} RunUnpurged(agency: string, calls: seq<Call>)
    requires ValidRun(agency, calls) && AllFound(agency, calls)
    ensures Run(agency, WithoutPurges(calls)) == Unpurged(Run(agency, calls))
  {
    if |calls| > 0 {
      var before, c := calls[..|calls| - 1], calls[|calls| - 1];
      SplitLast([], calls);
      RunUnpurged(agency, before);
      RunUnpurgedStep(agency, before, c);
    }
  }

  // ---------------------------------------------------------------- when a revocation is for good

  lemma {:induction false} MoreKept(agency: string, calls: seq<Call>, more: seq<Call>, nanos: int)
    requires ValidRun(agency, calls + more) && PurgedBy(more, nanos)
    ensures Kept(Run(agency, calls), Run(agency, calls + more), nanos)
    decreases |more|
  {
    if |more| == 0 {
      assert calls + more == calls;
    } else {
      var before, c := more[..|more| - 1], more[|more| - 1];
      assert c in more && forall d :: d in before ==> d in more;
      SplitLast(calls, more);
      RunSnoc(agency, calls + before, c);
      MoreKept(agency, calls, before, nanos);
      OneMoreKept(agency, calls + before, c, nanos);
      KeptTransitive(Run(agency, calls), Run(agency, calls + before), Run(agency, calls + more), nanos);
    }
  }

  lemma OneMoreKept(agency: string, calls: seq<Call>, c: Call, nanos: int)
    requires ValidRun(agency, calls + [c]) && (c.op.Purge? ==> c.op.at <= nanos)
    ensures Kept(Run(agency, calls), Run(agency, calls + [c]), nanos)
  {
    RunSnoc(agency, calls, c);
    RunKeepsInv(agency, calls);
    RunTokensSound(agency, calls);
    CallKeptAndSound(Run(agency, calls), c, nanos);
  }

  /** The instant a stored second begins; the clock is past the second from the next nanosecond on. */
  function StartOf(sec: int): int {
    sec * 1_000_000_000
  }

  /** However the run goes on, an introspection that reads the clock no earlier than `clock` does not call the
      hash active. */
  ghost predicate NeverActiveAgain(agency: string, calls: seq<Call>, hash: string, clock: int) {
    forall more, nanos :: ValidRun(agency, calls + more) && PurgedBy(more, nanos) && clock <= nanos ==>
      Introspect(Run(agency, calls + more), hash, false, false, nanos) == Inactive
  }

  /** A listed revocation that expires no earlier than the token keeps it inactive for good. */
  lemma CoveredIsFinal(agency: string, calls: seq<Call>, hash: string, i: Id, r: Id, more: seq<Call>, nanos: int)
    requires ValidRun(agency, calls + more) && PurgedBy(more, nanos)
    requires var s := Run(agency, calls);
      AccessRecord(s, i, hash) && RevocationRecord(s, r, hash) && !s.ents[r].deleted && Outlasts(s, r, i)
    ensures Introspect(Run(agency, calls + more), hash, false, false, nanos) == Inactive
  {
    var s, t := Run(agency, calls), Run(agency, calls + more);
    MoreKept(agency, calls, more, nanos);
    RunTokensSound(agency, calls + more);
    assert KeptEntity(s.ents[i], t.ents[i], nanos) && KeptEntity(s.ents[r], t.ents[r], nanos);
    if !t.ents[r].deleted {
      assert r in RevocationsOf(t, hash);
    } else {
      PastExpiry(t, hash, i, nanos);
    }
  }

  /** The only token of a hash is past its expiry. */
  lemma PastExpiry(t: Store, hash: string, i: Id, nanos: int)
    requires TokensSound(t) && AccessRecord(t, i, hash) &&
             (WellTimed(t.ents[i]) ==> After(nanos, t.ents[i].props[ExpiresAt].sec))
    ensures Introspect(t, hash, false, false, nanos) == Inactive
  {
    if AccessTokensOf(t, hash) != [] {
      var a := AccessTokensOf(t, hash)[0];
      assert IsToken(t.ents[a]) && IsToken(t.ents[i]) && HashOf(t.ents[a]) == HashOf(t.ents[i]);
      assert a == i;
    }
  }

  lemma ExpiredIsFinal(agency: string, calls: seq<Call>, hash: string, i: Id, clock: int)
    requires var s := Run(agency, calls);
      AccessRecord(s, i, hash) && WellTimed(s.ents[i]) && After(clock, s.ents[i].props[ExpiresAt].sec)
    ensures NeverActiveAgain(agency, calls, hash, clock)
  {
    var s := Run(agency, calls);
    forall more, nanos | ValidRun(agency, calls + more) && PurgedBy(more, nanos) && clock <= nanos
      ensures Introspect(Run(agency, calls + more), hash, false, false, nanos) == Inactive
    {
      MoreKept(agency, calls, more, nanos);
      RunTokensSound(agency, calls + more);
      assert KeptEntity(s.ents[i], Run(agency, calls + more).ents[i], nanos);
      PastExpiry(Run(agency, calls + more), hash, i, nanos);
    }
  }

  /** The store right after a recorded revocation. */
  lemma AfterRevoke(agency: string, calls: seq<Call>, op: Op)
    requires ValidRun(agency, calls) && op.Revoke?
    ensures ValidRun(agency, calls + [Call(op, 1)])
    ensures var s := Run(agency, calls);
      Run(agency, calls + [Call(op, 1)]) == s.(ents := s.ents + [RevocationOf(s, op)])
  {
    RunSnoc(agency, calls, Call(op, 1));
    RevokeCall(Run(agency, calls), Call(op, 1));
  }

  /** A revocation is final when its search found the token or the token has expired by then. */
  lemma RevokeIsFinal(agency: string, calls: seq<Call>, op: Op, i: Id, clock: int)
    requires ValidRun(agency, calls) && op.Revoke?
    requires var s := Run(agency, calls); AccessRecord(s, i, op.hash) && WellTimed(s.ents[i])
    requires SearchExpiry(Run(agency, calls), op.hash, op.sawAccess, op.sawRefresh).Some? ||
             Run(agency, calls).ents[i].props[ExpiresAt].sec <= op.now
    ensures NeverActiveAgain(agency, calls + [Call(op, 1)], op.hash, clock)
  {
    var s, after, r := Run(agency, calls), calls + [Call(op, 1)], |Run(agency, calls).ents|;
    AfterRevoke(agency, calls, op);
    assert Run(agency, after).ents[i] == s.ents[i] && Run(agency, after).ents[r] == RevocationOf(s, op);
    assert RevocationRecord(Run(agency, after), r, op.hash) && AccessRecord(Run(agency, after), i, op.hash) by {
      RevocationFields(s, op);
    }
    assert RevocationOf(s, op).props[ExpiresAt].At? &&
           s.ents[i].props[ExpiresAt].sec <= RevocationOf(s, op).props[ExpiresAt].sec by {
      RevocationFields(s, op);
      RunTokensSound(agency, calls);
      if SearchExpiry(s, op.hash, op.sawAccess, op.sawRefresh).Some? {
        FoundIsOwnExpiry(s, op.hash, i, op.sawAccess, op.sawRefresh);
      }
    }
    forall more, nanos | ValidRun(agency, after + more) && PurgedBy(more, nanos) && clock <= nanos
      ensures Introspect(Run(agency, after + more), op.hash, false, false, nanos) == Inactive
    {
      CoveredIsFinal(agency, after, op.hash, i, r, more, nanos);
    }
  }

  /** With its only revocation purged, a listed token that has not expired is active. */
  lemma ActiveWithoutRevocation(s: Store, t: Store, hash: string, i: Id, nanos: int)
    requires TokensSound(t) && |t.ents| == |s.ents| + 1 && t.ents[..|s.ents|] == s.ents && t.ents[|s.ents|].deleted
    requires RevocationsOf(s, hash) == []
    requires AccessRecord(s, i, hash) && !s.ents[i].deleted && WellTimed(s.ents[i])
    requires !After(nanos, s.ents[i].props[ExpiresAt].sec)
    ensures Introspect(t, hash, false, false, nanos) != Inactive
  {
    assert t.ents[i] == t.ents[..|s.ents|][i];
    assert RevocationsOf(t, hash) == [];
    FirstAccessToken(t, hash, i);
  }

  lemma RevocationIsPurgeable(s: Store, op: Op, nanos: int)
    requires op.Revoke? && SearchExpiry(s, op.hash, op.sawAccess, op.sawRefresh).None? && After(nanos, op.now)
    ensures Purgeable(s.(ents := s.ents + [RevocationOf(s, op)]), |s.ents|, nanos)
  {
    RevocationFields(s, op);
  }

  /** A revocation whose search found nothing can be purged as soon as the clock is past the start of the
      second it was recorded in. */
  lemma RevokedThenPurged(agency: string, calls: seq<Call>, s: Store, op: Op, nanos: int)
    requires ValidRun(agency, calls) && s == Run(agency, calls) && op.Revoke?
    requires SearchExpiry(s, op.hash, op.sawAccess, op.sawRefresh).None? && After(nanos, op.now)
    ensures var whole := calls + [Call(op, 1)] + [Call(Purge(|s.ents|, nanos), 1)];
      ValidRun(agency, whole) && Run(agency, whole).ents == s.ents + [RevocationOf(s, op).(deleted := true)]
  {
    AfterRevoke(agency, calls, op);
    RevocationIsPurgeable(s, op, nanos);
    PurgeCall(agency, calls + [Call(op, 1)], |s.ents|, nanos);
  }

  lemma NotForGood(agency: string, calls: seq<Call>, c: Call, hash: string, clock: int, nanos: int)
    requires ValidRun(agency, calls + [c]) && (c.op.Purge? ==> c.op.at <= nanos) && clock <= nanos
    requires Introspect(Run(agency, calls + [c]), hash, false, false, nanos) != Inactive
    ensures !NeverActiveAgain(agency, calls, hash, clock)
  {
    assert PurgedBy([c], nanos);
  }

  /** When the search found nothing, the revocation expires at once: as long as the clock is not past the token's
      expiry, purge it in the token's last second and the revoked token is active again. */
  lemma LostRevocation(agency: string, calls: seq<Call>, s: Store, op: Op, i: Id, clock: int)
    requires ValidRun(agency, calls) && s == Run(agency, calls) && op.Revoke?
    requires AccessRecord(s, i, op.hash) && !s.ents[i].deleted && RevocationsOf(s, op.hash) == []
    requires WellTimed(s.ents[i]) && op.now < s.ents[i].props[ExpiresAt].sec
    requires SearchExpiry(s, op.hash, op.sawAccess, op.sawRefresh).None?
    requires !After(clock, s.ents[i].props[ExpiresAt].sec)
    ensures !NeverActiveAgain(agency, calls + [Call(op, 1)], op.hash, clock)
  {
    var nanos := StartOf(s.ents[i].props[ExpiresAt].sec);
    var purge := Call(Purge(|s.ents|, nanos), 1);
    var whole := calls + [Call(op, 1)] + [purge];
    RevokedThenPurged(agency, calls, s, op, nanos);
    RunTokensSound(agency, whole);
    ActiveWithoutRevocation(s, Run(agency, whole), op.hash, i, nanos);
    NotForGood(agency, calls + [Call(op, 1)], purge, op.hash, clock, nanos);
  }

  lemma PurgeStep(s: Store, id: Id, at: int)
    requires Purgeable(s, id, at)
    ensures Admissible(s, Purge(id, at))
    ensures AfterCall(s, Call(Purge(id, at), 1)) == Apply(s, Delete(id))
  {
    assert [Delete(id)][..1] == [Delete(id)];
    assert ApplyAll(s, [Delete(id)]) == Apply(s, Delete(id));
  }

  lemma PurgeCall(agency: string, calls: seq<Call>, id: Id, at: int)
    requires ValidRun(agency, calls) && Purgeable(Run(agency, calls), id, at)
    ensures ValidRun(agency, calls + [Call(Purge(id, at), 1)])
    ensures Run(agency, calls + [Call(Purge(id, at), 1)]) == Apply(Run(agency, calls), Delete(id))
  {
    PurgeStep(Run(agency, calls), id, at);
    RunSnoc(agency, calls, Call(Purge(id, at), 1));
  }

  lemma OneCall(agency: string, op: Op, w: Write)
    requires Admissible(EmptyStore(agency), op) && Plan(EmptyStore(agency), op) == Writes([w])
    ensures ValidRun(agency, [Call(op, 1)]) && Run(agency, [Call(op, 1)]) == Apply(EmptyStore(agency), w)
  {
    RunSnoc(agency, [], Call(op, 1));
    assert [] + [Call(op, 1)] == [Call(op, 1)];
    SingleWriteCall(EmptyStore(agency), Call(op, 1));
  }

  lemma OneToken(s: Store, p: Props, hash: string, expires: int)
    requires s.ents == [Entity(TAccessToken, p, false)] && expires != ZERO_TIME
    requires TokenHash in p && p[TokenHash] == Text(hash) && ExpiresAt in p && p[ExpiresAt] == At(expires)
    ensures AccessRecord(s, 0, hash) && !s.ents[0].deleted && RevocationsOf(s, hash) == []
    ensures WellTimed(s.ents[0]) && s.ents[0].props[ExpiresAt] == At(expires)
  {
    forall i | 0 <= i < |s.ents|
      ensures !Matches(s.ents[i], TTokenRevocation, Where(TokenHash, Text(hash)))
    {
    }
    ListEmpty(s.ents, TTokenRevocation, Where(TokenHash, Text(hash)));
  }

  lemma Minted(agency: string, hash: string, expires: int, now: int, s: Store)
    requires expires != ZERO_TIME && s == Run(agency, [Call(Mint(false, hash, expires, now), 1)])
    ensures ValidRun(agency, [Call(Mint(false, hash, expires, now), 1)])
    ensures AccessRecord(s, 0, hash) && !s.ents[0].deleted && RevocationsOf(s, hash) == []
    ensures WellTimed(s.ents[0]) && s.ents[0].props[ExpiresAt] == At(expires)
  {
    var p := TokenProps(agency, hash, expires, now);
    OneCall(agency, Mint(false, hash, expires, now), Create(TAccessToken, p));
    assert p[TokenHash] == Text(hash) && p[ExpiresAt] == At(expires);
    OneToken(s, p, hash, expires);
  }

  /** A concrete run in which a revocation is lost: a token that expires at second 100 is revoked at second 50
      while both lookups fail, and may be active again at any clock up to second 100. */
  lemma LostRevocationExample(agency: string, minted: seq<Call>, revoke: Op, clock: int)
    requires minted == [Call(Mint(false, "hash", 100, 0), 1)] && revoke == Op.Revoke("hash", false, false, "", 50)
    requires clock <= StartOf(100)
    ensures ValidRun(agency, minted + [Call(revoke, 1)])
    ensures !NeverActiveAgain(agency, minted + [Call(revoke, 1)], "hash", clock)
  {
    var s := Run(agency, minted);
    Minted(agency, "hash", 100, 0, s);
    AfterRevoke(agency, minted, revoke);
    LostRevocation(agency, minted, s, revoke, 0, clock);
  }

  /** The first recorded revocation of a listed access token is final, from the clock on, exactly when its search
      found a token, or the token's expiry is no later than the second of the revocation, or the clock is past it. */
  lemma RevokeIsFinalExactly(agency: string, calls: seq<Call>, op: Op, i: Id, clock: int)
    requires ValidRun(agency, calls) && op.Revoke?
    requires var s := Run(agency, calls);
      AccessRecord(s, i, op.hash) && !s.ents[i].deleted && RevocationsOf(s, op.hash) == []
    ensures WellTimed(Run(agency, calls).ents[i])
    ensures var expiry := Run(agency, calls).ents[i].props[ExpiresAt].sec;
      NeverActiveAgain(agency, calls + [Call(op, 1)], op.hash, clock) <==>
      SearchExpiry(Run(agency, calls), op.hash, op.sawAccess, op.sawRefresh).Some? || expiry <= op.now ||
      After(clock, expiry)
  {
    var s := Run(agency, calls);
    RunTokensSound(agency, calls);
    assert IsToken(s.ents[i]);
    if SearchExpiry(s, op.hash, op.sawAccess, op.sawRefresh).Some? || s.ents[i].props[ExpiresAt].sec <= op.now {
      RevokeIsFinal(agency, calls, op, i, clock);
    } else if After(clock, s.ents[i].props[ExpiresAt].sec) {
      AfterRevoke(agency, calls, op);
      assert Run(agency, calls + [Call(op, 1)]).ents[i] == s.ents[i];
      ExpiredIsFinal(agency, calls + [Call(op, 1)], op.hash, i, clock);
    } else {
      LostRevocation(agency, calls, s, op, i, clock);
    }
  }

  // ---------------------------------------------------------------- when introspection follows the rule

  ghost predicate PurgesOnly(more: seq<Call>) {
    forall c :: c in more ==> c.op.Purge?
  }

  /** Whatever is purged from now on, every Introspect that reads the clock no earlier than `clock` answers by the
      rule as long as no lookup fails. */
  ghost predicate FollowsRule(agency: string, calls: seq<Call>, hash: string, clock: int) {
    forall more, nanos ::
      ValidRun(agency, calls + more) && PurgesOnly(more) && PurgedBy(calls + more, nanos) && clock <= nanos ==>
      Introspect(Run(agency, calls + more), hash, false, false, nanos) == Rule(LedgerOf(calls), hash, nanos)
  }

  lemma {:induction false} LedgerOverPurges(calls: seq<Call>, more: seq<Call>)
    requires PurgesOnly(more)
    ensures LedgerOf(calls + more) == LedgerOf(calls)
    decreases |more|
  {
    if |more| == 0 {
      assert calls + more == calls;
    } else {
      var before, c := more[..|more| - 1], more[|more| - 1];
      assert c in more && forall d :: d in before ==> d in more;
      SplitLast(calls, more);
      LedgerOverPurges(calls, before);
      NoteSnoc(calls + before, c);
    }
  }

  lemma {:induction false} HeldStays(agency: string, calls: seq<Call>, more: seq<Call>, hash: string)
    requires HeldRevoke(agency, calls, hash)
    ensures HeldRevoke(agency, calls + more, hash)
    decreases |more|
  {
    if |more| == 0 {
      assert calls + more == calls;
    } else {
      var n := |more| - 1;
      assert (calls + more)[..|calls + more| - 1] == calls + more[..n];
      HeldStays(agency, calls, more[..n], hash);
    }
  }

  lemma HeldFollowsRule(agency: string, calls: seq<Call>, hash: string, clock: int)
    requires RevokedForGood(agency, calls, hash)
    ensures FollowsRule(agency, calls, hash, clock)
  {
    forall more, nanos | ValidRun(agency, calls + more) && PurgesOnly(more) && PurgedBy(calls + more, nanos) &&
                         clock <= nanos
      ensures Introspect(Run(agency, calls + more), hash, false, false, nanos) == Rule(LedgerOf(calls), hash, nanos)
    {
      LedgerOverPurges(calls, more);
      if hash in LedgerOf(calls).revoked {
        HeldStays(agency, calls, more, hash);
      }
      IntrospectRefinesRule(agency, calls + more, hash, false, false, nanos);
    }
  }

  /** A token that was minted and that the clock is not past the expiry of. */
  predicate Current(l: Ledger, hash: string, clock: int) {
    hash in l.minted && !After(clock, l.minted[hash].0)
  }

  lemma ExpiredFollowsRule(agency: string, calls: seq<Call>, hash: string, clock: int)
    requires !Current(LedgerOf(calls), hash, clock)
    ensures FollowsRule(agency, calls, hash, clock)
  {
    forall more, nanos | ValidRun(agency, calls + more) && PurgesOnly(more) && PurgedBy(calls + more, nanos) &&
                         clock <= nanos
      ensures Introspect(Run(agency, calls + more), hash, false, false, nanos) == Rule(LedgerOf(calls), hash, nanos)
    {
      LedgerOverPurges(calls, more);
      RunTracks(agency, calls + more, nanos);
      ExpiredIsInactive(Run(agency, calls + more), LedgerOf(calls), hash, nanos);
    }
  }

  /** A revocation that did not hold expires before its token does. */
  ghost predicate AllShort(s: Store, hash: string, sec: int) {
    forall r: Id :: RevocationRecord(s, r, hash) ==>
      ExpiresAt in s.ents[r].props && s.ents[r].props[ExpiresAt].At? && s.ents[r].props[ExpiresAt].sec < sec
  }

  lemma ShortRevocation(s: Store, op: Op, i: Id, sec: int)
    requires TokensSound(s) && op.Revoke? && !Holds(s, op)
    requires AccessRecord(s, i, op.hash) && Has(s.ents[i], ExpiresAt, At(sec))
    ensures RevocationOf(s, op).props[ExpiresAt] == At(op.now) && op.now < sec
  {
    RevocationFields(s, op);
    var j: Id :| AccessRecord(s, j, op.hash) && !s.ents[j].deleted &&
                 !(WellTimed(s.ents[j]) && s.ents[j].props[ExpiresAt].sec <= op.now);
    assert IsToken(s.ents[i]) && IsToken(s.ents[j]) && HashOf(s.ents[i]) == HashOf(s.ents[j]);
    assert j == i;
  }

  lemma NewRevocation(s: Store, c: Call, hash: string, r: Id)
    requires Inv(s) && Admissible(s, c.op) && RevocationRecord(AfterCall(s, c), r, hash) && r >= |s.ents|
    ensures c.op.Revoke? && c.op.hash == hash && c.done > 0 && r == |s.ents|
  {
    if !OnTokens(c.op) {
      CallUntouched(s, c);
      FootprintApart(c.op);
    } else if c.op.Revoke? && c.done > 0 {
      RevokeCall(s, c);
      RevocationFields(s, c.op);
    } else {
      SingleWriteCall(s, c);
    }
  }

  lemma ShortAfterCall(s: Store, t: Store, c: Call, hash: string, i: Id, sec: int, nanos: int)
    requires Inv(s) && TokensSound(s) && Admissible(s, c.op) && t == AfterCall(s, c) && Kept(s, t, nanos)
    requires AllShort(s, hash, sec) && !HoldingCall(s, c, hash)
    requires AccessRecord(t, i, hash) && Has(t.ents[i], ExpiresAt, At(sec))
    ensures AllShort(t, hash, sec)
  {
    forall r: Id | RevocationRecord(t, r, hash)
      ensures ExpiresAt in t.ents[r].props && t.ents[r].props[ExpiresAt].At? && t.ents[r].props[ExpiresAt].sec < sec
    {
      if r < |s.ents| {
        assert KeptEntity(s.ents[r], t.ents[r], nanos);
        assert RevocationRecord(s, r, hash);
      } else {
        NewRevocation(s, c, hash, r);
        RevokeCall(s, c);
        assert t.ents[r] == RevocationOf(s, c.op) && i < r && t.ents[i] == s.ents[i];
        RevocationFields(s, c.op);
        ShortRevocation(s, c.op, i, sec);
      }
    }
  }

  /** If no revocation of a hash held, all of them expire before the token. */
  lemma {:induction false} UnheldIsShort(agency: string, calls: seq<Call>, hash: string, i: Id, sec: int)
    requires ValidRun(agency, calls) && !HeldRevoke(agency, calls, hash)
    requires AccessRecord(Run(agency, calls), i, hash) && Has(Run(agency, calls).ents[i], ExpiresAt, At(sec))
    ensures AllShort(Run(agency, calls), hash, sec)
  {
    if |calls| > 0 {
      var before, c := calls[..|calls| - 1], calls[|calls| - 1];
      var s, t, nanos := Run(agency, before), Run(agency, calls), if c.op.Purge? then c.op.at else 0;
      RunKeepsInv(agency, before);
      RunTokensSound(agency, before);
      CallKeptAndSound(s, c, nanos);
      if r: Id :| RevocationRecord(s, r, hash) {
        NoNewToken(s, c, hash, r, i);
        assert KeptEntity(s.ents[i], t.ents[i], nanos);
        assert AccessRecord(s, i, hash) && Has(s.ents[i], ExpiresAt, At(sec));
        UnheldIsShort(agency, before, hash, i, sec);
      }
      ShortAfterCall(s, t, c, hash, i, sec, nanos);
    }
  }

  /** Nothing but revocations of the hash may have been purged. */
  predicate SameEntity(a: Entity, b: Entity, hash: string) {
    a.typ == b.typ && a.props == b.props &&
    (a.deleted ==> b.deleted) &&
    (b.deleted && !a.deleted ==> a.typ == TTokenRevocation && Has(a, TokenHash, Text(hash)))
  }

  ghost predicate SameButPurged(s: Store, t: Store, hash: string, k: nat) {
    |s.ents| == |t.ents| && k <= |t.ents| &&
    (forall i :: 0 <= i < |s.ents| ==> SameEntity(s.ents[i], t.ents[i], hash)) &&
    (forall r: Id :: r < k && RevocationRecord(t, r, hash) ==> t.ents[r].deleted)
  }

  lemma OneMorePurged(s: Store, t: Store, hash: string, r: Id)
    requires SameButPurged(s, t, hash, r) && RevocationRecord(t, r, hash)
    ensures SameButPurged(s, Apply(t, Delete(r)), hash, r + 1)
  {
    var u := Apply(t, Delete(r));
    assert forall i :: 0 <= i < |s.ents| ==> SameEntity(s.ents[i], t.ents[i], hash);
    assert forall i: Id :: i < r && RevocationRecord(u, i, hash) ==> RevocationRecord(t, i, hash);
  }

  lemma OneLessListed(s: Store, t: Store, hash: string, r: Id)
    requires SameButPurged(s, t, hash, r) && r < |t.ents| && (RevocationRecord(t, r, hash) ==> t.ents[r].deleted)
    ensures SameButPurged(s, t, hash, r + 1)
  {
  }

  ghost predicate AllPurgeable(s: Store, hash: string, nanos: int) {
    forall r: Id :: RevocationRecord(s, r, hash) && !s.ents[r].deleted ==> Purgeable(s, r, nanos)
  }

  lemma ShortIsPurgeable(s: Store, hash: string, sec: int)
    requires AllShort(s, hash, sec)
    ensures AllPurgeable(s, hash, StartOf(sec))
  {
  }

  /** `more` are purges up to `nanos` that hide the revocations of the hash among the first `k` records. */
  ghost predicate Hides(agency: string, calls: seq<Call>, more: seq<Call>, hash: string, k: nat, nanos: int) {
    ValidRun(agency, calls + more) && PurgesOnly(more) && PurgedBy(more, nanos) &&
    SameButPurged(Run(agency, calls), Run(agency, calls + more), hash, k)
  }

  lemma HideNone(agency: string, calls: seq<Call>, hash: string, nanos: int)
    requires ValidRun(agency, calls)
    ensures Hides(agency, calls, [], hash, 0, nanos)
  {
    assert calls + [] == calls;
  }

  lemma HideListed(agency: string, calls: seq<Call>, more: seq<Call>, longer: seq<Call>, t: Store, hash: string,
                   r: Id, nanos: int)
    requires Hides(agency, calls, more, hash, r, nanos) && AllPurgeable(Run(agency, calls), hash, nanos)
    requires t == Run(agency, calls + more) && RevocationRecord(t, r, hash) && !t.ents[r].deleted
    requires longer == more + [Call(Purge(r, nanos), 1)]
    ensures Hides(agency, calls, longer, hash, r + 1, nanos)
  {
    var s := Run(agency, calls);
    assert SameEntity(s.ents[r], t.ents[r], hash);
    assert RevocationRecord(s, r, hash);
    PurgeCall(agency, calls + more, r, nanos);
    assert calls + longer == calls + more + [Call(Purge(r, nanos), 1)];
    OneMorePurged(s, t, hash, r);
  }

  lemma HideUnlisted(agency: string, calls: seq<Call>, more: seq<Call>, t: Store, hash: string, r: Id, nanos: int)
    requires Hides(agency, calls, more, hash, r, nanos) && t == Run(agency, calls + more) && r < |t.ents|
    requires RevocationRecord(t, r, hash) ==> t.ents[r].deleted
    ensures Hides(agency, calls, more, hash, r + 1, nanos)
  {
    OneLessListed(Run(agency, calls), t, hash, r);
  }

  lemma HideNext(agency: string, calls: seq<Call>, fewer: seq<Call>, hash: string, r: Id, nanos: int)
    returns (more: seq<Call>)
    requires Hides(agency, calls, fewer, hash, r, nanos) && AllPurgeable(Run(agency, calls), hash, nanos)
    requires r < |Run(agency, calls).ents|
    ensures Hides(agency, calls, more, hash, r + 1, nanos)
  {
    var t := Run(agency, calls + fewer);
    if RevocationRecord(t, r, hash) && !t.ents[r].deleted {
      more := fewer + [Call(Purge(r, nanos), 1)];
      HideListed(agency, calls, fewer, more, t, hash, r, nanos);
    } else {
      more := fewer;
      HideUnlisted(agency, calls, fewer, t, hash, r, nanos);
    }
  }

  lemma {:induction false} PurgeRevocations(agency: string, calls: seq<Call>, hash: string, k: nat, nanos: int)
    returns (more: seq<Call>)
    requires ValidRun(agency, calls) && AllPurgeable(Run(agency, calls), hash, nanos) && k <= |Run(agency, calls).ents|
    ensures Hides(agency, calls, more, hash, k, nanos)
    decreases k
  {
    if k == 0 {
      more := [];
      HideNone(agency, calls, hash, nanos);
    } else {
      more := PurgeRevocations(agency, calls, hash, k - 1, nanos);
      more := HideNext(agency, calls, more, hash, k - 1, nanos);
    }
  }

  /** A hash that was revoked, but not to effect, is active again in its token's last instant once its revocations
      are purged. */
  lemma UnheldBreaksRule(agency: string, calls: seq<Call>, hash: string, clock: int)
    requires ValidRun(agency, calls) && PurgedBy(calls, clock) && !RevokedForGood(agency, calls, hash)
    requires Current(LedgerOf(calls), hash, clock)
    ensures !FollowsRule(agency, calls, hash, clock)
  {
    var s, l := Run(agency, calls), LedgerOf(calls);
    var sec := l.minted[hash].0;
    var nanos := StartOf(sec);
    RunTracks(agency, calls, nanos);
    var i: Id :| AccessRecord(s, i, hash);
    UnheldIsShort(agency, calls, hash, i, sec);
    ShortIsPurgeable(s, hash, sec);
    var more := PurgeRevocations(agency, calls, hash, |s.ents|, nanos);
    var t := Run(agency, calls + more);
    LedgerOverPurges(calls, more);
    RunTracks(agency, calls + more, nanos);
    UnlistedIsActive(s, t, l, hash, nanos);
    assert Rule(l, hash, nanos) == Inactive;
    assert Introspect(t, hash, false, false, nanos) != Rule(l, hash, nanos);
  }

  lemma AllHidden(s: Store, t: Store, hash: string)
    requires SameButPurged(s, t, hash, |s.ents|)
    ensures RevocationsOf(t, hash) == []
  {
    forall r | 0 <= r < |t.ents|
      ensures !Matches(t.ents[r], TTokenRevocation, Where(TokenHash, Text(hash)))
    {
      if RevocationRecord(t, r, hash) {
        assert t.ents[r].deleted;
      }
    }
    ListEmpty(t.ents, TTokenRevocation, Where(TokenHash, Text(hash)));
  }

  lemma UnlistedIsActive(s: Store, t: Store, l: Ledger, hash: string, nanos: int)
    requires Tracks(t, l, nanos) && SameButPurged(s, t, hash, |s.ents|)
    requires hash in l.minted && !After(nanos, l.minted[hash].0)
    ensures Introspect(t, hash, false, false, nanos).ActiveToken?
  {
    AllHidden(s, t, hash);
    CurrentIsActive(t, l, hash, nanos);
  }

  /** The exact condition, for every clock no earlier than the purges so far: Introspect follows the rule for a hash
      from then on, whatever is purged, if and only if it was never revoked or a revocation of it held, or it was
      never minted, or the clock is past its expiry. */
  lemma FollowsRuleExactly(agency: string, calls: seq<Call>, hash: string, clock: int)
    requires ValidRun(agency, calls) && PurgedBy(calls, clock)
    ensures FollowsRule(agency, calls, hash, clock) <==>
            RevokedForGood(agency, calls, hash) || !Current(LedgerOf(calls), hash, clock)
  {
    if RevokedForGood(agency, calls, hash) {
      HeldFollowsRule(agency, calls, hash, clock);
    } else if !Current(LedgerOf(calls), hash, clock) {
      ExpiredFollowsRule(agency, calls, hash, clock);
    } else {
      UnheldBreaksRule(agency, calls, hash, clock);
    }
  }
}
