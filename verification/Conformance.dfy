/** The schema over whole runs: which calls keep all entities conforming, exactly. */
module Conformance {
  import opened Wrappers
  import opened EntityGraph
  import opened Helpers
  import opened Schema
  import opened Operations
  import opened Invariants
  import opened PlansLegal
  import opened Footprints
  import opened Invitations
  import opened Revocations
  import opened Secrets

  /** The options the schema lists and the manager does not check. */
  predicate OptionsListed(op: Op) {
    match op
    case CreateOAuthClient(req, _, _, _) => req.clientType == "public" || req.clientType == "confidential"
    case Revoke(_, _, _, reason, _) =>
      reason in {"", "user_logout", "admin_revoke", "refresh_reuse", "disable_org", "suspend_user"}
    case _ => true
  }

  /** A write that leaves conforming entities; in particular, it updates no immutable type. */
  ghost predicate Respects(s: Store, w: Write) {
    match w
    case Create(t, p) => Declared(t, p) && HasRequired(t, p)
    case Update(id, patch) =>
      id < |s.ents| && !TypeDefinition(s.ents[id].typ).immutable && Declared(s.ents[id].typ, patch)
    case Delete(_) => true
    case Link(_) => true
  }

  ghost predicate RespectsAll(s: Store, ws: seq<Write>)
    decreases |ws|
  {
    |ws| == 0 || (Respects(s, ws[0]) && RespectsAll(Apply(s, ws[0]), ws[1..]))
  }

  // ---------------------------------------------------------------- one write

  lemma PatchedDeclared(t: TypeName, p: Props, patch: Props)
    requires Declared(t, p) && HasRequired(t, p) && Declared(t, patch)
    ensures Declared(t, p + patch) && HasRequired(t, p + patch)
  {
  }

  lemma EntitiesConformStep(s: Store, w: Write)
    requires EntitiesConform(s) && Respects(s, w)
    ensures EntitiesConform(Apply(s, w))
  {
    var t := Apply(s, w);
    forall i | 0 <= i < |t.ents|
      ensures Declared(t.ents[i].typ, t.ents[i].props) && HasRequired(t.ents[i].typ, t.ents[i].props)
    {
      if w.Update? && i == w.id {
        PatchedDeclared(s.ents[i].typ, s.ents[i].props, w.patch);
      }
    }
  }

  lemma {:induction false} EntitiesConformAfter(s: Store, ws: seq<Write>)
    requires EntitiesConform(s) && RespectsAll(s, ws)
    ensures EntitiesConform(ApplyAll(s, ws))
    decreases |ws|
  {
    if |ws| > 0 {
      EntitiesConformStep(s, ws[0]);
      EntitiesConformAfter(Apply(s, ws[0]), ws[1..]);
    }
  }

  lemma {:induction false} RespectsCut(s: Store, ws: seq<Write>, k: nat)
    requires RespectsAll(s, ws)
    ensures RespectsAll(s, Cut(ws, k))
    decreases |ws|
  {
    if 0 < k <= |ws| {
      assert ws[..k][0] == ws[0] && ws[..k][1..] == ws[1..][..k - 1];
      RespectsCut(Apply(s, ws[0]), ws[1..], k - 1);
    }
  }

  lemma {:induction false} RespectsAppend(s: Store, a: seq<Write>, b: seq<Write>)
    requires RespectsAll(s, a) && RespectsAll(ApplyAll(s, a), b)
    ensures RespectsAll(s, a + b)
    decreases |a|
  {
    if |a| == 0 {
      assert a + b == b;
    } else {
      assert (a + b)[0] == a[0] && (a + b)[1..] == a[1..] + b;
      RespectsAppend(Apply(s, a[0]), a[1..], b);
    }
  }

  lemma RespectsOne(s: Store, w: Write)
    requires Respects(s, w)
    ensures RespectsAll(s, [w])
  {
  }

  lemma RespectsCons(s: Store, w: Write, ws: seq<Write>)
    requires Respects(s, w) && RespectsAll(Apply(s, w), ws)
    ensures RespectsAll(s, [w] + ws)
  {
    assert ([w] + ws)[1..] == ws;
  }

  // ---------------------------------------------------------------- what is created

  lemma OrgConforms(agency: string, req: OrgRequest, now: int)
    ensures Declared(TOrganization, OrgProps(agency, req, now)) &&
            HasRequired(TOrganization, OrgProps(agency, req, now))
  {
  }

  lemma BuiltinConforms(agency: string, b: Builtin, now: int)
    ensures Declared(TRole, BuiltinProps(agency, b, now)) && HasRequired(TRole, BuiltinProps(agency, b, now))
  {
  }

  lemma RoleConforms(agency: string, req: RoleRequest, now: int)
    ensures Declared(TRole, RoleProps(agency, req, now)) && HasRequired(TRole, RoleProps(agency, req, now))
  {
  }

  lemma UserConforms(agency: string, req: InviteRequest, now: int)
    ensures Declared(TUser, UserProps(agency, req, now)) && HasRequired(TUser, UserProps(agency, req, now))
  {
  }

  lemma InvitationConforms(agency: string, hash: string, expires: int, now: int)
    ensures Declared(TInvitation, InvitationProps(agency, hash, expires, now))
    ensures HasRequired(TInvitation, InvitationProps(agency, hash, expires, now))
  {
  }

  lemma ScopeConforms(agency: string, req: ScopeRequest, now: int)
    ensures Declared(TScope, ScopeProps(agency, req, now)) && HasRequired(TScope, ScopeProps(agency, req, now))
  {
  }

  lemma MembershipConforms(agency: string, req: GrantRequest, now: int)
    ensures Declared(TMembership, MembershipProps(agency, req, now)) &&
            HasRequired(TMembership, MembershipProps(agency, req, now))
  {
  }

  lemma ClientConforms(agency: string, req: ClientRequest, clientId: string, now: int)
    requires req.clientType in CLIENT_TYPES
    ensures Declared(TOAuthClient, ClientProps(agency, req, clientId, now))
    ensures HasRequired(TOAuthClient, ClientProps(agency, req, clientId, now))
  {
  }

  lemma TokenConforms(agency: string, hash: string, expires: int, created: int)
    ensures forall t :: t in {TAccessToken, TRefreshToken} ==>
      Declared(t, TokenProps(agency, hash, expires, created)) &&
      HasRequired(t, TokenProps(agency, hash, expires, created))
  {
  }

  lemma RevocationConforms(agency: string, hash: string, expiry: Option<Value>, reason: string, now: int)
    requires reason == "" || reason in REVOKE_REASONS
    requires expiry.Some? ==> expiry.value.At? || expiry.value.Text?
    ensures Declared(TTokenRevocation, RevocationProps(agency, hash, expiry, reason, now))
    ensures HasRequired(TTokenRevocation, RevocationProps(agency, hash, expiry, reason, now))
  {
  }

  // ---------------------------------------------------------------- what is patched

  lemma DeclaredMerge(t: TypeName, a: Props, b: Props)
    requires Declared(t, a) && Declared(t, b)
    ensures Declared(t, a + b)
  {
  }

  lemma OptionalText(t: TypeName, p: Prop, given: bool, text: string)
    requires p in TypeDefinition(t).props && TypeDefinition(t).props[p].kind == Str
    ensures Declared(t, OnlyIf(given, map[p := Text(text)]))
  {
  }

  lemma MergeText(t: TypeName, a: Props, p: Prop, text: string)
    requires Declared(t, a) && p in TypeDefinition(t).props && TypeDefinition(t).props[p].kind == Str
    ensures Declared(t, a + OnlyIf(text != "", map[p := Text(text)]))
  {
    OptionalText(t, p, text != "", text);
    DeclaredMerge(t, a, OnlyIf(text != "", map[p := Text(text)]));
  }

  lemma OrgPatchConforms(req: OrgRequest, now: int)
    ensures Declared(TOrganization, OrgPatch(req, now))
  {
    var p0 := map[UpdatedAt := At(now)];
    var p1 := p0 + OnlyIf(req.name != "", map[Name := Text(req.name)]);
    var p2 := p1 + OnlyIf(req.description != "", map[Description := Text(req.description)]);
    var p3 := p2 + OnlyIf(req.contactEmail != "", map[ContactEmail := Text(req.contactEmail)]);
    MergeText(TOrganization, p0, Name, req.name);
    MergeText(TOrganization, p1, Description, req.description);
    MergeText(TOrganization, p2, ContactEmail, req.contactEmail);
    MergeText(TOrganization, p3, LogoURL, req.logoURL);
  }

  lemma DisablePatchConforms(now: int)
    ensures Declared(TOrganization, DisablePatch(now))
  {
  }

  lemma UserPatchConforms(change: UserChange, now: int)
    ensures Declared(TUser, UserPatch(change, now))
  {
  }

  lemma AcceptPatchesConform(now: int)
    ensures Declared(TUser, ActivatePatch(now)) && Declared(TInvitation, AcceptPatch(now))
  {
  }

  lemma RolePatchConforms(req: RoleRequest, now: int)
    ensures Declared(TRole, RolePatch(req, now))
  {
    var p0 := map[UpdatedAt := At(now)];
    MergeText(TRole, p0, DisplayName, req.displayName);
    var p1 := p0 + OnlyIf(req.displayName != "", map[DisplayName := Text(req.displayName)]);
    MergeText(TRole, p1, Description, req.description);
  }

  lemma ScopePatchesConform(req: ScopeRequest, now: int)
    ensures Declared(TScope, ScopePatch(req, now)) && Declared(TScope, DeprecationPatch(now))
  {
  }

  lemma MembershipPatchConforms(now: int)
    ensures Declared(TMembership, map[RevokedAt := At(now)])
  {
  }

  // ---------------------------------------------------------------- whole plans

  lemma {:induction false} SeedRespects(s: Store, bs: seq<Builtin>, now: int)
    ensures RespectsAll(s, SeedWrites(s, bs, now))
    decreases |bs|
  {
    if |bs| > 0 {
      if List(s.ents, TRole, Where(Name, Text(bs[0].name))) != [] {
        SeedRespects(s, bs[1..], now);
      } else {
        var w := Create(TRole, BuiltinProps(s.agency, bs[0], now));
        var rest := SeedWrites(Apply(s, w), bs[1..], now);
        assert SeedWrites(s, bs, now) == [w] + rest;
        assert RespectsAll(s, [w] + rest) by {
          BuiltinConforms(s.agency, bs[0], now);
          SeedRespects(Apply(s, w), bs[1..], now);
          RespectsCons(s, w, rest);
        }
      }
    }
  }

  lemma InitRespects(s: Store, req: OrgRequest, now: int)
    ensures RespectsAll(s, WritesOf(InitOrganizationPlan(s, req, now)))
  {
    if InitOrganizationPlan(s, req, now).Writes? {
      var w := Create(TOrganization, OrgProps(s.agency, req, now));
      var rest := SeedWrites(Apply(s, w), BUILTINS, now);
      assert RespectsAll(s, [w] + rest) by {
        OrgConforms(s.agency, req, now);
        SeedRespects(Apply(s, w), BUILTINS, now);
        RespectsCons(s, w, rest);
      }
    }
  }

  lemma PatchOrgRespects(s: Store, patch: Props)
    requires Declared(TOrganization, patch)
    ensures RespectsAll(s, WritesOf(PatchOrganizationPlan(s, patch)))
  {
    var orgs := List(s.ents, TOrganization, Any);
    if orgs != [] {
      RespectsOne(s, Update(orgs[0], patch));
    }
  }

  lemma {:induction false} LinksRespect(s: Store, ws: seq<Write>)
    requires forall w :: w in ws ==> w.Link?
    ensures RespectsAll(s, ws)
    decreases |ws|
  {
    if |ws| > 0 {
      assert ws[0] in ws;
      LinksRespect(Apply(s, ws[0]), ws[1..]);
    }
  }

  lemma NewPairRespects(s: Store, user: Props, inv: Props)
    requires Declared(TUser, user) && HasRequired(TUser, user) && Declared(TInvitation, inv) &&
             HasRequired(TInvitation, inv)
    ensures RespectsAll(s, NewPair(|s.ents|, user, inv))
  {
    var w1, w2, w3 := Create(TUser, user), Create(TInvitation, inv), Link(Edge(HasInvitation, |s.ents|, |s.ents| + 1));
    RespectsOne(Apply(Apply(s, w1), w2), w3);
    RespectsCons(Apply(s, w1), w2, [w3]);
    RespectsCons(s, w1, [w2] + [w3]);
    assert [w1, w2, w3] == [w1] + ([w2] + [w3]);
  }

  lemma InviteRespects(s: Store, req: InviteRequest, hash: string, at: int)
    requires InviteUserPlan(s, req, hash, at).Writes?
    ensures RespectsAll(s, InviteUserPlan(s, req, hash, at).ws)
  {
    var expires := Sec(at + TTL(req.expiresIn));
    var user, inv := UserProps(s.agency, req, Sec(at)), InvitationProps(s.agency, hash, expires, Sec(at));
    var pair, links := NewPair(|s.ents|, user, inv), InviteLinks(|s.ents| + 1, req);
    InvitePlanIs(s, req, hash, at);
    assert RespectsAll(s, pair + links) by {
      UserConforms(s.agency, req, Sec(at));
      InvitationConforms(s.agency, hash, expires, Sec(at));
      NewPairRespects(s, user, inv);
      LinksRespect(ApplyAll(s, pair), links);
      RespectsAppend(s, pair, links);
    }
  }

  lemma AcceptRespects(s: Store, hash: string, checked: int, now: int)
    requires InvitationsSound(s)
    ensures RespectsAll(s, WritesOf(AcceptInvitationPlan(s, hash, checked, now)))
  {
    var plan := AcceptInvitationPlan(s, hash, checked, now);
    if plan.Writes? {
      var inv := List(s.ents, TInvitation, Where(TokenHash, Text(hash)))[0];
      var rels := EdgesInto(s, HasInvitation, inv);
      assert rels[0] in rels;
      AcceptWritesRespect(s, rels[0].from, inv, now);
    }
  }

  lemma AcceptWritesRespect(s: Store, user: Id, inv: Id, now: int)
    requires user < |s.ents| && s.ents[user].typ == TUser && inv < |s.ents| && s.ents[inv].typ == TInvitation
    ensures RespectsAll(s, [Update(user, ActivatePatch(now)), Update(inv, AcceptPatch(now))])
  {
    var w1, w2 := Update(user, ActivatePatch(now)), Update(inv, AcceptPatch(now));
    AcceptPatchesConform(now);
    RespectsOne(Apply(s, w1), w2);
    RespectsCons(s, w1, [w2]);
  }

  lemma GrantRespects(s: Store, req: GrantRequest, now: int)
    ensures RespectsAll(s, GrantMembershipPlan(s, req, now).ws)
  {
    var m := |s.ents|;
    var w1 := Create(TMembership, MembershipProps(s.agency, req, now));
    var links := [Link(Edge(HasMembership, req.user, m)), Link(Edge(GrantsRole, m, req.role))];
    MembershipConforms(s.agency, req, now);
    LinksRespect(Apply(s, w1), links);
    RespectsCons(s, w1, links);
    assert GrantMembershipPlan(s, req, now).ws == [w1] + links;
  }

  lemma CreateAndLinkRespects(s: Store, t: TypeName, p: Props, e: Edge)
    requires Declared(t, p) && HasRequired(t, p)
    ensures RespectsAll(s, [Create(t, p), Link(e)])
  {
    RespectsOne(Apply(s, Create(t, p)), Link(e));
    RespectsCons(s, Create(t, p), [Link(e)]);
  }

  lemma UriConforms(agency: string, uri: string, now: int)
    ensures var p: Props := map[AgencyId := Text(agency), Uri := Text(uri), CreatedAt := At(now)];
      Declared(TRedirectURI, p) && HasRequired(TRedirectURI, p)
  {
  }

  lemma SecretConforms(agency: string, phc: string, now: int)
    ensures var p: Props := map[AgencyId := Text(agency), SecretHash := Text(phc), CreatedAt := At(now)];
      Declared(TClientSecret, p) && HasRequired(TClientSecret, p)
  {
  }

  lemma {:induction false} UrisRespect(s: Store, agency: string, client: Id, next: Id, uris: seq<string>, now: int)
    ensures RespectsAll(s, UriWrites(agency, client, next, uris, now))
    decreases |uris|
  {
    if |uris| > 0 {
      var pair := UriPair(agency, client, next, uris[0], now);
      UriConforms(agency, uris[0], now);
      CreateAndLinkRespects(s, TRedirectURI, pair[0].props, pair[1].edge);
      UrisRespect(ApplyAll(s, pair), agency, client, next + 1, uris[1..], now);
      RespectsAppend(s, pair, UriWrites(agency, client, next + 1, uris[1..], now));
    }
  }

  lemma SecretRespects(s: Store, agency: string, client: Id, next: Id, secret: NewSecret, now: int)
    ensures RespectsAll(s, SecretWrites(agency, client, next, secret, now))
  {
    var ws := SecretWrites(agency, client, next, secret, now);
    SecretConforms(agency, secret.phc, now);
    CreateAndLinkRespects(s, TClientSecret, ws[0].props, ws[1].edge);
  }

  lemma HeadRespects(s: Store, props: Props, uris: seq<string>, scopes: seq<Id>, now: int)
    requires Declared(TOAuthClient, props) && HasRequired(TOAuthClient, props)
    ensures RespectsAll(s, ClientHead(s, props, uris, scopes, now))
  {
    var c, w := |s.ents|, Create(TOAuthClient, props);
    var us, links := UriWrites(s.agency, c, c + 1, uris, now), LinksTo(AllowsScope, c, scopes);
    UrisRespect(Apply(s, w), s.agency, c, c + 1, uris, now);
    RespectsCons(s, w, us);
    LinksRespect(ApplyAll(s, [w] + us), links);
    RespectsAppend(s, [w] + us, links);
  }

  lemma CreateClientRespects(s: Store, req: ClientRequest, clientId: string, secret: NewSecret, now: int)
    requires req.clientType in CLIENT_TYPES
    ensures RespectsAll(s, CreateOAuthClientPlan(s, req, clientId, secret, now).ws)
  {
    var props := ClientProps(s.agency, req, clientId, now);
    var head := ClientHead(s, props, req.redirectURIs, req.scopeIds, now);
    var tail := ClientTail(s.agency, |s.ents|, req, secret, now);
    ClientPlanIs(s, req, clientId, secret, now);
    assert RespectsAll(s, head + tail) by {
      ClientConforms(s.agency, req, clientId, now);
      HeadRespects(s, props, req.redirectURIs, req.scopeIds, now);
      SecretRespects(ApplyAll(s, head), s.agency, |s.ents|, |s.ents| + 1 + |req.redirectURIs|, secret, now);
      RespectsAppend(s, head, tail);
    }
  }

  lemma RotateRespects(s: Store, clientId: string, secret: NewSecret, now: int)
    ensures RespectsAll(s, WritesOf(RotateClientSecretPlan(s, clientId, secret, now)))
  {
    var found := List(s.ents, TOAuthClient, Where(ClientId, Text(clientId)));
    if found != [] {
      SecretRespects(s, s.agency, found[0], |s.ents|, secret, now);
    }
  }

  lemma RegisterRespects(s: Store, req: ScopeRequest, now: int)
    ensures RespectsAll(s, WritesOf(RegisterScopePlan(s, req, now)))
  {
    var found := List(s.ents, TScope, Where(Name, Text(req.name)));
    ScopeConforms(s.agency, req, now);
    RespectsOne(s, Create(TScope, ScopeProps(s.agency, req, now)));
    if found != [] {
      ScopePatchesConform(req, now);
      RespectsOne(s, Update(found[0], ScopePatch(req, now)));
    }
  }

  lemma FoundExpiryKind(s: Store, hash: string, sawAccess: bool, sawRefresh: bool)
    ensures var v := SearchExpiry(s, hash, sawAccess, sawRefresh); v.Some? ==> v.value.At? || v.value.Text?
  {
  }

  lemma TokenOpsRespect(s: Store, op: Op)
    requires OptionsListed(op) && (op.Revoke? || op.Mint?)
    ensures RespectsAll(s, WritesOf(Plan(s, op)))
  {
    match op
    case Revoke(hash, sawAccess, sawRefresh, reason, now) =>
      FoundExpiryKind(s, hash, sawAccess, sawRefresh);
      RevocationConforms(s.agency, hash, SearchExpiry(s, hash, sawAccess, sawRefresh), reason, now);
    case Mint(refresh, hash, expires, now) =>
      TokenConforms(s.agency, hash, expires, now);
  }

  lemma CreateRoleRespects(s: Store, req: RoleRequest, now: int)
    ensures RespectsAll(s, WritesOf(CreateRolePlan(s, req, now)))
  {
    RoleConforms(s.agency, req, now);
  }

  lemma ChangeUserRespects(s: Store, id: Id, change: UserChange, now: int)
    ensures RespectsAll(s, WritesOf(ChangeUserPlan(s, id, change, now)))
  {
    UserPatchConforms(change, now);
  }

  lemma OnIdRespects(s: Store, op: Op)
    requires Admissible(s, op) && (op.UpdateRole? || op.DeprecateScope? || op.RevokeMembership?)
    ensures RespectsAll(s, WritesOf(Plan(s, op)))
  {
    match op
    case UpdateRole(_, role, now) => RolePatchConforms(role, now);
    case DeprecateScope(_, now) => ScopePatchesConform(ScopeRequest("", "", ""), now);
    case RevokeMembership(_, now) => MembershipPatchConforms(now);
  }

  lemma DeletesRespect(s: Store, op: Op)
    requires op.DeleteOrganization? || op.DeleteRole? || op.DeleteOAuthClient? || op.Purge?
    ensures RespectsAll(s, WritesOf(Plan(s, op)))
  {
  }

  /** Every write of every operation respects the schema; none updates an immutable type. */
  lemma PlanRespectsSchema(s: Store, op: Op)
    requires Inv(s) && Admissible(s, op) && OptionsListed(op)
    ensures RespectsAll(s, WritesOf(Plan(s, op)))
  {
    match op
    case InitOrganization(req, now) => InitRespects(s, req, now);
    case UpdateOrganization(req, now) =>
      OrgPatchConforms(req, now);
      PatchOrgRespects(s, OrgPatch(req, now));
    case DisableOrganization(now) =>
      DisablePatchConforms(now);
      PatchOrgRespects(s, DisablePatch(now));
    case InviteUser(req, hash, at) =>
      if InviteUserPlan(s, req, hash, at).Writes? {
        InviteRespects(s, req, hash, at);
      }
    case AcceptInvitation(hash, checked, now) => AcceptRespects(s, hash, checked, now);
    case ChangeUser(id, change, now) => ChangeUserRespects(s, id, change, now);
    case CreateRole(req, now) => CreateRoleRespects(s, req, now);
    case RegisterScope(req, now) => RegisterRespects(s, req, now);
    case GrantMembership(req, now) => GrantRespects(s, req, now);
    case CreateOAuthClient(req, clientId, secret, now) => CreateClientRespects(s, req, clientId, secret, now);
    case RotateClientSecret(clientId, secret, now) => RotateRespects(s, clientId, secret, now);
    case UpdateRole(_, _, _) => OnIdRespects(s, op);
    case DeprecateScope(_, _) => OnIdRespects(s, op);
    case RevokeMembership(_, _) => OnIdRespects(s, op);
    case Revoke(_, _, _, _, _) => TokenOpsRespect(s, op);
    case Mint(_, _, _, _) => TokenOpsRespect(s, op);
    case _ => DeletesRespect(s, op);
  }

  // ---------------------------------------------------------------- immutable types

  lemma ImmutableTypes(t: TypeName)
    ensures TypeDefinition(t).immutable <==>
            t in {TAuthorizationCode, TAccessToken, TRefreshToken, TTokenRevocation, TAuditEvent}
  {
  }

  lemma ImmutableEntityStays(s: Store, t: Store, i: Id)
    requires Evolves(s, t) && i < |s.ents| && TypeDefinition(s.ents[i].typ).immutable
    ensures t.ents[i].typ == s.ents[i].typ && t.ents[i].props == s.ents[i].props
  {
    assert EntityEvolves(s.ents[i], t.ents[i]) && Mutable(s.ents[i].typ) == {};
    assert forall p :: p in s.ents[i].props <==> p in t.ents[i].props;
  }

  /** The declaration of a type as immutable is kept over every run: of codes, tokens, revocations and audit events no
      property is ever added, removed or changed. */
  lemma ImmutablesNeverChange(agency: string, calls: seq<Call>, more: seq<Call>, i: Id)
    requires ValidRun(agency, calls + more) && i < |Run(agency, calls).ents|
    requires Run(agency, calls).ents[i].typ in
             {TAuthorizationCode, TAccessToken, TRefreshToken, TTokenRevocation, TAuditEvent}
    ensures i < |Run(agency, calls + more).ents|
    ensures Run(agency, calls + more).ents[i].props == Run(agency, calls).ents[i].props
  {
    var s, t := Run(agency, calls), Run(agency, calls + more);
    assert Evolves(s, t) by {
      RunEvolves(agency, calls, more);
    }
    ImmutableTypes(s.ents[i].typ);
    ImmutableEntityStays(s, t, i);
  }

  // ---------------------------------------------------------------- whole runs

  lemma CallKeepsEntities(s: Store, c: Call)
    requires Inv(s) && EntitiesConform(s) && Admissible(s, c.op) && (c.done == 0 || OptionsListed(c.op))
    ensures EntitiesConform(AfterCall(s, c))
  {
    var ws := WritesOf(Plan(s, c.op));
    if c.done == 0 {
      assert Cut(ws, 0) == [];
    } else {
      PlanRespectsSchema(s, c.op);
      RespectsCut(s, ws, c.done);
      EntitiesConformAfter(s, Cut(ws, c.done));
    }
  }

  /** Every call that wrote anything had its options from the declared lists. */
  ghost predicate OptionsListedIn(calls: seq<Call>) {
    forall c :: c in calls && c.done > 0 ==> OptionsListed(c.op)
  }

  lemma {:induction false} RunKeepsEntities(agency: string, calls: seq<Call>)
    requires ValidRun(agency, calls) && OptionsListedIn(calls)
    ensures EntitiesConform(Run(agency, calls))
  {
    if |calls| > 0 {
      var before, c := calls[..|calls| - 1], calls[|calls| - 1];
      assert c in calls && forall d :: d in before ==> d in calls;
      RunKeepsEntities(agency, before);
      RunKeepsInv(agency, before);
      CallKeepsEntities(Run(agency, before), c);
    }
  }

  /** An option outside the declared list, in a property that no operation ever changes. */
  predicate UnlistedOption(e: Entity) {
    (e.typ == TOAuthClient && ClientType in e.props &&
     e.props[ClientType].Text? && e.props[ClientType].text !in CLIENT_TYPES) ||
    (e.typ == TTokenRevocation && Reason in e.props &&
     e.props[Reason].Text? && e.props[Reason].text !in REVOKE_REASONS)
  }

  lemma UnlistedFails(e: Entity)
    requires UnlistedOption(e)
    ensures !Declared(e.typ, e.props)
  {
    if e.typ == TOAuthClient {
      assert !OfKind(e.props[ClientType], TypeDefinition(TOAuthClient).props[ClientType].kind);
    } else {
      assert !OfKind(e.props[Reason], TypeDefinition(TTokenRevocation).props[Reason].kind);
    }
  }

  ghost predicate Spoiled(s: Store) {
    exists i: Id :: i < |s.ents| && UnlistedOption(s.ents[i])
  }

  lemma SpoiledFails(s: Store)
    requires Spoiled(s)
    ensures !EntitiesConform(s)
  {
    var i: Id :| i < |s.ents| && UnlistedOption(s.ents[i]);
    UnlistedFails(s.ents[i]);
  }

  lemma SpoiledStays(s: Store, t: Store)
    requires Evolves(s, t) && Spoiled(s)
    ensures Spoiled(t)
  {
    var i: Id :| i < |s.ents| && UnlistedOption(s.ents[i]);
    assert EntityEvolves(s.ents[i], t.ents[i]);
    assert UnlistedOption(t.ents[i]);
  }

  lemma ClientTypeStored(s: Store, c: Call)
    requires c.op.CreateOAuthClient? && c.done > 0 && !OptionsListed(c.op)
    ensures Spoiled(AfterCall(s, c))
  {
    var ws := Plan(s, c.op).ws;
    ClientCreates(s, c.op.client, c.op.clientId, c.op.secret, c.op.now);
    FirstCreate(s, ws, c.done, {TOAuthClient, TRedirectURI, TClientSecret});
    assert UnlistedOption(AfterCall(s, c).ents[|s.ents|]);
  }

  lemma ReasonStored(s: Store, c: Call)
    requires c.op.Revoke? && c.done > 0 && !OptionsListed(c.op)
    ensures Spoiled(AfterCall(s, c))
  {
    RevokeCall(s, c);
    assert UnlistedOption(AfterCall(s, c).ents[|s.ents|]);
  }

  lemma CallStaysSpoiled(s: Store, c: Call)
    requires Inv(s) && Admissible(s, c.op) && Spoiled(s)
    ensures Spoiled(AfterCall(s, c))
  {
    CallKeepsInv(s, c);
    SpoiledStays(s, AfterCall(s, c));
  }

  lemma UnlistedCallSpoils(s: Store, c: Call)
    requires c.done > 0 && !OptionsListed(c.op)
    ensures Spoiled(AfterCall(s, c))
  {
    if c.op.Revoke? {
      ReasonStored(s, c);
    } else {
      ClientTypeStored(s, c);
    }
  }

  /** A call that stored an unlisted option spoils the store for the rest of the run. */
  lemma {:induction false} UnlistedSpoils(agency: string, calls: seq<Call>, k: nat)
    requires ValidRun(agency, calls) && k < |calls| && calls[k].done > 0 && !OptionsListed(calls[k].op)
    ensures Spoiled(Run(agency, calls))
  {
    var before := calls[..|calls| - 1];
    if k == |calls| - 1 {
      UnlistedCallSpoils(Run(agency, before), calls[k]);
    } else {
      UnlistedSpoils(agency, before, k);
      RunKeepsInv(agency, before);
      CallStaysSpoiled(Run(agency, before), calls[|calls| - 1]);
    }
  }

  /** In every run, cut short anywhere, all entities have all required and only declared properties of their
      types, of the declared kinds, if and only if every call that wrote anything had its client type or
      revocation reason from the declared list. */
  lemma EntitiesConformExactly(agency: string, calls: seq<Call>)
    requires ValidRun(agency, calls)
    ensures EntitiesConform(Run(agency, calls)) <==> OptionsListedIn(calls)
  {
    if OptionsListedIn(calls) {
      RunKeepsEntities(agency, calls);
    } else {
      var c :| c in calls && c.done > 0 && !OptionsListed(c.op);
      var k :| 0 <= k < |calls| && calls[k] == c;
      UnlistedSpoils(agency, calls, k);
      SpoiledFails(Run(agency, calls));
    }
  }
}
