/** Every operation only ever makes legal writes, so the invariants hold after every run. */
module PlansLegal {
  import opened EntityGraph
  import opened Helpers
  import opened ScopeGrammar
  import opened Operations
  import opened Invariants

  lemma BuiltinFields(p: Props, agency: string, b: Builtin, now: int)
    requires p == BuiltinProps(agency, b, now)
    ensures AgencyId in p && p[AgencyId] == Text(agency) && Name in p && p[Name] == Text(b.name)
    ensures DisplayName in p && p[DisplayName] == Text(b.displayName)
  {
  }

  lemma BuiltinCreateLegal(s: Store, b: Builtin, now: int)
    requires b in BUILTINS && List(s.ents, TRole, Where(Name, Text(b.name))) == []
    ensures Legal(s, Create(TRole, BuiltinProps(s.agency, b, now)))
  {
    var p := BuiltinProps(s.agency, b, now);
    BuiltinFields(p, s.agency, b, now);
    SeedCreateLegal(s, b, p);
  }

  lemma SeedCreateLegal(s: Store, b: Builtin, p: Props)
    requires b in BUILTINS && List(s.ents, TRole, Where(Name, Text(b.name))) == []
    requires AgencyId in p && p[AgencyId] == Text(s.agency) && Name in p && p[Name] == Text(b.name)
    requires DisplayName in p && p[DisplayName] == Text(b.displayName)
    ensures Legal(s, Create(TRole, p))
  {
  }

  lemma {:induction false} SeedLegal(s: Store, bs: seq<Builtin>, now: int)
    requires forall b :: b in bs ==> b in BUILTINS
    ensures LegalAll(s, SeedWrites(s, bs, now))
    decreases |bs|
  {
    if |bs| > 0 {
      assert bs[0] in bs;
      if List(s.ents, TRole, Where(Name, Text(bs[0].name))) != [] {
        SeedLegal(s, bs[1..], now);
      } else {
        var w := Create(TRole, BuiltinProps(s.agency, bs[0], now));
        assert SeedWrites(s, bs, now) == [w] + SeedWrites(Apply(s, w), bs[1..], now);
        assert LegalAll(s, [w] + SeedWrites(Apply(s, w), bs[1..], now)) by {
          BuiltinCreateLegal(s, bs[0], now);
          SeedLegal(Apply(s, w), bs[1..], now);
          LegalCons(s, w, SeedWrites(Apply(s, w), bs[1..], now));
        }
      }
    }
  }

  /** Edges of a name no invariant speaks about can always be added. */
  lemma {:induction false} PlainLinksLegal(s: Store, ws: seq<Write>)
    requires forall w :: w in ws ==> w.Link? && w.edge.name != HasInvitation && w.edge.name != HasMembership
    ensures LegalAll(s, ws)
    decreases |ws|
  {
    if |ws| > 0 {
      assert ws[0] in ws;
      PlainLinksLegal(Apply(s, ws[0]), ws[1..]);
    }
  }

  lemma LegalOne(s: Store, w: Write)
    requires Legal(s, w)
    ensures LegalAll(s, [w])
  {
  }

  lemma LegalThree(s: Store, w1: Write, w2: Write, w3: Write)
    requires Legal(s, w1) && Legal(Apply(s, w1), w2) && Legal(Apply(Apply(s, w1), w2), w3)
    ensures LegalAll(s, [w1, w2, w3])
  {
    LegalOne(Apply(Apply(s, w1), w2), w3);
    LegalCons(Apply(s, w1), w2, [w3]);
    assert [w1, w2, w3] == [w1] + ([w2] + [w3]);
  }

  lemma InvitationCreateLegal(s: Store, agency: string, hash: string, expires: int, now: int)
    requires agency == s.agency && List(s.ents, TInvitation, Where(TokenHash, Text(hash))) == []
    ensures Legal(s, Create(TInvitation, InvitationProps(agency, hash, expires, now)))
  {
  }

  lemma UserCreateLegal(s: Store, req: InviteRequest, now: int)
    requires List(s.ents, TUser, Where(Email, Text(req.email))) == []
    ensures Legal(s, Create(TUser, UserProps(s.agency, req, now)))
  {
  }

  lemma InviteLinksLegal(s: Store, inv: Id, req: InviteRequest)
    ensures LegalAll(s, InviteLinks(inv, req))
  {
    PlainLinksLegal(s, InviteLinks(inv, req));
  }

  lemma InvitationLinkLegal(s: Store, user: Id, inv: Id)
    requires user < |s.ents| && s.ents[user].typ == TUser && inv < |s.ents| && s.ents[inv].typ == TInvitation
    requires forall e :: e in s.edges && e.name == HasInvitation ==> e.to != inv
    ensures Legal(s, Link(Edge(HasInvitation, user, inv)))
  {
    NoEdgesInto(s, HasInvitation, inv);
  }

  lemma NewPairLegal(s: Store, user: Props, inv: Props)
    requires forall e :: e in s.edges && e.name == HasInvitation ==> e.to < |s.ents|
    requires Legal(s, Create(TUser, user))
    requires Legal(Apply(s, Create(TUser, user)), Create(TInvitation, inv))
    ensures LegalAll(s, NewPair(|s.ents|, user, inv))
  {
    var w1, w2, w3 := Create(TUser, user), Create(TInvitation, inv), Link(Edge(HasInvitation, |s.ents|, |s.ents| + 1));
    InvitationLinkLegal(Apply(Apply(s, w1), w2), |s.ents|, |s.ents| + 1);
    LegalThree(s, w1, w2, w3);
  }

  lemma InvitePairLegal(s: Store, req: InviteRequest, hash: string, expires: int, now: int)
    requires forall e :: e in s.edges && e.name == HasInvitation ==> e.to < |s.ents|
    requires List(s.ents, TUser, Where(Email, Text(req.email))) == []
    requires List(s.ents, TInvitation, Where(TokenHash, Text(hash))) == []
    ensures LegalAll(s, NewPair(|s.ents|, UserProps(s.agency, req, now), InvitationProps(s.agency, hash, expires, now)))
  {
    var user := UserProps(s.agency, req, now);
    ListAfterCreate(s, TUser, user, TInvitation, Where(TokenHash, Text(hash)));
    UserCreateLegal(s, req, now);
    InvitationCreateLegal(Apply(s, Create(TUser, user)), s.agency, hash, expires, now);
    NewPairLegal(s, user, InvitationProps(s.agency, hash, expires, now));
  }

  lemma InviteLegal(s: Store, req: InviteRequest, hash: string, at: int)
    requires InvitationsSound(s) && InviteUserPlan(s, req, hash, at).Writes?
    requires List(s.ents, TInvitation, Where(TokenHash, Text(hash))) == []
    ensures LegalAll(s, InviteUserPlan(s, req, hash, at).ws)
  {
    var expires := Sec(at + TTL(req.expiresIn));
    var pair := NewPair(|s.ents|, UserProps(s.agency, req, Sec(at)), InvitationProps(s.agency, hash, expires, Sec(at)));
    var links := InviteLinks(|s.ents| + 1, req);
    assert InviteUserPlan(s, req, hash, at).ws == pair + links;
    assert LegalAll(s, pair + links) by {
      InvitePairLegal(s, req, hash, expires, Sec(at));
      InviteLinksLegal(ApplyAll(s, pair), |s.ents| + 1, req);
      LegalAppend(s, pair, links);
    }
  }

  /** Activating the invited user makes the invitation acceptable. */
  lemma ActivationLegal(s: Store, inv: Id, now: int)
    requires InvitationsSound(s) && inv < |s.ents| && s.ents[inv].typ == TInvitation
    requires EdgesInto(s, HasInvitation, inv) != []
    ensures var user := EdgesInto(s, HasInvitation, inv)[0].from;
            Legal(s, Update(user, ActivatePatch(now))) &&
            Acceptable(Apply(s, Update(user, ActivatePatch(now))), inv)
  {
    var rels := EdgesInto(s, HasInvitation, inv);
    assert InvitationSound(s, inv);
    assert rels[0] in rels;
    assert EdgesInto(Apply(s, Update(rels[0].from, ActivatePatch(now))), HasInvitation, inv) == rels;
  }

  lemma AcceptingLegal(s: Store, inv: Id, now: int)
    requires Acceptable(s, inv) && inv < |s.ents| && s.ents[inv].typ == TInvitation
    ensures LegalAll(s, [Update(inv, AcceptPatch(now))])
  {
    LegalOne(s, Update(inv, AcceptPatch(now)));
  }

  lemma AcceptLegal(s: Store, hash: string, checked: int, now: int)
    requires InvitationsSound(s) && AcceptInvitationPlan(s, hash, checked, now).Writes?
    ensures LegalAll(s, AcceptInvitationPlan(s, hash, checked, now).ws)
  {
    var inv := List(s.ents, TInvitation, Where(TokenHash, Text(hash)))[0];
    var w1 := Update(EdgesInto(s, HasInvitation, inv)[0].from, ActivatePatch(now));
    var w2 := Update(inv, AcceptPatch(now));
    assert AcceptInvitationPlan(s, hash, checked, now).ws == [w1] + [w2];
    ActivationLegal(s, inv, now);
    AcceptingLegal(Apply(s, w1), inv, now);
    LegalCons(s, w1, [w2]);
  }

  lemma MembershipLinkLegal(s: Store, user: Id, m: Id)
    requires m < |s.ents| && s.ents[m].typ == TMembership
    requires forall e :: e in s.edges && e.name == HasMembership ==> e.to != m
    ensures Legal(s, Link(Edge(HasMembership, user, m)))
  {
    NoEdgesInto(s, HasMembership, m);
  }

  lemma GrantLegal(s: Store, req: GrantRequest, now: int)
    requires MembershipsSound(s)
    ensures LegalAll(s, GrantMembershipPlan(s, req, now).ws)
  {
    var m := |s.ents|;
    var w1 := Create(TMembership, MembershipProps(s.agency, req, now));
    var w2, w3 := Link(Edge(HasMembership, req.user, m)), Link(Edge(GrantsRole, m, req.role));
    assert GrantMembershipPlan(s, req, now).ws == [w1, w2, w3];
    assert LegalAll(s, [w1, w2, w3]) by {
      MembershipLinkLegal(Apply(s, w1), req.user, m);
      LegalThree(s, w1, w2, w3);
    }
  }

  lemma UriPairLegal(s: Store, p: Props, e: Edge)
    requires AgencyId in p && p[AgencyId] == Text(s.agency) && e.name == HasRedirectURI
    ensures LegalAll(s, [Create(TRedirectURI, p), Link(e)])
  {
    LegalOne(Apply(s, Create(TRedirectURI, p)), Link(e));
    LegalCons(s, Create(TRedirectURI, p), [Link(e)]);
  }

  lemma {:induction false} UrisLegal(s: Store, client: Id, next: Id, uris: seq<string>, now: int)
    ensures LegalAll(s, UriWrites(s.agency, client, next, uris, now))
    decreases |uris|
  {
    if |uris| > 0 {
      var pair := UriPair(s.agency, client, next, uris[0], now);
      UriPairLegal(s, pair[0].props, pair[1].edge);
      AgencyStays(s, pair);
      UrisLegal(ApplyAll(s, pair), client, next + 1, uris[1..], now);
      LegalAppend(s, pair, UriWrites(s.agency, client, next + 1, uris[1..], now));
    }
  }

  lemma SecretLegal(s: Store, client: Id, next: Id, secret: NewSecret, now: int)
    ensures LegalAll(s, SecretWrites(s.agency, client, next, secret, now))
  {
    var ws := SecretWrites(s.agency, client, next, secret, now);
    assert Legal(s, ws[0]);
    PlainLinksLegal(Apply(s, ws[0]), [ws[1]]);
    LegalCons(s, ws[0], [ws[1]]);
    assert ws == [ws[0]] + [ws[1]];
  }

  lemma {:induction false} AgencyStays(s: Store, ws: seq<Write>)
    ensures ApplyAll(s, ws).agency == s.agency
    decreases |ws|
  {
    if |ws| > 0 {
      AgencyStays(Apply(s, ws[0]), ws[1..]);
    }
  }

  lemma ClientCreateLegal(s: Store, req: ClientRequest, clientId: string, now: int)
    requires List(s.ents, TOAuthClient, Where(ClientId, Text(clientId))) == []
    ensures LegalAll(s, [Create(TOAuthClient, ClientProps(s.agency, req, clientId, now))])
  {
  }

  lemma CreateClientLegal(s: Store, req: ClientRequest, clientId: string, secret: NewSecret, now: int)
    requires List(s.ents, TOAuthClient, Where(ClientId, Text(clientId))) == []
    ensures LegalAll(s, CreateOAuthClientPlan(s, req, clientId, secret, now).ws)
  {
    var c := |s.ents|;
    var w := [Create(TOAuthClient, ClientProps(s.agency, req, clientId, now))];
    var uris := UriWrites(s.agency, c, c + 1, req.redirectURIs, now);
    var links := LinksTo(AllowsScope, c, req.scopeIds);
    ClientCreateLegal(s, req, clientId, now);
    var s1 := ApplyAll(s, w);
    AgencyStays(s, w);
    UrisLegal(s1, c, c + 1, req.redirectURIs, now);
    LegalAppend(s, w, uris);
    var s2 := ApplyAll(s, w + uris);
    PlainLinksLegal(s2, links);
    LegalAppend(s, w + uris, links);
    AgencyStays(s, w + uris + links);
    var s3 := ApplyAll(s, w + uris + links);
    ClientTailLegal(s3, c, req, secret, now);
    LegalAppend(s, w + uris + links, ClientTail(s.agency, c, req, secret, now));
  }

  lemma ClientTailLegal(s: Store, c: Id, req: ClientRequest, secret: NewSecret, now: int)
    ensures LegalAll(s, ClientTail(s.agency, c, req, secret, now))
  {
    SecretLegal(s, c, c + 1 + |req.redirectURIs|, secret, now);
  }

  lemma InitLegal(s: Store, req: OrgRequest, now: int)
    requires Inv(s) && InitOrganizationPlan(s, req, now).Writes?
    ensures LegalAll(s, InitOrganizationPlan(s, req, now).ws)
  {
    var w := Create(TOrganization, OrgProps(s.agency, req, now));
    SeedLegal(Apply(s, w), BUILTINS, now);
  }

  /** All writes of every operation are legal in a sound store. */
  lemma PlanLegal(s: Store, op: Op)
    requires Inv(s) && Admissible(s, op)
    ensures LegalAll(s, WritesOf(Plan(s, op)))
  {
    match op
    case InitOrganization(req, now) =>
      if Plan(s, op).Writes? {
        InitLegal(s, req, now);
      }
    case InviteUser(req, hash, at) =>
      if Plan(s, op).Writes? {
        InviteLegal(s, req, hash, at);
      }
    case AcceptInvitation(hash, checked, now) =>
      if Plan(s, op).Writes? {
        AcceptLegal(s, hash, checked, now);
      }
    case GrantMembership(req, now) => GrantLegal(s, req, now);
    case CreateOAuthClient(req, clientId, secret, now) => CreateClientLegal(s, req, clientId, secret, now);
    case RotateClientSecret(clientId, secret, now) =>
      if Plan(s, op).Writes? {
        SecretLegal(s, List(s.ents, TOAuthClient, Where(ClientId, Text(clientId)))[0], |s.ents|, secret, now);
      }
    case CreateRole(role, now) => CreateRoleLegal(s, role, now);
    case RegisterScope(scope, now) => RegisterScopeLegal(s, scope, now);
    case DeleteOrganization => DeletesLegal(s, op);
    case DeleteRole(_) => DeletesLegal(s, op);
    case DeleteOAuthClient(_) => DeletesLegal(s, op);
    case Purge(_, _) => DeletesLegal(s, op);
    case Revoke(_, _, _, _, _) => ArtifactsLegal(s, op);
    case Mint(_, _, _, _) => ArtifactsLegal(s, op);
    case _ => PatchesLegal(s, op);
  }

  lemma PatchKeys(org: OrgRequest, role: RoleRequest, now: int)
    ensures OrgPatch(org, now).Keys <= Mutable(TOrganization)
    ensures RolePatch(role, now).Keys <= Mutable(TRole)
  {
  }

  lemma CreateRoleLegal(s: Store, role: RoleRequest, now: int)
    ensures LegalAll(s, WritesOf(CreateRolePlan(s, role, now)))
  {
  }

  lemma CreateScopeLegal(s: Store, scope: ScopeRequest, now: int)
    requires MatchScope(scope.name) && !Reserved(scope)
    requires List(s.ents, TScope, Where(Name, Text(scope.name))) == []
    ensures LegalAll(s, [Create(TScope, ScopeProps(s.agency, scope, now))])
  {
    assert ScopeAllowed(ScopeProps(s.agency, scope, now));
  }

  lemma UpdateScopeLegal(s: Store, id: Id, scope: ScopeRequest, now: int)
    requires id < |s.ents| && s.ents[id].typ == TScope
    ensures LegalAll(s, [Update(id, ScopePatch(scope, now))])
  {
    LegalOne(s, Update(id, ScopePatch(scope, now)));
  }

  lemma RegisterScopeLegal(s: Store, scope: ScopeRequest, now: int)
    ensures LegalAll(s, WritesOf(RegisterScopePlan(s, scope, now)))
  {
    var found := List(s.ents, TScope, Where(Name, Text(scope.name)));
    if found != [] {
      UpdateScopeLegal(s, found[0], scope, now);
    } else if MatchScope(scope.name) && !Reserved(scope) {
      CreateScopeLegal(s, scope, now);
    }
  }

  lemma PatchesLegal(s: Store, op: Op)
    requires op.UpdateOrganization? || op.DisableOrganization? || op.ChangeUser? || op.UpdateRole? ||
             op.DeprecateScope? || op.RevokeMembership?
    requires Admissible(s, op)
    ensures LegalAll(s, WritesOf(Plan(s, op)))
  {
    match op
    case UpdateOrganization(org, now) => PatchKeys(org, RoleRequest("", "", ""), now);
    case UpdateRole(_, role, now) => PatchKeys(OrgRequest("", "", "", ""), role, now);
    case _ =>
  }

  lemma DeletesLegal(s: Store, op: Op)
    requires op.DeleteOrganization? || op.DeleteRole? || op.DeleteOAuthClient? || op.Purge?
    requires Admissible(s, op)
    ensures LegalAll(s, WritesOf(Plan(s, op)))
  {
  }

  lemma ArtifactsLegal(s: Store, op: Op)
    requires op.Revoke? || op.Mint?
    ensures LegalAll(s, WritesOf(Plan(s, op)))
  {
  }

  lemma CallKeepsInv(s: Store, c: Call)
    requires Inv(s) && Admissible(s, c.op)
    ensures Inv(AfterCall(s, c)) && Evolves(s, AfterCall(s, c))
  {
    var ws := WritesOf(Plan(s, c.op));
    PlanLegal(s, c.op);
    LegalCut(s, ws, c.done);
    InvAfter(s, Cut(ws, c.done));
    EvolvesAfter(s, Cut(ws, c.done));
  }

  /** The invariants hold after every run: any operations, in any order, each cut short anywhere. */
  lemma {:induction false} RunKeepsInv(agency: string, calls: seq<Call>)
    requires ValidRun(agency, calls)
    ensures Inv(Run(agency, calls))
  {
    if |calls| > 0 {
      RunKeepsInv(agency, calls[..|calls| - 1]);
      CallKeepsInv(Run(agency, calls[..|calls| - 1]), calls[|calls| - 1]);
    }
  }

  lemma {:induction false} RunAgency(agency: string, calls: seq<Call>)
    ensures Run(agency, calls).agency == agency
  {
    if |calls| > 0 {
      var before, c := calls[..|calls| - 1], calls[|calls| - 1];
      RunAgency(agency, before);
      AgencyStays(Run(agency, before), Cut(WritesOf(Plan(Run(agency, before), c.op)), c.done));
    }
  }

  lemma {:induction false} ValidPrefix(agency: string, calls: seq<Call>, more: seq<Call>)
    requires ValidRun(agency, calls + more)
    ensures ValidRun(agency, calls)
    decreases |more|
  {
    if |more| == 0 {
      assert calls + more == calls;
    } else {
      var n := |more| - 1;
      assert (calls + more)[..|calls + more| - 1] == calls + more[..n];
      ValidPrefix(agency, calls, more[..n]);
    }
  }

  /** Frozen identity over whole runs: however a run goes on, no entity or edge disappears, types and
      immutable properties stay, and only deletable entities are ever deleted. */
  lemma {:induction false} RunEvolves(agency: string, calls: seq<Call>, more: seq<Call>)
    requires ValidRun(agency, calls + more)
    ensures Evolves(Run(agency, calls), Run(agency, calls + more))
    decreases |more|
  {
    if |more| == 0 {
      assert calls + more == calls;
    } else {
      var n := |more| - 1;
      assert (calls + more)[..|calls + more| - 1] == calls + more[..n];
      RunEvolves(agency, calls, more[..n]);
      RunKeepsInv(agency, calls + more[..n]);
      CallKeepsInv(Run(agency, calls + more[..n]), more[n]);
      EvolvesTransitive(Run(agency, calls), Run(agency, calls + more[..n]), Run(agency, calls + more));
    }
  }

  const IDENTITY := {AgencyId, CreatedAt, Email, TokenHash, RegisteredBy, EntityGraph.Builtin}

  lemma FrozenEntity(a: Entity, b: Entity, p: Prop)
    requires EntityEvolves(a, b) && (b.deleted ==> MayDelete(b))
    requires p in IDENTITY || (p == Name && a.typ != TOrganization)
    ensures b.typ == a.typ && (p in b.props <==> p in a.props) && (p in a.props ==> b.props[p] == a.props[p])
    ensures IsBuiltin(a) ==> b == a && !b.deleted
  {
    assert p !in Mutable(a.typ);
    assert EntityGraph.Builtin !in Mutable(a.typ);
  }

  /** Frozen identity in plain terms: no run changes an entity's type or any of its identifying properties,
      nor a name other than the organization's, and a built-in role never changes at all. */
  lemma FrozenIdentity(agency: string, calls: seq<Call>, more: seq<Call>, i: Id, p: Prop)
    requires ValidRun(agency, calls + more) && i < |Run(agency, calls).ents|
    requires p in IDENTITY || (p == Name && Run(agency, calls).ents[i].typ != TOrganization)
    ensures i < |Run(agency, calls + more).ents|
    ensures var a, b := Run(agency, calls).ents[i], Run(agency, calls + more).ents[i];
      b.typ == a.typ && (p in b.props <==> p in a.props) && (p in a.props ==> b.props[p] == a.props[p]) &&
      (IsBuiltin(a) ==> b == a && !b.deleted)
  {
    RunEvolves(agency, calls, more);
    RunKeepsInv(agency, calls + more);
    assert EntitySound(Run(agency, calls + more), Run(agency, calls + more).ents[i]);
    FrozenEntity(Run(agency, calls).ents[i], Run(agency, calls + more).ents[i], p);
  }
}
