/** Which calls keep all edges conforming: the manager stores edges to whatever identifiers it is given. */
module EdgeConformance {
  import opened EntityGraph
  import opened Helpers
  import opened Schema
  import opened Operations
  import opened Invariants
  import opened PlansLegal
  import opened Footprints
  import opened Invitations
  import opened Secrets
  import opened Completeness
  import opened Conformance

  predicate IsA(s: Store, id: Id, t: TypeName) {
    id < |s.ents| && s.ents[id].typ == t
  }

  /** The writes of an invitation before its first role link. */
  function RoleBase(req: InviteRequest): nat {
    3 + (if req.invitedBy.Some? then 1 else 0)
  }

  /** The identifiers a call made edges to, before it ended, name entities of the types the edges lead to. An
      inviter may also be the very user the invitation creates. */
  ghost predicate IdsFit(s: Store, c: Call) {
    match c.op
    case InviteUser(req, hash, at) =>
      List(s.ents, TUser, Where(Email, Text(req.email))) != [] ||
      ((req.invitedBy.Some? && c.done >= 4 ==> IsA(s, req.invitedBy.value, TUser) || req.invitedBy.value == |s.ents|) &&
       RolesFit(s, req, c.done))
    case GrantMembership(req, _) =>
      (c.done >= 2 ==> IsA(s, req.user, TUser)) && (c.done >= 3 ==> IsA(s, req.role, TRole))
    case CreateOAuthClient(req, _, _, _) => ScopesFit(s, req, c.done)
    case _ => true
  }

  ghost predicate RolesFit(s: Store, req: InviteRequest, done: nat) {
    forall j :: 0 <= j < |req.roleIds| && RoleBase(req) + j < done ==> IsA(s, req.roleIds[j], TRole)
  }

  ghost predicate ScopesFit(s: Store, req: ClientRequest, done: nat) {
    forall j :: 0 <= j < |req.scopeIds| && 1 + 2 * |req.redirectURIs| + j < done ==> IsA(s, req.scopeIds[j], TScope)
  }

  // ---------------------------------------------------------------- edges that fit stay fitting

  /** No entity disappears or changes its type. */
  ghost predicate SameTypes(s: Store, t: Store) {
    |s.ents| <= |t.ents| && forall i :: 0 <= i < |s.ents| ==> t.ents[i].typ == s.ents[i].typ
  }

  lemma EdgeStillConforms(s: Store, t: Store, e: Edge)
    requires SameTypes(s, t) && EdgeConforms(s, e)
    ensures EdgeConforms(t, e)
  {
  }

  /** Every edge conforms when it is made. */
  ghost predicate FitsAll(s: Store, ws: seq<Write>)
    decreases |ws|
  {
    |ws| == 0 || ((ws[0].Link? ==> EdgeConforms(s, ws[0].edge)) && FitsAll(Apply(s, ws[0]), ws[1..]))
  }

  lemma EdgesConformStep(s: Store, w: Write)
    requires EdgesConform(s) && (w.Link? ==> EdgeConforms(s, w.edge))
    ensures EdgesConform(Apply(s, w))
  {
    var t := Apply(s, w);
    assert SameTypes(s, t);
    forall k | 0 <= k < |t.edges|
      ensures EdgeConforms(t, t.edges[k])
    {
      if k < |s.edges| {
        EdgeStillConforms(s, t, s.edges[k]);
      } else {
        EdgeStillConforms(s, t, w.edge);
      }
    }
  }

  lemma {:induction false} EdgesConformAfter(s: Store, ws: seq<Write>)
    requires EdgesConform(s) && FitsAll(s, ws)
    ensures EdgesConform(ApplyAll(s, ws))
    decreases |ws|
  {
    if |ws| > 0 {
      EdgesConformStep(s, ws[0]);
      EdgesConformAfter(Apply(s, ws[0]), ws[1..]);
    }
  }

  lemma {:induction false} FitsCut(s: Store, ws: seq<Write>, k: nat)
    requires FitsAll(s, ws)
    ensures FitsAll(s, Cut(ws, k))
    decreases |ws|
  {
    if 0 < k <= |ws| {
      assert ws[..k][0] == ws[0] && ws[..k][1..] == ws[1..][..k - 1];
      FitsCut(Apply(s, ws[0]), ws[1..], k - 1);
    }
  }

  lemma {:induction false} FitsAppend(s: Store, a: seq<Write>, b: seq<Write>)
    requires FitsAll(s, a) && FitsAll(ApplyAll(s, a), b)
    ensures FitsAll(s, a + b)
    decreases |a|
  {
    if |a| == 0 {
      assert a + b == b;
    } else {
      assert (a + b)[0] == a[0] && (a + b)[1..] == a[1..] + b;
      FitsAppend(Apply(s, a[0]), a[1..], b);
    }
  }

  lemma CutFits(s: Store, a: seq<Write>, b: seq<Write>, k: nat)
    requires FitsAll(s, a)
    requires k > |a| ==> FitsAll(ApplyAll(s, a), Cut(b, k - |a|))
    ensures FitsAll(s, Cut(a + b, k))
  {
    CutAppend(a, b, k);
    if k <= |a| {
      FitsCut(s, a, k);
    } else {
      FitsAppend(s, a, Cut(b, k - |a|));
    }
  }

  lemma {:induction false} LinksFit(s: Store, ws: seq<Write>)
    requires forall j :: 0 <= j < |ws| ==> ws[j].Link? && EdgeConforms(s, ws[j].edge)
    ensures FitsAll(s, ws)
    decreases |ws|
  {
    if |ws| > 0 {
      var t := Apply(s, ws[0]);
      forall j | 0 <= j < |ws[1..]|
        ensures ws[1..][j].Link? && EdgeConforms(t, ws[1..][j].edge)
      {
        EdgeStillConforms(s, t, ws[j + 1].edge);
      }
      LinksFit(t, ws[1..]);
    }
  }

  lemma CreateThenLinkFits(s: Store, w: Write, e: Edge)
    requires w.Create? && EdgeConforms(Apply(s, w), e)
    ensures FitsAll(s, [w, Link(e)])
  {
    assert [w, Link(e)][1..] == [Link(e)];
    assert FitsAll(Apply(s, w), [Link(e)]);
  }

  lemma {:induction false} NoLinksFit(s: Store, ws: seq<Write>)
    requires forall w :: w in ws ==> !w.Link?
    ensures FitsAll(s, ws)
    decreases |ws|
  {
    if |ws| > 0 {
      assert ws[0] in ws;
      NoLinksFit(Apply(s, ws[0]), ws[1..]);
    }
  }

  // ---------------------------------------------------------------- identifiers that fit make edges that fit

  lemma GrantFits(s: Store, req: GrantRequest, now: int, done: nat)
    requires IdsFit(s, Call(GrantMembership(req, now), done))
    ensures FitsAll(s, Cut(GrantMembershipPlan(s, req, now).ws, done))
  {
    var m := |s.ents|;
    var w := Create(TMembership, MembershipProps(s.agency, req, now));
    var links := [Link(Edge(HasMembership, req.user, m)), Link(Edge(GrantsRole, m, req.role))];
    assert GrantMembershipPlan(s, req, now).ws == [w] + links;
    if done > 1 {
      assert ApplyAll(s, [w]) == Apply(s, w);
      LinksFit(Apply(s, w), Cut(links, done - 1));
    }
    NoLinksFit(s, [w]);
    CutFits(s, [w], links, done);
  }

  lemma NewPairFits(s: Store, user: Props, inv: Props)
    ensures FitsAll(s, NewPair(|s.ents|, user, inv))
  {
    var w1, w2, e := Create(TUser, user), Create(TInvitation, inv), Edge(HasInvitation, |s.ents|, |s.ents| + 1);
    CreateThenLinkFits(Apply(s, w1), w2, e);
    assert NewPair(|s.ents|, user, inv)[1..] == [w2, Link(e)];
  }

  /** The edges of an invitation: its inviter, if any, and then its roles. */
  lemma InviteLinkAt(inv: Id, req: InviteRequest, j: nat)
    requires j < |InviteLinks(inv, req)|
    ensures var i := j + 3 - RoleBase(req);
      if i < 0 then InviteLinks(inv, req)[j] == Link(Edge(InvitedBy, inv, req.invitedBy.value))
      else i < |req.roleIds| && InviteLinks(inv, req)[j] == Link(Edge(WillGrantRole, inv, req.roleIds[i]))
  {
  }

  lemma InviteLinkFits(s: Store, t: Store, req: InviteRequest, k: nat, j: nat)
    requires SameTypes(s, t) && IsA(t, |s.ents|, TUser) && IsA(t, |s.ents| + 1, TInvitation)
    requires req.invitedBy.Some? && k > 0 ==> IsA(s, req.invitedBy.value, TUser) || req.invitedBy.value == |s.ents|
    requires RolesFit(s, req, k + 3) && j < k && j < |InviteLinks(|s.ents| + 1, req)|
    ensures var w := InviteLinks(|s.ents| + 1, req)[j]; w.Link? && EdgeConforms(t, w.edge)
  {
    InviteLinkAt(|s.ents| + 1, req, j);
    var i := j + 3 - RoleBase(req);
    if i >= 0 {
      assert IsA(s, req.roleIds[i], TRole);
    }
  }

  lemma InviteLinksFit(s: Store, t: Store, req: InviteRequest, k: nat)
    requires SameTypes(s, t) && IsA(t, |s.ents|, TUser) && IsA(t, |s.ents| + 1, TInvitation)
    requires req.invitedBy.Some? && k > 0 ==> IsA(s, req.invitedBy.value, TUser) || req.invitedBy.value == |s.ents|
    requires RolesFit(s, req, k + 3)
    ensures FitsAll(t, Cut(InviteLinks(|s.ents| + 1, req), k))
  {
    var all := InviteLinks(|s.ents| + 1, req);
    var links := Cut(all, k);
    forall j | 0 <= j < |links|
      ensures links[j].Link? && EdgeConforms(t, links[j].edge)
    {
      InviteLinkFits(s, t, req, k, j);
      assert links[j] == all[j];
    }
    LinksFit(t, links);
  }

  lemma InviteFits(s: Store, req: InviteRequest, hash: string, at: int, done: nat)
    requires IdsFit(s, Call(InviteUser(req, hash, at), done))
    ensures FitsAll(s, Cut(WritesOf(InviteUserPlan(s, req, hash, at)), done))
  {
    if InviteUserPlan(s, req, hash, at).Writes? {
      var user := UserProps(s.agency, req, Sec(at));
      var inv := InvitationProps(s.agency, hash, Sec(at + TTL(req.expiresIn)), Sec(at));
      var pair, links := NewPair(|s.ents|, user, inv), InviteLinks(|s.ents| + 1, req);
      assert InviteUserPlan(s, req, hash, at).ws == pair + links by {
        InvitePlanIs(s, req, hash, at);
      }
      NewPairFits(s, user, inv);
      if done > 3 {
        AfterNewPair(s, user, inv);
        InviteLinksFit(s, ApplyAll(s, pair), req, done - 3);
      }
      CutFits(s, pair, links, done);
    }
  }

  lemma {:induction false} UrisFit(s: Store, agency: string, client: Id, uris: seq<string>, now: int)
    requires IsA(s, client, TOAuthClient)
    ensures FitsAll(s, UriWrites(agency, client, |s.ents|, uris, now))
    decreases |uris|
  {
    if |uris| > 0 {
      var pair := UriPair(agency, client, |s.ents|, uris[0], now);
      CreateThenLinkFits(s, pair[0], pair[1].edge);
      AfterUriPair(s, agency, client, |s.ents|, uris[0], now);
      assert ApplyAll(s, pair).ents[client] == ApplyAll(s, pair).ents[..|s.ents|][client];
      UrisFit(ApplyAll(s, pair), agency, client, uris[1..], now);
      FitsAppend(s, pair, UriWrites(agency, client, |s.ents| + 1, uris[1..], now));
    }
  }

  lemma SecretFits(s: Store, agency: string, client: Id, secret: NewSecret, now: int)
    requires IsA(s, client, TOAuthClient)
    ensures FitsAll(s, SecretWrites(agency, client, |s.ents|, secret, now))
  {
    var ws, e := SecretWrites(agency, client, |s.ents|, secret, now), Edge(HasClientSecret, client, |s.ents|);
    var t := Apply(s, ws[0]);
    assert t.ents[client] == s.ents[client] && t.ents[|s.ents|].typ == TClientSecret;
    assert EdgeConforms(t, e);
    CreateThenLinkFits(s, ws[0], e);
    assert ws == [ws[0], Link(e)];
  }

  lemma {:induction false} UrisLength(agency: string, client: Id, next: Id, uris: seq<string>, now: int)
    ensures |UriWrites(agency, client, next, uris, now)| == 2 * |uris|
    decreases |uris|
  {
    if |uris| > 0 {
      UrisLength(agency, client, next + 1, uris[1..], now);
    }
  }

  lemma {:induction false} TypesStay(s: Store, ws: seq<Write>)
    ensures SameTypes(s, ApplyAll(s, ws))
    decreases |ws|
  {
    if |ws| > 0 {
      TypesStay(Apply(s, ws[0]), ws[1..]);
    }
  }

  lemma ScopeLinksFit(s: Store, t: Store, client: Id, scopes: seq<Id>, k: nat)
    requires SameTypes(s, t) && IsA(t, client, TOAuthClient)
    requires forall j :: 0 <= j < |scopes| && j < k ==> IsA(s, scopes[j], TScope)
    ensures FitsAll(t, Cut(LinksTo(AllowsScope, client, scopes), k))
  {
    LinksFit(t, Cut(LinksTo(AllowsScope, client, scopes), k));
  }

  /** The client entity and its redirect URIs. */
  lemma ClientAndUris(s: Store, props: Props, uris: seq<string>, now: int, a: seq<Write>)
    requires a == [Create(TOAuthClient, props)] + UriWrites(s.agency, |s.ents|, |s.ents| + 1, uris, now)
    ensures FitsAll(s, a) && |a| == 1 + 2 * |uris|
    ensures var t := ApplyAll(s, a);
      SameTypes(s, t) && IsA(t, |s.ents|, TOAuthClient) && |t.ents| == |s.ents| + 1 + |uris|
  {
    var w, us := [Create(TOAuthClient, props)], UriWrites(s.agency, |s.ents|, |s.ents| + 1, uris, now);
    var s1 := Apply(s, w[0]);
    assert ApplyAll(s, w) == s1;
    UrisLength(s.agency, |s.ents|, |s.ents| + 1, uris, now);
    NoLinksFit(s, w);
    UrisFit(s1, s.agency, |s.ents|, uris, now);
    FitsAppend(s, w, us);
    ApplyAppend(s, w, us);
    TypesStay(s, a);
    TypesStay(s1, us);
    AfterUris(s1, s.agency, |s.ents|, |s.ents| + 1, uris, now);
  }

  lemma LinksThenTailFit(s: Store, t: Store, req: ClientRequest, secret: NewSecret, now: int, k: nat)
    requires SameTypes(s, t) && IsA(t, |s.ents|, TOAuthClient) && |t.ents| == |s.ents| + 1 + |req.redirectURIs|
    requires forall j :: 0 <= j < |req.scopeIds| && j < k ==> IsA(s, req.scopeIds[j], TScope)
    ensures FitsAll(t, Cut(LinksTo(AllowsScope, |s.ents|, req.scopeIds)
                           + ClientTail(s.agency, |s.ents|, req, secret, now), k))
  {
    var links, tail := LinksTo(AllowsScope, |s.ents|, req.scopeIds), ClientTail(s.agency, |s.ents|, req, secret, now);
    ScopeLinksFit(s, t, |s.ents|, req.scopeIds, k);
    CutAppend(links, tail, k);
    if k > |links| {
      var u := ApplyAll(t, links);
      LinksToOnly(AllowsScope, |s.ents|, req.scopeIds);
      LinksOnlyAddEdges(t, links);
      CutAll(links, k);
      SecretFits(u, s.agency, |s.ents|, secret, now);
      FitsCut(u, tail, k - |links|);
      FitsAppend(t, links, Cut(tail, k - |links|));
    }
  }

  lemma ClientFits(s: Store, req: ClientRequest, clientId: string, secret: NewSecret, now: int, done: nat)
    requires ScopesFit(s, req, done)
    ensures FitsAll(s, Cut(CreateOAuthClientPlan(s, req, clientId, secret, now).ws, done))
  {
    var props := ClientProps(s.agency, req, clientId, now);
    var a := [Create(TOAuthClient, props)] + UriWrites(s.agency, |s.ents|, |s.ents| + 1, req.redirectURIs, now);
    var b := LinksTo(AllowsScope, |s.ents|, req.scopeIds) + ClientTail(s.agency, |s.ents|, req, secret, now);
    ClientPlanIs(s, req, clientId, secret, now);
    ClientAndUris(s, props, req.redirectURIs, now, a);
    if done > |a| {
      LinksThenTailFit(s, ApplyAll(s, a), req, secret, now, done - |a|);
    }
    CutFits(s, a, b, done);
  }

  lemma CallFits(s: Store, c: Call)
    requires IdsFit(s, c)
    ensures FitsAll(s, Cut(WritesOf(Plan(s, c.op)), c.done))
  {
    match c.op
    case InviteUser(req, hash, at) => InviteFits(s, req, hash, at, c.done);
    case GrantMembership(req, now) => GrantFits(s, req, now, c.done);
    case CreateOAuthClient(req, clientId, secret, now) => ClientFits(s, req, clientId, secret, now, c.done);
    case RotateClientSecret(clientId, secret, now) => RotationFits(s, clientId, secret, now, c.done);
    case _ => OthersFit(s, c);
  }

  lemma RotationFits(s: Store, clientId: string, secret: NewSecret, now: int, done: nat)
    ensures FitsAll(s, Cut(WritesOf(RotateClientSecretPlan(s, clientId, secret, now)), done))
  {
    var found := List(s.ents, TOAuthClient, Where(ClientId, Text(clientId)));
    if found != [] {
      SecretFits(s, s.agency, found[0], secret, now);
      FitsCut(s, SecretWrites(s.agency, found[0], |s.ents|, secret, now), done);
    }
  }

  lemma OthersFit(s: Store, c: Call)
    requires LinkNames(c.op) == {}
    ensures FitsAll(s, Cut(WritesOf(Plan(s, c.op)), c.done))
  {
    var ws := WritesOf(Plan(s, c.op));
    PlanLinks(s, c.op);
    NoLinksFit(s, ws);
    FitsCut(s, ws, c.done);
  }

  // ---------------------------------------------------------------- edges that fit come from identifiers that fit

  /** Where the edges with a caller's identifiers have to end. */
  lemma EdgeEnds(t: Store, e: Edge)
    requires EdgeConforms(t, e)
    ensures e.name == HasMembership ==> IsA(t, e.from, TUser)
    ensures e.name == GrantsRole || e.name == WillGrantRole ==> IsA(t, e.to, TRole)
    ensures e.name == InvitedBy ==> IsA(t, e.to, TUser)
    ensures e.name == AllowsScope ==> IsA(t, e.to, TScope)
  {
  }

  /** A planned edge that was made is in the store. */
  lemma MadeEdge(s: Store, t: Store, ws: seq<Write>, done: nat, k: nat, e: Edge)
    requires t == ApplyAll(s, Cut(ws, done)) && EdgesConform(t) && k < |ws| && k < done && ws[k] == Link(e)
    ensures EdgeConforms(t, e)
  {
    assert Cut(ws, done)[k] == ws[k];
    LinkIsMade(s, Cut(ws, done), e);
    var n :| 0 <= n < |t.edges| && t.edges[n] == e;
  }

  lemma WasA(s: Store, t: Store, types: set<TypeName>, id: Id, typ: TypeName)
    requires Untouched(s, t, types) && typ !in types && IsA(t, id, typ)
    ensures IsA(s, id, typ)
  {
  }

  lemma GrantedIdsFit(s: Store, t: Store, req: GrantRequest, now: int, done: nat)
    requires var ws := GrantMembershipPlan(s, req, now).ws; t == ApplyAll(s, Cut(ws, done))
    requires Untouched(s, t, {TMembership}) && EdgesConform(t)
    ensures IdsFit(s, Call(GrantMembership(req, now), done))
  {
    var ws := GrantMembershipPlan(s, req, now).ws;
    if done >= 2 {
      MadeEdge(s, t, ws, done, 1, Edge(HasMembership, req.user, |s.ents|));
      EdgeEnds(t, Edge(HasMembership, req.user, |s.ents|));
      WasA(s, t, {TMembership}, req.user, TUser);
    }
    if done >= 3 {
      MadeEdge(s, t, ws, done, 2, Edge(GrantsRole, |s.ents|, req.role));
      EdgeEnds(t, Edge(GrantsRole, |s.ents|, req.role));
      WasA(s, t, {TMembership}, req.role, TRole);
    }
  }

  lemma InviteWriteAt(s: Store, req: InviteRequest, hash: string, at: int, k: nat)
    requires InviteUserPlan(s, req, hash, at).Writes?
    ensures |InviteUserPlan(s, req, hash, at).ws| == RoleBase(req) + |req.roleIds|
    ensures k == 3 && req.invitedBy.Some? ==>
      InviteUserPlan(s, req, hash, at).ws[k] == Link(Edge(InvitedBy, |s.ents| + 1, req.invitedBy.value))
    ensures RoleBase(req) <= k < RoleBase(req) + |req.roleIds| ==>
      InviteUserPlan(s, req, hash, at).ws[k] == Link(Edge(WillGrantRole, |s.ents| + 1, req.roleIds[k - RoleBase(req)]))
  {
    InvitePlanIs(s, req, hash, at);
    if 3 <= k < RoleBase(req) + |req.roleIds| {
      InviteLinkAt(|s.ents| + 1, req, k - 3);
    }
  }

  /** From the third write on an invitation has made its two entities, and makes no more. */
  lemma InviteEntities(s: Store, t: Store, ws: seq<Write>, req: InviteRequest, hash: string, at: int, done: nat)
    requires InviteUserPlan(s, req, hash, at) == Writes(ws) && done >= 3 && t == ApplyAll(s, Cut(ws, done))
    ensures |t.ents| == |s.ents| + 2 && t.ents[|s.ents| + 1].typ == TInvitation
  {
    var user := UserProps(s.agency, req, Sec(at));
    var inv := InvitationProps(s.agency, hash, Sec(at + TTL(req.expiresIn)), Sec(at));
    var pair, links := NewPair(|s.ents|, user, inv), InviteLinks(|s.ents| + 1, req);
    assert ws == pair + links by {
      InvitePlanIs(s, req, hash, at);
    }
    CutAppend(pair, links, done);
    AfterNewPair(s, user, inv);
    ApplyAppend(s, pair, Cut(links, done - 3));
    InviteLinksOnly(|s.ents| + 1, req);
    LinksOnlyAddEdges(ApplyAll(s, pair), Cut(links, done - 3));
  }

  lemma InviterIsUser(s: Store, t: Store, ws: seq<Write>, e: Edge, done: nat)
    requires t == ApplyAll(s, Cut(ws, done)) && EdgesConform(t) && |ws| > 3 && ws[3] == Link(e) && done >= 4
    requires e.name == InvitedBy
    ensures IsA(t, e.to, TUser)
  {
    MadeEdge(s, t, ws, done, 3, e);
    EdgeEnds(t, e);
  }

  lemma OldOrNewUser(s: Store, t: Store, types: set<TypeName>, id: Id)
    requires Untouched(s, t, types) && IsA(t, id, TUser)
    requires |t.ents| == |s.ents| + 2 && t.ents[|s.ents| + 1].typ == TInvitation
    ensures IsA(s, id, TUser) || id == |s.ents|
  {
  }

  lemma InviterFits(s: Store, t: Store, ws: seq<Write>, req: InviteRequest, hash: string, at: int, done: nat)
    requires InviteUserPlan(s, req, hash, at) == Writes(ws) && t == ApplyAll(s, Cut(ws, done))
    requires Untouched(s, t, {TUser, TInvitation}) && EdgesConform(t) && req.invitedBy.Some? && done >= 4
    ensures IsA(s, req.invitedBy.value, TUser) || req.invitedBy.value == |s.ents|
  {
    InviteWriteAt(s, req, hash, at, 3);
    InviterIsUser(s, t, ws, Edge(InvitedBy, |s.ents| + 1, req.invitedBy.value), done);
    InviteEntities(s, t, ws, req, hash, at, done);
    OldOrNewUser(s, t, {TUser, TInvitation}, req.invitedBy.value);
  }

  lemma InvitedRolesFit(s: Store, t: Store, ws: seq<Write>, req: InviteRequest, hash: string, at: int, done: nat)
    requires InviteUserPlan(s, req, hash, at) == Writes(ws) && t == ApplyAll(s, Cut(ws, done))
    requires Untouched(s, t, {TUser, TInvitation}) && EdgesConform(t)
    ensures RolesFit(s, req, done)
  {
    forall j | 0 <= j < |req.roleIds| && RoleBase(req) + j < done
      ensures IsA(s, req.roleIds[j], TRole)
    {
      var k, e := RoleBase(req) + j, Edge(WillGrantRole, |s.ents| + 1, req.roleIds[j]);
      assert k < |ws| && ws[k] == Link(e) by {
        InviteWriteAt(s, req, hash, at, k);
      }
      MadeEdge(s, t, ws, done, k, e);
      EdgeEnds(t, e);
      WasA(s, t, {TUser, TInvitation}, req.roleIds[j], TRole);
    }
  }

  lemma InvitedIdsFit(s: Store, t: Store, req: InviteRequest, hash: string, at: int, done: nat)
    requires t == ApplyAll(s, Cut(WritesOf(InviteUserPlan(s, req, hash, at)), done))
    requires Untouched(s, t, {TUser, TInvitation}) && EdgesConform(t)
    ensures IdsFit(s, Call(InviteUser(req, hash, at), done))
  {
    var plan := InviteUserPlan(s, req, hash, at);
    if plan.Writes? {
      InvitedRolesFit(s, t, plan.ws, req, hash, at, done);
      if req.invitedBy.Some? && done >= 4 {
        InviterFits(s, t, plan.ws, req, hash, at, done);
      }
    }
  }

  lemma ScopeLinkAt(s: Store, req: ClientRequest, clientId: string, secret: NewSecret, now: int, j: nat)
    requires j < |req.scopeIds|
    ensures var ws, k := CreateOAuthClientPlan(s, req, clientId, secret, now).ws, 1 + 2 * |req.redirectURIs| + j;
      k < |ws| && ws[k] == Link(Edge(AllowsScope, |s.ents|, req.scopeIds[j]))
  {
    ClientPlanIs(s, req, clientId, secret, now);
    UrisLength(s.agency, |s.ents|, |s.ents| + 1, req.redirectURIs, now);
  }

  lemma ClientIdsFit(s: Store, t: Store, req: ClientRequest, clientId: string, secret: NewSecret, now: int, done: nat)
    requires t == ApplyAll(s, Cut(CreateOAuthClientPlan(s, req, clientId, secret, now).ws, done))
    requires Untouched(s, t, {TOAuthClient, TRedirectURI, TClientSecret}) && EdgesConform(t)
    ensures ScopesFit(s, req, done)
  {
    var ws := CreateOAuthClientPlan(s, req, clientId, secret, now).ws;
    forall j | 0 <= j < |req.scopeIds| && 1 + 2 * |req.redirectURIs| + j < done
      ensures IsA(s, req.scopeIds[j], TScope)
    {
      var k, e := 1 + 2 * |req.redirectURIs| + j, Edge(AllowsScope, |s.ents|, req.scopeIds[j]);
      assert k < |ws| && ws[k] == Link(e) by {
        ScopeLinkAt(s, req, clientId, secret, now, j);
      }
      MadeEdge(s, t, ws, done, k, e);
      EdgeEnds(t, e);
      WasA(s, t, {TOAuthClient, TRedirectURI, TClientSecret}, req.scopeIds[j], TScope);
    }
  }

  lemma ConformingIdsFit(s: Store, t: Store, c: Call)
    requires t == AfterCall(s, c) && Untouched(s, t, Footprint(c.op)) && EdgesConform(t)
    ensures IdsFit(s, c)
  {
    match c.op
    case InviteUser(req, hash, at) => InvitedIdsFit(s, t, req, hash, at, c.done);
    case GrantMembership(req, now) => GrantedIdsFit(s, t, req, now, c.done);
    case CreateOAuthClient(req, clientId, secret, now) => ClientIdsFit(s, t, req, clientId, secret, now, c.done);
    case _ =>
  }

  // ---------------------------------------------------------------- the exact condition

  /** In a store whose edges conform, they still do after a call, wherever it was cut short, if and only if the
      identifiers that the call made edges to fit. */
  lemma EdgesConformExactly(s: Store, c: Call)
    requires Inv(s) && Admissible(s, c.op) && EdgesConform(s)
    ensures EdgesConform(AfterCall(s, c)) <==> IdsFit(s, c)
  {
    if IdsFit(s, c) {
      CallFits(s, c);
      EdgesConformAfter(s, Cut(WritesOf(Plan(s, c.op)), c.done));
    }
    if EdgesConform(AfterCall(s, c)) {
      CallUntouched(s, c);
      ConformingIdsFit(s, AfterCall(s, c), c);
    }
  }

  ghost predicate FittingRun(agency: string, calls: seq<Call>) {
    |calls| == 0 ||
    (var before := calls[..|calls| - 1];
     FittingRun(agency, before) && IdsFit(Run(agency, before), calls[|calls| - 1]))
  }

  /** The edges conform after every call of the run. */
  ghost predicate EdgesAlwaysConform(agency: string, calls: seq<Call>) {
    EdgesConform(Run(agency, calls)) && (|calls| > 0 ==> EdgesAlwaysConform(agency, calls[..|calls| - 1]))
  }

  /** Over a whole run all edges always conform if and only if the identifiers of every call fit. */
  lemma {:induction false} RunEdgesConformExactly(agency: string, calls: seq<Call>)
    requires ValidRun(agency, calls)
    ensures EdgesAlwaysConform(agency, calls) <==> FittingRun(agency, calls)
  {
    if |calls| > 0 {
      var before, c := calls[..|calls| - 1], calls[|calls| - 1];
      RunEdgesConformExactly(agency, before);
      if EdgesAlwaysConform(agency, before) {
        assert EdgesConform(Run(agency, before));
        RunKeepsInv(agency, before);
        EdgesConformExactly(Run(agency, before), c);
      }
    }
  }

  /** With listed options and fitting identifiers the whole store conforms. */
  lemma RunConforms(agency: string, calls: seq<Call>)
    requires ValidRun(agency, calls) && OptionsListedIn(calls) && FittingRun(agency, calls)
    ensures EntitiesConform(Run(agency, calls)) && EdgesConform(Run(agency, calls))
  {
    EntitiesConformExactly(agency, calls);
    RunEdgesConformExactly(agency, calls);
    assert EdgesAlwaysConform(agency, calls);
  }

  /** The manager does not check: a membership granted to nobody, on the empty store, leaves edges that do not
      conform, and all entities conforming. */
  lemma StrayGrantExample(agency: string, calls: seq<Call>)
    requires calls == [Call(GrantMembership(GrantRequest(7, 8, "admin"), 0), 3)]
    ensures ValidRun(agency, calls) && EntitiesConform(Run(agency, calls)) && !EdgesConform(Run(agency, calls))
  {
    var s, c := EmptyStore(agency), calls[0];
    assert calls[..0] == [];
    assert ValidRun(agency, []) && Run(agency, []) == s;
    RunKeepsInv(agency, []);
    EntitiesConformExactly(agency, calls);
    EdgesConformExactly(s, c);
  }
}
