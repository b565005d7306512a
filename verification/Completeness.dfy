/** What a finished invitation or client creation has really made, and that it stays. */
module Completeness {
  import opened EntityGraph
  import opened Operations
  import opened Invariants
  import opened PlansLegal
  import opened Footprints
  import opened Invitations
  import opened Secrets

  lemma {:induction false} EdgesGrow(s: Store, ws: seq<Write>)
    ensures s.edges <= ApplyAll(s, ws).edges
    decreases |ws|
  {
    if |ws| > 0 {
      EdgesGrow(Apply(s, ws[0]), ws[1..]);
    }
  }

  lemma {:induction false} LinkIsMade(s: Store, ws: seq<Write>, e: Edge)
    requires Link(e) in ws
    ensures e in ApplyAll(s, ws).edges
    decreases |ws|
  {
    if ws[0] == Link(e) {
      var s1 := Apply(s, ws[0]);
      assert s1.edges[|s.edges|] == e;
      EdgesGrow(s1, ws[1..]);
      EdgeStays(s1, ApplyAll(s, ws), e);
    } else {
      LinkIsMade(Apply(s, ws[0]), ws[1..], e);
    }
  }

  lemma EdgeForLife(agency: string, calls: seq<Call>, more: seq<Call>, e: Edge)
    requires ValidRun(agency, calls + more) && e in Run(agency, calls).edges
    ensures e in Run(agency, calls + more).edges
  {
    RunEvolves(agency, calls, more);
    EdgeStays(Run(agency, calls), Run(agency, calls + more), e);
  }

  /** Every edge a finished call planned is there, and stays for the rest of the run. */
  lemma PlannedEdgesLast(agency: string, calls: seq<Call>, c: Call, more: seq<Call>, plan: Outcome, e: Edge)
    requires ValidRun(agency, calls + [c] + more) && plan == Plan(Run(agency, calls), c.op)
    requires Complete(plan, c.done) && Link(e) in plan.ws
    ensures e in Run(agency, calls + [c] + more).edges
  {
    RunSnoc(agency, calls, c);
    CutAll(plan.ws, c.done);
    LinkIsMade(Run(agency, calls), plan.ws, e);
    EdgeForLife(agency, calls + [c], more, e);
  }

  lemma PlanIs(s: Store, op: Op)
    ensures op.InviteUser? ==> Plan(s, op) == InviteUserPlan(s, op.invite, op.hash, op.at)
    ensures op.CreateOAuthClient? ==> Plan(s, op) == CreateOAuthClientPlan(s, op.client, op.clientId, op.secret, op.now)
  {
  }

  // ---------------------------------------------------------------- invitations

  lemma LinkToPlanned(name: EdgeName, from: Id, ids: seq<Id>, id: Id)
    requires id in ids
    ensures Link(Edge(name, from, id)) in LinksTo(name, from, ids)
  {
    var j :| 0 <= j < |ids| && ids[j] == id;
    assert LinksTo(name, from, ids)[j] == Link(Edge(name, from, id));
  }

  lemma InviteLinkPlanned(s: Store, req: InviteRequest, hash: string, at: int, e: Edge)
    requires InviteUserPlan(s, req, hash, at).Writes? && Link(e) in InviteLinks(|s.ents| + 1, req)
    ensures Link(e) in InviteUserPlan(s, req, hash, at).ws
  {
    InvitePlanIs(s, req, hash, at);
  }

  /** A finished invitation leads to its inviter and to every role it will grant, for the rest of the run. */
  lemma InvitationKeepsItsEdges(agency: string, calls: seq<Call>, req: InviteRequest, hash: string, at: int, done: nat,
                                more: seq<Call>, e: Edge)
    requires ValidRun(agency, calls + [Call(InviteUser(req, hash, at), done)] + more)
    requires Complete(InviteUserPlan(Run(agency, calls), req, hash, at), done)
    requires var inv := |Run(agency, calls).ents| + 1;
      (exists role :: role in req.roleIds && e == Edge(WillGrantRole, inv, role)) ||
      (req.invitedBy.Some? && e == Edge(InvitedBy, inv, req.invitedBy.value))
    ensures e in Run(agency, calls + [Call(InviteUser(req, hash, at), done)] + more).edges
  {
    var s, c := Run(agency, calls), Call(InviteUser(req, hash, at), done);
    var plan := InviteUserPlan(s, req, hash, at);
    assert Link(e) in plan.ws by {
      InviteEdgeAmong(|s.ents| + 1, req, e);
      InviteLinkPlanned(s, req, hash, at, e);
    }
    assert plan == Plan(s, c.op) by {
      PlanIs(s, c.op);
    }
    PlannedEdgesLast(agency, calls, c, more, plan, e);
  }

  lemma InviteEdgeAmong(inv: Id, req: InviteRequest, e: Edge)
    requires (exists role :: role in req.roleIds && e == Edge(WillGrantRole, inv, role)) ||
             (req.invitedBy.Some? && e == Edge(InvitedBy, inv, req.invitedBy.value))
    ensures Link(e) in InviteLinks(inv, req)
  {
    if role :| role in req.roleIds && e == Edge(WillGrantRole, inv, role) {
      InviteLinkAmong(inv, req, role);
    } else {
      InviterLinkAmong(inv, req);
    }
  }

  lemma InviteLinkAmong(inv: Id, req: InviteRequest, role: Id)
    requires role in req.roleIds
    ensures Link(Edge(WillGrantRole, inv, role)) in InviteLinks(inv, req)
  {
    LinkToPlanned(WillGrantRole, inv, req.roleIds, role);
  }

  lemma InviterLinkAmong(inv: Id, req: InviteRequest)
    requires req.invitedBy.Some?
    ensures Link(Edge(InvitedBy, inv, req.invitedBy.value)) in InviteLinks(inv, req)
  {
    assert InviteLinks(inv, req)[0] == Link(Edge(InvitedBy, inv, req.invitedBy.value));
  }

  // ---------------------------------------------------------------- clients

  predicate RedirectOf(s: Store, client: Id, n: Id, uri: string) {
    n < |s.ents| && s.ents[n].typ == TRedirectURI && !s.ents[n].deleted && Has(s.ents[n], Uri, Text(uri)) &&
    Edge(HasRedirectURI, client, n) in s.edges
  }

  lemma OneUri(s: Store, agency: string, client: Id, uri: string, now: int)
    ensures RedirectOf(ApplyAll(s, UriPair(agency, client, |s.ents|, uri, now)), client, |s.ents|, uri)
  {
    var pair := UriPair(agency, client, |s.ents|, uri, now);
    assert pair[1..] == [pair[1]];
    var s1 := Apply(s, pair[0]);
    assert ApplyAll(s1, [pair[1]]) == Apply(s1, pair[1]);
    assert Apply(s1, pair[1]).edges[|s.edges|] == Edge(HasRedirectURI, client, |s.ents|);
  }

  lemma RedirectStays(s: Store, t: Store, client: Id, n: Id, uri: string)
    requires RedirectOf(s, client, n, uri) && s.edges <= t.edges && n < |t.ents| && t.ents[n] == s.ents[n]
    ensures RedirectOf(t, client, n, uri)
  {
    EdgeStays(s, t, Edge(HasRedirectURI, client, n));
  }

  lemma {:induction false} UrisAreMade(s: Store, agency: string, client: Id, uris: seq<string>, now: int, i: nat)
    requires i < |uris|
    ensures RedirectOf(ApplyAll(s, UriWrites(agency, client, |s.ents|, uris, now)), client, |s.ents| + i, uris[i])
    decreases |uris|
  {
    var pair := UriPair(agency, client, |s.ents|, uris[0], now);
    var rest := UriWrites(agency, client, |s.ents| + 1, uris[1..], now);
    var s1 := ApplyAll(s, pair);
    var t := ApplyAll(s1, rest);
    ApplyAppend(s, pair, rest);
    AfterUriPair(s, agency, client, |s.ents|, uris[0], now);
    if i == 0 {
      OneUri(s, agency, client, uris[0], now);
      AfterUris(s1, agency, client, |s.ents| + 1, uris[1..], now);
      EdgesGrow(s1, rest);
      assert t.ents[|s.ents|] == t.ents[..|s1.ents|][|s.ents|];
      RedirectStays(s1, t, client, |s.ents|, uris[0]);
    } else {
      UrisAreMade(s1, agency, client, uris[1..], now, i - 1);
    }
  }

  lemma UrisBeforeRest(s: Store, props: Props, uris: seq<string>, now: int, rest: seq<Write>, i: nat)
    requires i < |uris| && CreatesOnly(rest, {TClientSecret})
    ensures var us := UriWrites(s.agency, |s.ents|, |s.ents| + 1, uris, now);
      RedirectOf(ApplyAll(s, [Create(TOAuthClient, props)] + us + rest), |s.ents|, |s.ents| + 1 + i, uris[i])
  {
    var w, us := [Create(TOAuthClient, props)], UriWrites(s.agency, |s.ents|, |s.ents| + 1, uris, now);
    var s1 := Apply(s, w[0]);
    assert ApplyAll(s, w) == s1;
    ApplyAppend(s, w, us);
    UrisAreMade(s1, s.agency, |s.ents|, uris, now, i);
    var s2 := ApplyAll(s1, us);
    ApplyAppend(s, w + us, rest);
    CreatesKeep(s2, rest, {TClientSecret});
    EdgesGrow(s2, rest);
    RedirectStays(s2, ApplyAll(s2, rest), |s.ents|, |s.ents| + 1 + i, uris[i]);
  }

  lemma ClientRest(agency: string, client: Id, req: ClientRequest, secret: NewSecret, now: int)
    ensures CreatesOnly(LinksTo(AllowsScope, client, req.scopeIds) + ClientTail(agency, client, req, secret, now),
                        {TClientSecret})
  {
  }

  /** Every redirect URI of a finished client creation is stored and linked, in the order they were given. */
  lemma ClientUris(s: Store, req: ClientRequest, clientId: string, secret: NewSecret, now: int, plan: Outcome,
                   t: Store, i: nat)
    requires i < |req.redirectURIs|
    requires plan == CreateOAuthClientPlan(s, req, clientId, secret, now) && t == ApplyAll(s, plan.ws)
    ensures RedirectOf(t, |s.ents|, |s.ents| + 1 + i, req.redirectURIs[i])
  {
    ClientPlanIs(s, req, clientId, secret, now);
    ClientRest(s.agency, |s.ents|, req, secret, now);
    UrisBeforeRest(s, ClientProps(s.agency, req, clientId, now), req.redirectURIs, now,
      LinksTo(AllowsScope, |s.ents|, req.scopeIds) + ClientTail(s.agency, |s.ents|, req, secret, now), i);
  }

  lemma RedirectForLife(s: Store, t: Store, client: Id, n: Id, uri: string)
    requires EntitiesSound(t) && Evolves(s, t) && RedirectOf(s, client, n, uri)
    ensures RedirectOf(t, client, n, uri)
  {
    assert EntitySound(t, t.ents[n]);
    FrozenStays(s.ents[n], t.ents[n], Uri, Text(uri));
    EdgeStays(s, t, Edge(HasRedirectURI, client, n));
  }

  lemma AfterPlan(agency: string, calls: seq<Call>, c: Call, plan: Outcome)
    requires plan == Plan(Run(agency, calls), c.op) && Complete(plan, c.done)
    ensures Run(agency, calls + [c]) == ApplyAll(Run(agency, calls), plan.ws)
  {
    RunSnoc(agency, calls, c);
    CutAll(plan.ws, c.done);
  }

  /** The redirect URIs of a client are the entities behind it, in the order they were given. */
  ghost predicate AllRedirects(s: Store, client: Id, uris: seq<string>) {
    forall i: nat :: i < |uris| ==> RedirectOf(s, client, client + 1 + i, uris[i])
  }

  lemma JustCreated(agency: string, calls: seq<Call>, c: Call, s: Store, t: Store)
    requires s == Run(agency, calls) && t == Run(agency, calls + [c]) && c.op.CreateOAuthClient? && Finished(s, c)
    ensures AllRedirects(t, |s.ents|, c.op.client.redirectURIs)
  {
    var plan := Plan(s, c.op);
    PlanIs(s, c.op);
    AfterPlan(agency, calls, c, plan);
    forall i: nat | i < |c.op.client.redirectURIs|
      ensures RedirectOf(t, |s.ents|, |s.ents| + 1 + i, c.op.client.redirectURIs[i])
    {
      ClientUris(s, c.op.client, c.op.clientId, c.op.secret, c.op.now, plan, t, i);
    }
  }

  lemma RedirectsStay(s: Store, t: Store, client: Id, uris: seq<string>)
    requires EntitiesSound(t) && Evolves(s, t) && AllRedirects(s, client, uris)
    ensures AllRedirects(t, client, uris)
  {
    forall i: nat | i < |uris|
      ensures RedirectOf(t, client, client + 1 + i, uris[i])
    {
      RedirectForLife(s, t, client, client + 1 + i, uris[i]);
    }
  }

  /** All redirect URIs of a finished client creation stay stored and linked for the rest of the run. */
  lemma RedirectURIsForLife(agency: string, calls: seq<Call>, c: Call, more: seq<Call>)
    requires ValidRun(agency, calls + [c] + more) && c.op.CreateOAuthClient? && Finished(Run(agency, calls), c)
    ensures AllRedirects(Run(agency, calls + [c] + more), |Run(agency, calls).ents|, c.op.client.redirectURIs)
  {
    var s, t, final := Run(agency, calls), Run(agency, calls + [c]), Run(agency, calls + [c] + more);
    JustCreated(agency, calls, c, s, t);
    LaterStore(agency, calls + [c], more, t, final);
    RedirectsStay(t, final, |s.ents|, c.op.client.redirectURIs);
  }

  lemma LaterStore(agency: string, calls: seq<Call>, more: seq<Call>, t: Store, final: Store)
    requires ValidRun(agency, calls + more) && t == Run(agency, calls) && final == Run(agency, calls + more)
    ensures EntitiesSound(final) && Evolves(t, final)
  {
    RunEvolves(agency, calls, more);
    RunKeepsInv(agency, calls + more);
  }

  /** So do the edges to all its allowed scopes. */
  lemma AllowedScopesForLife(agency: string, calls: seq<Call>, req: ClientRequest, clientId: string,
                             secret: NewSecret, now: int, done: nat, more: seq<Call>, scope: Id)
    requires ValidRun(agency, calls + [Call(CreateOAuthClient(req, clientId, secret, now), done)] + more)
    requires Complete(CreateOAuthClientPlan(Run(agency, calls), req, clientId, secret, now), done)
    requires scope in req.scopeIds
    ensures Edge(AllowsScope, |Run(agency, calls).ents|, scope)
            in Run(agency, calls + [Call(CreateOAuthClient(req, clientId, secret, now), done)] + more).edges
  {
    var s, c := Run(agency, calls), Call(CreateOAuthClient(req, clientId, secret, now), done);
    var plan := CreateOAuthClientPlan(s, req, clientId, secret, now);
    ScopePlanned(s, req, clientId, secret, now, scope);
    assert plan == Plan(s, c.op) by {
      PlanIs(s, c.op);
    }
    PlannedEdgesLast(agency, calls, c, more, plan, Edge(AllowsScope, |s.ents|, scope));
  }

  lemma ScopePlanned(s: Store, req: ClientRequest, clientId: string, secret: NewSecret, now: int, scope: Id)
    requires scope in req.scopeIds
    ensures Link(Edge(AllowsScope, |s.ents|, scope)) in CreateOAuthClientPlan(s, req, clientId, secret, now).ws
  {
    LinkToPlanned(AllowsScope, |s.ents|, req.scopeIds, scope);
    ClientPlanIs(s, req, clientId, secret, now);
  }
}
