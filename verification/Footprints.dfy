/** The entity types each operation can reach: everything else it leaves exactly as it was. */
module Footprints {
  import opened EntityGraph
  import opened Helpers
  import opened Operations
  import opened Invariants

  function Footprint(op: Op): set<TypeName> {
    match op
    case InitOrganization(_, _) => {TOrganization, TRole}
    case UpdateOrganization(_, _) => {TOrganization}
    case DisableOrganization(_) => {TOrganization}
    case DeleteOrganization => {TOrganization}
    case InviteUser(_, _, _) => {TUser, TInvitation}
    case AcceptInvitation(_, _, _) => {TUser, TInvitation}
    case ChangeUser(_, _, _) => {TUser}
    case CreateRole(_, _) => {TRole}
    case UpdateRole(_, _, _) => {TRole}
    case DeleteRole(_) => {TRole}
    case RegisterScope(_, _) => {TScope}
    case DeprecateScope(_, _) => {TScope}
    case GrantMembership(_, _) => {TMembership}
    case RevokeMembership(_, _) => {TMembership}
    case CreateOAuthClient(_, _, _, _) => {TOAuthClient, TRedirectURI, TClientSecret}
    case RotateClientSecret(_, _, _) => {TClientSecret}
    case DeleteOAuthClient(_) => {TOAuthClient}
    case Revoke(_, _, _, _, _) => ARTIFACTS
    case Mint(_, _, _, _) => ARTIFACTS
    case Purge(_, _) => ARTIFACTS
  }

  predicate Touches(s: Store, w: Write, types: set<TypeName>) {
    match w
    case Create(t, _) => t in types
    case Update(id, _) => id < |s.ents| ==> s.ents[id].typ in types
    case Delete(id) => id < |s.ents| ==> s.ents[id].typ in types
    case Link(_) => true
  }

  predicate TouchOnly(s: Store, ws: seq<Write>, types: set<TypeName>)
    decreases |ws|
  {
    |ws| == 0 || (Touches(s, ws[0], types) && TouchOnly(Apply(s, ws[0]), ws[1..], types))
  }

  /** Entities outside the types stay, and no new ones appear. */
  ghost predicate Untouched(s: Store, t: Store, types: set<TypeName>) {
    |s.ents| <= |t.ents| &&
    (forall i :: 0 <= i < |s.ents| ==>
      t.ents[i].typ == s.ents[i].typ && (s.ents[i].typ !in types ==> t.ents[i] == s.ents[i])) &&
    (forall i :: |s.ents| <= i < |t.ents| ==> t.ents[i].typ in types)
  }

  lemma {:induction false} TouchOnlyUntouched(s: Store, ws: seq<Write>, types: set<TypeName>)
    requires TouchOnly(s, ws, types)
    ensures Untouched(s, ApplyAll(s, ws), types)
    decreases |ws|
  {
    if |ws| > 0 {
      TouchOnlyUntouched(Apply(s, ws[0]), ws[1..], types);
    }
  }

  lemma {:induction false} TouchOnlyCut(s: Store, ws: seq<Write>, types: set<TypeName>, k: nat)
    requires TouchOnly(s, ws, types)
    ensures TouchOnly(s, Cut(ws, k), types)
    decreases |ws|
  {
    if 0 < k <= |ws| {
      assert ws[..k][0] == ws[0] && ws[..k][1..] == ws[1..][..k - 1];
      TouchOnlyCut(Apply(s, ws[0]), ws[1..], types, k - 1);
    }
  }

  /** Writes that only create entities of the types, or links. */
  predicate CreatesOnly(ws: seq<Write>, types: set<TypeName>) {
    forall w :: w in ws ==> w.Link? || (w.Create? && w.typ in types)
  }

  lemma {:induction false} CreatesTouchOnly(s: Store, ws: seq<Write>, types: set<TypeName>)
    requires CreatesOnly(ws, types)
    ensures TouchOnly(s, ws, types)
    decreases |ws|
  {
    if |ws| > 0 {
      assert ws[0] in ws;
      CreatesTouchOnly(Apply(s, ws[0]), ws[1..], types);
    }
  }

  lemma CreatesAppend(a: seq<Write>, b: seq<Write>, types: set<TypeName>)
    requires CreatesOnly(a, types) && CreatesOnly(b, types)
    ensures CreatesOnly(a + b, types)
  {
  }

  lemma {:induction false} CreatesKeep(s: Store, ws: seq<Write>, types: set<TypeName>)
    requires CreatesOnly(ws, types)
    ensures |s.ents| <= |ApplyAll(s, ws).ents|
    ensures forall i :: 0 <= i < |s.ents| ==> ApplyAll(s, ws).ents[i] == s.ents[i]
    decreases |ws|
  {
    if |ws| > 0 {
      assert ws[0] in ws;
      CreatesKeep(Apply(s, ws[0]), ws[1..], types);
    }
  }

  /** Cut short behind its first write, a plan that only creates has still created its first entity. */
  lemma FirstCreate(s: Store, ws: seq<Write>, done: nat, types: set<TypeName>)
    requires |ws| > 0 && ws[0].Create? && CreatesOnly(ws, types) && done > 0
    ensures |s.ents| < |ApplyAll(s, Cut(ws, done)).ents|
    ensures ApplyAll(s, Cut(ws, done)).ents[|s.ents|] == Entity(ws[0].typ, ws[0].props, false)
  {
    var some := Cut(ws, done);
    assert some[0] == ws[0] && forall w :: w in some[1..] ==> w in ws;
    CreatesKeep(Apply(s, ws[0]), some[1..], types);
  }

  lemma {:induction false} SeedCreates(s: Store, bs: seq<Builtin>, now: int, types: set<TypeName>)
    requires TRole in types
    ensures CreatesOnly(SeedWrites(s, bs, now), types)
    decreases |bs|
  {
    if |bs| > 0 {
      SeedCreates(s, bs[1..], now, types);
      SeedCreates(Apply(s, Create(TRole, BuiltinProps(s.agency, bs[0], now))), bs[1..], now, types);
    }
  }

  lemma {:induction false} UrisCreate(agency: string, client: Id, next: Id, uris: seq<string>, now: int,
                                      types: set<TypeName>)
    requires TRedirectURI in types
    ensures CreatesOnly(UriWrites(agency, client, next, uris, now), types)
    decreases |uris|
  {
    if |uris| > 0 {
      UrisCreate(agency, client, next + 1, uris[1..], now, types);
    }
  }

  lemma ClientCreates(s: Store, req: ClientRequest, clientId: string, secret: NewSecret, now: int)
    ensures CreatesOnly(CreateOAuthClientPlan(s, req, clientId, secret, now).ws,
                        {TOAuthClient, TRedirectURI, TClientSecret})
  {
    var c, types := |s.ents|, {TOAuthClient, TRedirectURI, TClientSecret};
    var w := [Create(TOAuthClient, ClientProps(s.agency, req, clientId, now))];
    var uris := UriWrites(s.agency, c, c + 1, req.redirectURIs, now);
    var links := LinksTo(AllowsScope, c, req.scopeIds);
    UrisCreate(s.agency, c, c + 1, req.redirectURIs, now, types);
    CreatesAppend(w, uris, types);
    CreatesAppend(w + uris, links, types);
    CreatesAppend(w + uris + links, ClientTail(s.agency, c, req, secret, now), types);
  }

  lemma CreateClientTouches(s: Store, req: ClientRequest, clientId: string, secret: NewSecret, now: int)
    ensures TouchOnly(s, CreateOAuthClientPlan(s, req, clientId, secret, now).ws,
                      {TOAuthClient, TRedirectURI, TClientSecret})
  {
    ClientCreates(s, req, clientId, secret, now);
    CreatesTouchOnly(s, CreateOAuthClientPlan(s, req, clientId, secret, now).ws,
                     {TOAuthClient, TRedirectURI, TClientSecret});
  }

  lemma InviteCreates(s: Store, req: InviteRequest, hash: string, at: int)
    ensures CreatesOnly(WritesOf(InviteUserPlan(s, req, hash, at)), {TUser, TInvitation})
  {
    var types := {TUser, TInvitation};
    var pair := NewPair(|s.ents|, UserProps(s.agency, req, Sec(at)),
      InvitationProps(s.agency, hash, Sec(at + TTL(req.expiresIn)), Sec(at)));
    CreatesAppend(pair, InviteLinks(|s.ents| + 1, req), types);
  }

  lemma InviteTouches(s: Store, req: InviteRequest, hash: string, at: int)
    ensures TouchOnly(s, WritesOf(InviteUserPlan(s, req, hash, at)), {TUser, TInvitation})
  {
    InviteCreates(s, req, hash, at);
    CreatesTouchOnly(s, WritesOf(InviteUserPlan(s, req, hash, at)), {TUser, TInvitation});
  }

  lemma InitCreates(s: Store, req: OrgRequest, now: int)
    ensures CreatesOnly(WritesOf(InitOrganizationPlan(s, req, now)), {TOrganization, TRole})
  {
    var w := Create(TOrganization, OrgProps(s.agency, req, now));
    SeedCreates(Apply(s, w), BUILTINS, now, {TOrganization, TRole});
  }

  lemma InitTouches(s: Store, req: OrgRequest, now: int)
    ensures TouchOnly(s, WritesOf(InitOrganizationPlan(s, req, now)), {TOrganization, TRole})
  {
    InitCreates(s, req, now);
    CreatesTouchOnly(s, WritesOf(InitOrganizationPlan(s, req, now)), {TOrganization, TRole});
  }

  lemma AcceptTouches(s: Store, hash: string, checked: int, now: int)
    requires InvitationsSound(s)
    ensures TouchOnly(s, WritesOf(AcceptInvitationPlan(s, hash, checked, now)), {TUser, TInvitation})
  {
    var plan := AcceptInvitationPlan(s, hash, checked, now);
    if plan.Writes? {
      var inv := List(s.ents, TInvitation, Where(TokenHash, Text(hash)))[0];
      var rels := EdgesInto(s, HasInvitation, inv);
      assert plan.ws == [Update(rels[0].from, ActivatePatch(now)), Update(inv, AcceptPatch(now))];
      assert rels[0] in rels;
      var s1 := Apply(s, plan.ws[0]);
      assert Touches(s, plan.ws[0], {TUser, TInvitation}) && Touches(s1, plan.ws[1], {TUser, TInvitation});
      assert plan.ws[1..] == [plan.ws[1]];
      assert TouchOnly(s1, [plan.ws[1]], {TUser, TInvitation});
    }
  }

  lemma SecretTouches(s: Store, clientId: string, secret: NewSecret, now: int)
    ensures TouchOnly(s, WritesOf(RotateClientSecretPlan(s, clientId, secret, now)), {TClientSecret})
  {
    CreatesTouchOnly(s, WritesOf(RotateClientSecretPlan(s, clientId, secret, now)), {TClientSecret});
  }

  lemma GrantTouches(s: Store, req: GrantRequest, now: int)
    ensures TouchOnly(s, WritesOf(GrantMembershipPlan(s, req, now)), {TMembership})
  {
    CreatesTouchOnly(s, WritesOf(GrantMembershipPlan(s, req, now)), {TMembership});
  }

  lemma RegisterTouches(s: Store, req: ScopeRequest, now: int)
    ensures TouchOnly(s, WritesOf(RegisterScopePlan(s, req, now)), {TScope})
  {
  }

  lemma PatchesTouch(s: Store, op: Op)
    requires Admissible(s, op)
    requires op.UpdateOrganization? || op.DisableOrganization? || op.ChangeUser? || op.UpdateRole? ||
             op.DeprecateScope? || op.RevokeMembership? || op.CreateRole?
    ensures TouchOnly(s, WritesOf(Plan(s, op)), Footprint(op))
  {
  }

  lemma DeletesTouch(s: Store, op: Op)
    requires Admissible(s, op)
    requires op.DeleteOrganization? || op.DeleteRole? || op.DeleteOAuthClient? || op.Purge? || op.Revoke? || op.Mint?
    ensures TouchOnly(s, WritesOf(Plan(s, op)), Footprint(op))
  {
  }

  /** Every write of an operation stays inside its footprint. */
  lemma PlanTouches(s: Store, op: Op)
    requires Inv(s) && Admissible(s, op)
    ensures TouchOnly(s, WritesOf(Plan(s, op)), Footprint(op))
  {
    match op
    case InitOrganization(req, now) => InitTouches(s, req, now);
    case InviteUser(req, hash, at) => InviteTouches(s, req, hash, at);
    case AcceptInvitation(hash, checked, now) => AcceptTouches(s, hash, checked, now);
    case RegisterScope(req, now) => RegisterTouches(s, req, now);
    case GrantMembership(req, now) => GrantTouches(s, req, now);
    case CreateOAuthClient(req, clientId, secret, now) => CreateClientTouches(s, req, clientId, secret, now);
    case RotateClientSecret(clientId, secret, now) => SecretTouches(s, clientId, secret, now);
    case DeleteOrganization => DeletesTouch(s, op);
    case DeleteRole(_) => DeletesTouch(s, op);
    case DeleteOAuthClient(_) => DeletesTouch(s, op);
    case Revoke(_, _, _, _, _) => DeletesTouch(s, op);
    case Mint(_, _, _, _) => DeletesTouch(s, op);
    case Purge(_, _) => DeletesTouch(s, op);
    case _ => PatchesTouch(s, op);
  }

  /** However far a call gets, entities outside its footprint are untouched. */
  lemma CallUntouched(s: Store, c: Call)
    requires Inv(s) && Admissible(s, c.op)
    ensures Untouched(s, AfterCall(s, c), Footprint(c.op))
  {
    var ws := WritesOf(Plan(s, c.op));
    PlanTouches(s, c.op);
    TouchOnlyCut(s, ws, Footprint(c.op), c.done);
    TouchOnlyUntouched(s, Cut(ws, c.done), Footprint(c.op));
  }

  /** Types outside the footprint are listed as before. */
  lemma {:induction false} ListUntouched(a: seq<Entity>, b: seq<Entity>, typ: TypeName, f: Filter)
    requires |a| <= |b|
    requires forall i :: 0 <= i < |a| ==> (a[i].typ == typ <==> b[i].typ == typ) && (a[i].typ == typ ==> a[i] == b[i])
    requires forall i :: |a| <= i < |b| ==> b[i].typ != typ
    ensures List(b, typ, f) == List(a, typ, f)
    decreases |b|
  {
    if |b| > |a| {
      ListUntouched(a, b[..|b| - 1], typ, f);
      assert b[|b| - 1].typ != typ;
    } else if |b| > 0 {
      ListUntouched(a[..|a| - 1], b[..|b| - 1], typ, f);
    }
  }

  // ---------------------------------------------------------------- edges

  /** The names of the edges an operation may add. */
  function LinkNames(op: Op): set<EdgeName> {
    match op
    case InviteUser(_, _, _) => {HasInvitation, InvitedBy, WillGrantRole}
    case GrantMembership(_, _) => {HasMembership, GrantsRole}
    case CreateOAuthClient(_, _, _, _) => {HasRedirectURI, AllowsScope, HasClientSecret}
    case RotateClientSecret(_, _, _) => {HasClientSecret}
    case _ => {}
  }

  predicate LinksNamed(ws: seq<Write>, names: set<EdgeName>) {
    forall w :: w in ws && w.Link? ==> w.edge.name in names
  }

  lemma NamedAppend(a: seq<Write>, b: seq<Write>, names: set<EdgeName>)
    requires LinksNamed(a, names) && LinksNamed(b, names)
    ensures LinksNamed(a + b, names)
  {
  }

  lemma {:induction false} SeedLinks(s: Store, bs: seq<Builtin>, now: int)
    ensures LinksNamed(SeedWrites(s, bs, now), {})
    decreases |bs|
  {
    if |bs| > 0 {
      SeedLinks(s, bs[1..], now);
      SeedLinks(Apply(s, Create(TRole, BuiltinProps(s.agency, bs[0], now))), bs[1..], now);
    }
  }

  lemma InitLinks(s: Store, req: OrgRequest, now: int)
    ensures LinksNamed(WritesOf(InitOrganizationPlan(s, req, now)), {})
  {
    SeedLinks(Apply(s, Create(TOrganization, OrgProps(s.agency, req, now))), BUILTINS, now);
  }

  lemma {:induction false} UriLinks(agency: string, client: Id, next: Id, uris: seq<string>, now: int,
                                    names: set<EdgeName>)
    requires HasRedirectURI in names
    ensures LinksNamed(UriWrites(agency, client, next, uris, now), names)
    decreases |uris|
  {
    if |uris| > 0 {
      UriLinks(agency, client, next + 1, uris[1..], now, names);
    }
  }

  lemma ClientLinks(s: Store, req: ClientRequest, clientId: string, secret: NewSecret, now: int)
    ensures LinksNamed(CreateOAuthClientPlan(s, req, clientId, secret, now).ws,
                       {HasRedirectURI, AllowsScope, HasClientSecret})
  {
    var c, names := |s.ents|, {HasRedirectURI, AllowsScope, HasClientSecret};
    var w := [Create(TOAuthClient, ClientProps(s.agency, req, clientId, now))];
    var uris := UriWrites(s.agency, c, c + 1, req.redirectURIs, now);
    var links := LinksTo(AllowsScope, c, req.scopeIds);
    UriLinks(s.agency, c, c + 1, req.redirectURIs, now, names);
    NamedAppend(w, uris, names);
    NamedAppend(w + uris, links, names);
    NamedAppend(w + uris + links, ClientTail(s.agency, c, req, secret, now), names);
  }

  lemma InviteLinksNames(s: Store, req: InviteRequest, hash: string, at: int)
    ensures LinksNamed(WritesOf(InviteUserPlan(s, req, hash, at)), {HasInvitation, InvitedBy, WillGrantRole})
  {
    var pair := NewPair(|s.ents|, UserProps(s.agency, req, Sec(at)),
      InvitationProps(s.agency, hash, Sec(at + TTL(req.expiresIn)), Sec(at)));
    NamedAppend(pair, InviteLinks(|s.ents| + 1, req), {HasInvitation, InvitedBy, WillGrantRole});
  }

  lemma PlainLinks(s: Store, op: Op)
    requires !op.InitOrganization? && !op.InviteUser? && !op.CreateOAuthClient?
    ensures LinksNamed(WritesOf(Plan(s, op)), LinkNames(op))
  {
  }

  lemma PlanLinks(s: Store, op: Op)
    ensures LinksNamed(WritesOf(Plan(s, op)), LinkNames(op))
  {
    match op
    case InitOrganization(req, now) => InitLinks(s, req, now);
    case InviteUser(req, hash, at) => InviteLinksNames(s, req, hash, at);
    case CreateOAuthClient(req, clientId, secret, now) => ClientLinks(s, req, clientId, secret, now);
    case _ => PlainLinks(s, op);
  }

  lemma {:induction false} EdgesIntoStay(s: Store, ws: seq<Write>, name: EdgeName, to: Id)
    requires forall w :: w in ws && w.Link? ==> w.edge.name != name || w.edge.to != to
    ensures EdgesInto(ApplyAll(s, ws), name, to) == EdgesInto(s, name, to)
    decreases |ws|
  {
    if |ws| > 0 {
      assert ws[0] in ws;
      if ws[0].Link? {
        EdgesIntoAfterLink(s, ws[0].edge, name, to);
      }
      EdgesIntoStay(Apply(s, ws[0]), ws[1..], name, to);
    }
  }
}
