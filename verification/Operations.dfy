/** What each manager operation does to the store: either a refusal, or the list of writes it makes in
    order. A call that is cut short by a storage failure makes a prefix of that list. */
module Operations {
  import opened Wrappers
  import opened EntityGraph
  import opened Helpers
  import opened ScopeGrammar

  datatype Error =
    | TemporarilyUnavailable | InvalidScope
    | OrgNotFound | OrgAlreadyExists | UserNotFound | UserAlreadyExists
    | RoleNotFound | RoleAlreadyExists | RoleBuiltinImmutable
    | ScopeNotFound | ScopeNameCollision | ScopeReserved
    | MembershipNotFound | InvitationNotFound | InvitationExpired | InvitationAlreadyAccepted
    | OAuthClientNotFound

  datatype Outcome = Refused(error: Error) | Writes(ws: seq<Write>)

  function WritesOf(o: Outcome): seq<Write> {
    if o.Writes? then o.ws else []
  }

  // ---------------------------------------------------------------- org_lifecycle.go

  datatype OrgRequest = OrgRequest(name: string, description: string, contactEmail: string, logoURL: string)

  datatype Builtin = BuiltinRole(name: string, displayName: string)

  const BUILTINS := [BuiltinRole("super_admin", "Super Admin"), BuiltinRole("admin", "Admin"),
                     BuiltinRole("member", "Member"), BuiltinRole("viewer", "Viewer")]

  function OrgProps(agency: string, req: OrgRequest, now: int): Props {
    map[AgencyId := Text(agency), Name := Text(req.name), Enabled := Flag(true), Description := Text(req.description),
        ContactEmail := Text(req.contactEmail), LogoURL := Text(req.logoURL), CreatedAt := At(now),
        UpdatedAt := At(now)]
  }

  function BuiltinProps(agency: string, b: Builtin, now: int): Props {
    map[AgencyId := Text(agency), Name := Text(b.name), EntityGraph.Builtin := Flag(true),
        DisplayName := Text(b.displayName), CreatedAt := At(now), UpdatedAt := At(now)]
  }

  /** Seeding skips a name that already has a live role. */
  function SeedWrites(s: Store, bs: seq<Builtin>, now: int): seq<Write>
    decreases |bs|, |s.ents|
  {
    if |bs| == 0 then []
    else if List(s.ents, TRole, Where(Name, Text(bs[0].name))) != [] then SeedWrites(s, bs[1..], now)
    else
      var w := Create(TRole, BuiltinProps(s.agency, bs[0], now));
      [w] + SeedWrites(Apply(s, w), bs[1..], now)
  }

  function InitOrganizationPlan(s: Store, req: OrgRequest, now: int): Outcome {
    if List(s.ents, TOrganization, Any) != [] then Refused(OrgAlreadyExists) else
    var w := Create(TOrganization, OrgProps(s.agency, req, now));
    Writes([w] + SeedWrites(Apply(s, w), BUILTINS, now))
  }

  function OnlyIf(cond: bool, p: Props): Props {
    if cond then p else map[]
  }

  function OrgPatch(req: OrgRequest, now: int): Props {
    map[UpdatedAt := At(now)]
    + OnlyIf(req.name != "", map[Name := Text(req.name)])
    + OnlyIf(req.description != "", map[Description := Text(req.description)])
    + OnlyIf(req.contactEmail != "", map[ContactEmail := Text(req.contactEmail)])
    + OnlyIf(req.logoURL != "", map[LogoURL := Text(req.logoURL)])
  }

  function DisablePatch(now: int): Props {
    map[Enabled := Flag(false), DisabledAt := At(now), UpdatedAt := At(now)]
  }

  /** UpdateOrganization and DisableOrganization patch the first listed organization. */
  function PatchOrganizationPlan(s: Store, patch: Props): Outcome {
    var orgs := List(s.ents, TOrganization, Any);
    if orgs == [] then Refused(OrgNotFound) else Writes([Update(orgs[0], patch)])
  }

  function DeleteOrganizationPlan(s: Store): Outcome {
    var orgs := List(s.ents, TOrganization, Any);
    if orgs == [] then Refused(OrgNotFound) else Writes([Delete(orgs[0])])
  }

  datatype InviteRequest = InviteRequest(email: string, displayName: string, invitedBy: Option<Id>,
    roleIds: seq<Id>, expiresIn: int)

  /** 72 hours, in nanoseconds, stand in for a lifetime that is not positive. */
  function TTL(expiresIn: int): int {
    if expiresIn <= 0 then 259_200_000_000_000 else expiresIn
  }

  function UserProps(agency: string, req: InviteRequest, now: int): Props {
    map[AgencyId := Text(agency), Email := Text(req.email), Status := Word(Invited),
        DisplayName := Text(req.displayName), CreatedAt := At(now), UpdatedAt := At(now)]
  }

  function InvitationProps(agency: string, hash: string, expires: int, now: int): Props {
    map[AgencyId := Text(agency), TokenHash := Text(hash), Status := Word(Pending), ExpiresAt := At(expires),
        CreatedAt := At(now)]
  }

  function LinksTo(name: EdgeName, from: Id, ids: seq<Id>): (ws: seq<Write>)
    ensures |ws| == |ids|
    ensures forall j :: 0 <= j < |ids| ==> ws[j] == Link(Edge(name, from, ids[j]))
  {
    seq(|ids|, j requires 0 <= j < |ids| => Link(Edge(name, from, ids[j])))
  }

  function InviteLinks(inv: Id, req: InviteRequest): seq<Write> {
    (if req.invitedBy.Some? then [Link(Edge(InvitedBy, inv, req.invitedBy.value))] else [])
    + LinksTo(WillGrantRole, inv, req.roleIds)
  }

  /** The user, the invitation and the edge between them. */
  function NewPair(next: Id, user: Props, inv: Props): seq<Write> {
    [Create(TUser, user), Create(TInvitation, inv), Link(Edge(HasInvitation, next, next + 1))]
  }

  /** `at` is the clock reading in nanoseconds; the lifetime is added before the cut to seconds. */
  function InviteUserPlan(s: Store, req: InviteRequest, hash: string, at: int): Outcome {
    if List(s.ents, TUser, Where(Email, Text(req.email))) != [] then Refused(UserAlreadyExists)
    else Writes(NewPair(|s.ents|, UserProps(s.agency, req, Sec(at)),
                        InvitationProps(s.agency, hash, Sec(at + TTL(req.expiresIn)), Sec(at)))
                + InviteLinks(|s.ents| + 1, req))
  }

  function ActivatePatch(now: int): Props {
    map[Status := Word(Active), UpdatedAt := At(now)]
  }

  function AcceptPatch(now: int): Props {
    map[Status := Word(Accepted), AcceptedAt := At(now)]
  }

  /** What becomes of the invitation `inv` with properties `p` and incoming edges `rels`. */
  function AcceptFound(inv: Id, p: Props, rels: seq<Edge>, checked: int, now: int): Outcome {
    if PropWord(p, Status) == Some(Accepted) then Refused(InvitationAlreadyAccepted)
    else if After(checked, PropTime(p, ExpiresAt)) || PropWord(p, Status) == Some(Expired)
    then Refused(InvitationExpired)
    else if rels == [] then Refused(TemporarilyUnavailable)
    else Writes([Update(rels[0].from, ActivatePatch(now)), Update(inv, AcceptPatch(now))])
  }

  /** `checked` is the reading (in nanoseconds) the expiry is compared with, `now` the second stamped later. */
  function AcceptInvitationPlan(s: Store, hash: string, checked: int, now: int): Outcome {
    var found := List(s.ents, TInvitation, Where(TokenHash, Text(hash)));
    if found == [] then Refused(InvitationNotFound)
    else AcceptFound(found[0], s.ents[found[0]].props, EdgesInto(s, HasInvitation, found[0]), checked, now)
  }

  /** SuspendUser, ReactivateUser and DeleteUser differ in the word they set and in `deleted_at`. */
  datatype UserChange = Suspend | Reactivate | SoftDelete

  function UserPatch(change: UserChange, now: int): Props {
    match change
    case Suspend => map[Status := Word(Suspended), UpdatedAt := At(now)]
    case Reactivate => map[Status := Word(Active), UpdatedAt := At(now)]
    case SoftDelete => map[Status := Word(Deleted), DeletedAt := At(now), UpdatedAt := At(now)]
  }

  function ChangeUserPlan(s: Store, id: Id, change: UserChange, now: int): Outcome {
    if id >= |s.ents| || s.ents[id].typ != TUser then Refused(UserNotFound)
    else Writes([Update(id, UserPatch(change, now))])
  }

  // ---------------------------------------------------------------- roles_scopes.go

  datatype RoleRequest = RoleRequest(name: string, displayName: string, description: string)

  function RoleProps(agency: string, req: RoleRequest, now: int): Props {
    map[AgencyId := Text(agency), Name := Text(req.name), EntityGraph.Builtin := Flag(false),
        DisplayName := Text(req.displayName), Description := Text(req.description),
        CreatedAt := At(now), UpdatedAt := At(now)]
  }

  function CreateRolePlan(s: Store, req: RoleRequest, now: int): Outcome {
    if List(s.ents, TRole, Where(Name, Text(req.name))) != [] then Refused(RoleAlreadyExists)
    else Writes([Create(TRole, RoleProps(s.agency, req, now))])
  }

  function RolePatch(req: RoleRequest, now: int): Props {
    map[UpdatedAt := At(now)]
    + OnlyIf(req.displayName != "", map[DisplayName := Text(req.displayName)])
    + OnlyIf(req.description != "", map[Description := Text(req.description)])
  }

  /** UpdateRole and DeleteRole both refuse unknown and built-in roles. */
  function OnCustomRole(s: Store, id: Id, w: Write): Outcome {
    if id >= |s.ents| then Refused(RoleNotFound)
    else if PropBool(s.ents[id].props, EntityGraph.Builtin) then Refused(RoleBuiltinImmutable)
    else Writes([w])
  }

  datatype ScopeRequest = ScopeRequest(name: string, registeredBy: string, description: string)

  const RESERVED_PREFIXES := ["org", "audit"]

  const ORG_SERVICE := "codevaldorg"

  predicate Reserved(req: ScopeRequest) {
    ScopePrefix(req.name) in RESERVED_PREFIXES && req.registeredBy != ORG_SERVICE
  }

  function ScopeProps(agency: string, req: ScopeRequest, now: int): Props {
    map[AgencyId := Text(agency), Name := Text(req.name), RegisteredBy := Text(req.registeredBy),
        Description := Text(req.description), CreatedAt := At(now), UpdatedAt := At(now)]
  }

  /** Registering again stores an empty string over the deprecation time. */
  function ScopePatch(req: ScopeRequest, now: int): Props {
    map[Description := Text(req.description), UpdatedAt := At(now), DeprecatedAt := Text("")]
  }

  function RegisterScopePlan(s: Store, req: ScopeRequest, now: int): Outcome {
    if !MatchScope(req.name) then Refused(InvalidScope)
    else if Reserved(req) then Refused(ScopeReserved)
    else
      var found := List(s.ents, TScope, Where(Name, Text(req.name)));
      if found == [] then Writes([Create(TScope, ScopeProps(s.agency, req, now))])
      else if PropStr(s.ents[found[0]].props, RegisteredBy) != req.registeredBy then Refused(ScopeNameCollision)
      else Writes([Update(found[0], ScopePatch(req, now))])
  }

  function DeprecationPatch(now: int): Props {
    map[DeprecatedAt := At(now), UpdatedAt := At(now)]
  }

  function DeprecateScopePlan(s: Store, id: Id, now: int): Outcome {
    if id >= |s.ents| then Refused(ScopeNotFound)
    else Writes([Update(id, DeprecationPatch(now))])
  }

  // ---------------------------------------------------------------- memberships.go

  datatype GrantRequest = GrantRequest(user: Id, role: Id, grantedBy: string)

  function MembershipProps(agency: string, req: GrantRequest, now: int): Props {
    map[AgencyId := Text(agency), GrantedAt := At(now), GrantedBy := Text(req.grantedBy)]
  }

  function GrantMembershipPlan(s: Store, req: GrantRequest, now: int): Outcome {
    var m := |s.ents|;
    Writes([Create(TMembership, MembershipProps(s.agency, req, now)),
            Link(Edge(HasMembership, req.user, m)),
            Link(Edge(GrantsRole, m, req.role))])
  }

  function RevokeMembershipPlan(s: Store, id: Id, now: int): Outcome {
    if id >= |s.ents| then Refused(MembershipNotFound) else Writes([Update(id, map[RevokedAt := At(now)])])
  }

  // ---------------------------------------------------------------- oauth_clients.go

  datatype ClientRequest = ClientRequest(name: string, clientType: string, description: string,
    grantTypes: seq<string>, redirectURIs: seq<string>, scopeIds: seq<Id>)

  /** A plaintext secret and the PHC string stored for it. */
  datatype NewSecret = NewSecret(plaintext: string, phc: string)

  function ClientProps(agency: string, req: ClientRequest, clientId: string, now: int): Props {
    map[AgencyId := Text(agency), ClientId := Text(clientId), ClientType := Text(req.clientType),
        Name := Text(req.name), AllowedGrantTypes := Texts(req.grantTypes), Description := Text(req.description),
        CreatedAt := At(now), UpdatedAt := At(now)]
  }

  function UriPair(agency: string, client: Id, next: Id, uri: string, now: int): seq<Write> {
    [Create(TRedirectURI, map[AgencyId := Text(agency), Uri := Text(uri), CreatedAt := At(now)]),
     Link(Edge(HasRedirectURI, client, next))]
  }

  /** One RedirectURI entity and its edge for every URI; the first entity gets identifier `next`. */
  function UriWrites(agency: string, client: Id, next: Id, uris: seq<string>, now: int): seq<Write>
    decreases |uris|
  {
    if |uris| == 0 then []
    else UriPair(agency, client, next, uris[0], now) + UriWrites(agency, client, next + 1, uris[1..], now)
  }

  /** createClientSecret: the secret entity gets identifier `next`. */
  function SecretWrites(agency: string, client: Id, next: Id, secret: NewSecret, now: int): seq<Write> {
    [Create(TClientSecret, map[AgencyId := Text(agency), SecretHash := Text(secret.phc), CreatedAt := At(now)]),
     Link(Edge(HasClientSecret, client, next))]
  }

  /** Only a confidential client gets a secret. */
  function ClientTail(agency: string, client: Id, req: ClientRequest, secret: NewSecret, now: int): seq<Write> {
    if req.clientType == "confidential"
    then SecretWrites(agency, client, client + 1 + |req.redirectURIs|, secret, now)
    else []
  }

  function CreateOAuthClientPlan(s: Store, req: ClientRequest, clientId: string, secret: NewSecret, now: int): Outcome {
    var c := |s.ents|;
    Writes([Create(TOAuthClient, ClientProps(s.agency, req, clientId, now))]
           + UriWrites(s.agency, c, c + 1, req.redirectURIs, now)
           + LinksTo(AllowsScope, c, req.scopeIds)
           + ClientTail(s.agency, c, req, secret, now))
  }

  function RotateClientSecretPlan(s: Store, clientId: string, secret: NewSecret, now: int): Outcome {
    var found := List(s.ents, TOAuthClient, Where(ClientId, Text(clientId)));
    if found == [] then Refused(OAuthClientNotFound)
    else Writes(SecretWrites(s.agency, found[0], |s.ents|, secret, now))
  }

  function DeleteOAuthClientPlan(s: Store, clientId: string): Outcome {
    var found := List(s.ents, TOAuthClient, Where(ClientId, Text(clientId)));
    if found == [] then Refused(OAuthClientNotFound) else Writes([Delete(found[0])])
  }

  // ---------------------------------------------------------------- token_ops.go

  function TokenProps(agency: string, hash: string, expires: int, created: int): Props {
    map[AgencyId := Text(agency), TokenHash := Text(hash), ExpiresAt := At(expires), CreatedAt := At(created)]
  }

  /** propStr of `expires_at`, kept as a stored value; the empty text when there is none. */
  function StoredExpiry(p: Props): Value {
    if ExpiresAt in p && (p[ExpiresAt].At? || p[ExpiresAt].Text?) then p[ExpiresAt] else Text("")
  }

  /** What one lookup of Revoke's loop leaves in `expiresAt`; None when the loop goes on. */
  function ExpiryFrom(s: Store, typ: TypeName, hash: string): Option<Value> {
    var found := List(s.ents, typ, Where(TokenHash, Text(hash)));
    if found == [] then None else Some(StoredExpiry(s.ents[found[0]].props))
  }

  /** The whole search: a lookup that failed is passed over like one that found nothing. */
  function SearchExpiry(s: Store, hash: string, sawAccess: bool, sawRefresh: bool): Option<Value> {
    if sawAccess && ExpiryFrom(s, TAccessToken, hash).Some? then ExpiryFrom(s, TAccessToken, hash)
    else if sawRefresh then ExpiryFrom(s, TRefreshToken, hash)
    else None
  }

  function RevocationProps(agency: string, hash: string, expiry: Option<Value>, reason: string, now: int): Props {
    map[AgencyId := Text(agency), TokenHash := Text(hash), RevokedAt := At(now),
        ExpiresAt := if expiry.None? || expiry.value == Text("") then At(now) else expiry.value,
        Reason := Text(if reason == "" then "user_logout" else reason)]
  }

  const ARTIFACTS := {TAccessToken, TRefreshToken, TTokenRevocation}

  /** No token or revocation record, purged or not, carries the hash. */
  ghost predicate FreshToken(s: Store, hash: string) {
    forall i :: 0 <= i < |s.ents| && s.ents[i].typ in ARTIFACTS ==> !Has(s.ents[i], TokenHash, Text(hash))
  }

  /** The storage layer's expiry index may drop a record once the clock is strictly past its expiry. */
  predicate Purgeable(s: Store, id: Id, nanos: int) {
    id < |s.ents| && s.ents[id].typ in ARTIFACTS && ExpiresAt in s.ents[id].props &&
    s.ents[id].props[ExpiresAt].At? && After(nanos, s.ents[id].props[ExpiresAt].sec)
  }

  // ---------------------------------------------------------------- runs

  /** One call with everything it read from the outside. The last two are steps of the environment. */
  datatype Op =
    | InitOrganization(org: OrgRequest, now: int)
    | UpdateOrganization(org: OrgRequest, now: int)
    | DisableOrganization(now: int)
    | DeleteOrganization
    | InviteUser(invite: InviteRequest, hash: string, at: int)
    | AcceptInvitation(hash: string, checked: int, now: int)
    | ChangeUser(id: Id, change: UserChange, now: int)
    | CreateRole(role: RoleRequest, now: int)
    | UpdateRole(id: Id, role: RoleRequest, now: int)
    | DeleteRole(id: Id)
    | RegisterScope(scope: ScopeRequest, now: int)
    | DeprecateScope(id: Id, now: int)
    | GrantMembership(grant: GrantRequest, now: int)
    | RevokeMembership(id: Id, now: int)
    | CreateOAuthClient(client: ClientRequest, clientId: string, secret: NewSecret, now: int)
    | RotateClientSecret(clientId: string, secret: NewSecret, now: int)
    | DeleteOAuthClient(clientId: string)
    | Revoke(hash: string, sawAccess: bool, sawRefresh: bool, reason: string, now: int)
    | Mint(refresh: bool, hash: string, expires: int, now: int)
    | Purge(id: Id, at: int)

  function Plan(s: Store, op: Op): Outcome {
    match op
    case InitOrganization(req, now) => InitOrganizationPlan(s, req, now)
    case UpdateOrganization(req, now) => PatchOrganizationPlan(s, OrgPatch(req, now))
    case DisableOrganization(now) => PatchOrganizationPlan(s, DisablePatch(now))
    case DeleteOrganization => DeleteOrganizationPlan(s)
    case InviteUser(req, hash, at) => InviteUserPlan(s, req, hash, at)
    case AcceptInvitation(hash, checked, now) => AcceptInvitationPlan(s, hash, checked, now)
    case ChangeUser(id, change, now) => ChangeUserPlan(s, id, change, now)
    case CreateRole(req, now) => CreateRolePlan(s, req, now)
    case UpdateRole(id, req, now) => OnCustomRole(s, id, Update(id, RolePatch(req, now)))
    case DeleteRole(id) => OnCustomRole(s, id, Delete(id))
    case RegisterScope(req, now) => RegisterScopePlan(s, req, now)
    case DeprecateScope(id, now) => DeprecateScopePlan(s, id, now)
    case GrantMembership(req, now) => GrantMembershipPlan(s, req, now)
    case RevokeMembership(id, now) => RevokeMembershipPlan(s, id, now)
    case CreateOAuthClient(req, clientId, secret, now) => CreateOAuthClientPlan(s, req, clientId, secret, now)
    case RotateClientSecret(clientId, secret, now) => RotateClientSecretPlan(s, clientId, secret, now)
    case DeleteOAuthClient(clientId) => DeleteOAuthClientPlan(s, clientId)
    case Revoke(hash, sawAccess, sawRefresh, reason, now) =>
      Writes([Create(TTokenRevocation,
        RevocationProps(s.agency, hash, SearchExpiry(s, hash, sawAccess, sawRefresh), reason, now))])
    case Mint(refresh, hash, expires, now) =>
      Writes([Create(if refresh then TRefreshToken else TAccessToken, TokenProps(s.agency, hash, expires, now))])
    case Purge(id, at) => Writes([Delete(id)])
  }

  /** A call and how many of its writes took effect before a storage failure, if any, ended it. */
  datatype Call = Call(op: Op, done: nat)

  /** All planned writes took effect. */
  predicate Complete(plan: Outcome, done: nat) {
    plan.Writes? && done >= |plan.ws|
  }

  predicate Finished(s: Store, c: Call) {
    Complete(Plan(s, c.op), c.done)
  }

  /** The writes that took effect before the call ended. */
  function Cut(ws: seq<Write>, done: nat): seq<Write> {
    if done <= |ws| then ws[..done] else ws
  }

  lemma CutAll(ws: seq<Write>, done: nat)
    requires done >= |ws|
    ensures Cut(ws, done) == ws
  {
  }

  lemma CutAppend(a: seq<Write>, b: seq<Write>, k: nat)
    ensures k <= |a| ==> Cut(a + b, k) == Cut(a, k)
    ensures k >= |a| ==> Cut(a + b, k) == a + Cut(b, k - |a|)
  {
  }

  function AfterCall(s: Store, c: Call): Store {
    ApplyAll(s, Cut(WritesOf(Plan(s, c.op)), c.done))
  }

  lemma SplitLast<T>(a: seq<T>, b: seq<T>)
    requires |b| > 0
    ensures b == b[..|b| - 1] + [b[|b| - 1]]
    ensures a + b == a + b[..|b| - 1] + [b[|b| - 1]]
  {
  }

  function Run(agency: string, calls: seq<Call>): Store {
    if |calls| == 0 then EmptyStore(agency)
    else AfterCall(Run(agency, calls[..|calls| - 1]), calls[|calls| - 1])
  }

  /** What a run takes for granted about its inputs: random hashes and UUIDs are new, and an identifier
      handed to an operation that does not check types names an entity of the intended type, if any. */
  ghost predicate Admissible(s: Store, op: Op) {
    match op
    case InviteUser(_, hash, _) => List(s.ents, TInvitation, Where(TokenHash, Text(hash))) == []
    case CreateOAuthClient(_, clientId, _, _) => List(s.ents, TOAuthClient, Where(ClientId, Text(clientId))) == []
    case UpdateRole(id, _, _) => id < |s.ents| ==> s.ents[id].typ == TRole
    case DeleteRole(id) => id < |s.ents| ==> s.ents[id].typ == TRole
    case DeprecateScope(id, _) => id < |s.ents| ==> s.ents[id].typ == TScope
    case RevokeMembership(id, _) => id < |s.ents| ==> s.ents[id].typ == TMembership
    case Mint(_, hash, expires, _) => FreshToken(s, hash) && expires != ZERO_TIME
    case Purge(id, at) => Purgeable(s, id, at)
    case _ => true
  }

  ghost predicate ValidRun(agency: string, calls: seq<Call>) {
    |calls| == 0 ||
    (var before := calls[..|calls| - 1];
     ValidRun(agency, before) && Admissible(Run(agency, before), calls[|calls| - 1].op))
  }

  lemma RunSnoc(agency: string, calls: seq<Call>, c: Call)
    ensures Run(agency, calls + [c]) == AfterCall(Run(agency, calls), c)
    ensures ValidRun(agency, calls + [c]) <==> ValidRun(agency, calls) && Admissible(Run(agency, calls), c.op)
  {
    assert (calls + [c])[..|calls|] == calls;
  }
}
