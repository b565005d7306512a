/** The manager itself: every operation as the sequence of storage calls the code makes, proved against its
    plan. The history of calls is kept as ghost state, so that the store is always that of a valid run. */
module OrgManagement {
  import opened Wrappers
  import opened Encodings
  import opened Crypto
  import opened EntityGraph
  import opened Helpers
  import opened ScopeGrammar
  import opened Operations
  import opened Invariants
  import opened PlansLegal
  import opened ReadBack
  import opened TokenRecords
  import opened Revocations
  import Invitations
  import Memberships
  import Purging
  import ScopeRegistry
  import Secrets
  import Seeding

  // ---------------------------------------------------------------- how operations end

  /** A success means that all writes took effect. Without a failure of the storage or the random source the
      operation answers as planned; with one it reports `TemporarilyUnavailable`, or `lookup` when it was
      the first lookup that failed. */
  predicate Answered<T>(plan: Outcome, done: nat, r: Result<T, Error>, faulty: bool, lookup: Error) {
    done <= |WritesOf(plan)| &&
    (r.Success? ==> Complete(plan, done)) &&
    (faulty ==> r.Failure? && (r.error == TemporarilyUnavailable || (done == 0 && r.error == lookup))) &&
    (!faulty ==> (plan.Writes? ==> r.Success?) && (plan.Refused? ==> r.Failure? && r.error == plan.error))
  }

  /** And all writes that took effect mean a success. */
  predicate AnsweredExactly<T>(plan: Outcome, done: nat, r: Result<T, Error>, faulty: bool, lookup: Error) {
    Answered(plan, done, r, faulty, lookup) && (Complete(plan, done) ==> r.Success?)
  }

  /** The store `t` is `s` after the first `done` writes of the plan. */
  predicate Wrote(s: Store, plan: Outcome, done: nat, t: Store) {
    done <= |WritesOf(plan)| && t == ApplyAll(s, WritesOf(plan)[..done])
  }

  lemma Recorded(agency: string, calls: seq<Call>, c: Call, plan: Outcome, t: Store)
    requires ValidRun(agency, calls) && Admissible(Run(agency, calls), c.op)
    requires plan == Plan(Run(agency, calls), c.op) && Wrote(Run(agency, calls), plan, c.done, t)
    ensures ValidRun(agency, calls + [c]) && Run(agency, calls + [c]) == t
  {
    RunSnoc(agency, calls, c);
  }

  lemma PurgesRecorded(calls: seq<Call>, c: Call, was: int, now: int)
    requires PurgedBy(calls, was) && was <= now && (c.op.Purge? ==> c.op.at <= now)
    ensures PurgedBy(calls + [c], now)
  {
  }

  lemma NoneWritten(s: Store, plan: Outcome)
    ensures Wrote(s, plan, 0, s)
  {
    assert WritesOf(plan)[..0] == [];
  }

  /** A plan of one write has been carried out, or not. */
  lemma OneWritten(s: Store, w: Write, done: bool, t: Store)
    requires t == if done then Apply(s, w) else s
    ensures Wrote(s, Writes([w]), if done then 1 else 0, t)
  {
    assert [w][..0] == [] && [w][..1] == [w] && ApplyAll(s, [w]) == Apply(s, w);
  }

  /** The next planned write. */
  lemma Advance(s: Store, ws: seq<Write>, k: nat, w: Write, rest: seq<Write>)
    requires k <= |ws| && ws[k..] == [w] + rest
    ensures k < |ws| && ws[k] == w && ws[k + 1..] == rest
    ensures ApplyAll(s, ws[..k + 1]) == Apply(ApplyAll(s, ws[..k]), w)
  {
    assert ws[k] == ws[k..][0] && ws[k + 1..] == ws[k..][1..];
    assert ws[..k + 1] == ws[..k] + [w];
    ApplySnoc(s, ws[..k], w);
  }

  lemma AdvanceAt(s: Store, ws: seq<Write>, k: nat)
    requires k < |ws|
    ensures ApplyAll(s, ws[..k + 1]) == Apply(ApplyAll(s, ws[..k]), ws[k])
  {
    assert ws[..k + 1] == ws[..k] + [ws[k]];
    ApplySnoc(s, ws[..k], ws[k]);
  }

  lemma LinksToNext(name: EdgeName, from: Id, ids: seq<Id>, i: nat)
    requires i < |ids|
    ensures LinksTo(name, from, ids[i..]) == [Link(Edge(name, from, ids[i]))] + LinksTo(name, from, ids[i + 1..])
  {
  }

  lemma UriWritesNext(agency: string, client: Id, next: Id, uris: seq<string>, i: nat, now: int, rest: seq<Write>)
    requires i < |uris|
    ensures UriWrites(agency, client, next, uris[i..], now) + rest ==
            [UriPair(agency, client, next, uris[i], now)[0]]
            + ([UriPair(agency, client, next, uris[i], now)[1]]
               + (UriWrites(agency, client, next + 1, uris[i + 1..], now) + rest))
  {
    var pair := UriPair(agency, client, next, uris[i], now);
    var more := UriWrites(agency, client, next + 1, uris[i + 1..], now);
    assert uris[i..][0] == uris[i] && uris[i..][1..] == uris[i + 1..];
    assert UriWrites(agency, client, next, uris[i..], now) == pair + more;
    assert pair == [pair[0]] + [pair[1]];
    assert pair + more + rest == [pair[0]] + ([pair[1]] + (more + rest));
  }

  lemma SeedCons(s: Store, b: Builtin, rest: seq<Builtin>, now: int)
    ensures SeedWrites(s, [b] + rest, now) ==
      if List(s.ents, TRole, Where(Name, Text(b.name))) != [] then SeedWrites(s, rest, now)
      else [Create(TRole, BuiltinProps(s.agency, b, now))]
           + SeedWrites(Apply(s, Create(TRole, BuiltinProps(s.agency, b, now))), rest, now)
  {
    assert ([b] + rest)[1..] == rest;
  }

  lemma TailIsSecret(agency: string, client: Id, req: ClientRequest, secret: NewSecret, now: int)
    requires req.clientType == "confidential"
    ensures ClientTail(agency, client, req, secret, now)
            == SecretWrites(agency, client, client + 1 + |req.redirectURIs|, secret, now)
  {
  }

  function RecordAt(s: Store, id: Id): Record
    requires id < |s.ents|
  {
    Record(id, s.ents[id])
  }

  lemma LookupExpiry(s: Store, typ: TypeName, hash: string, found: seq<Record>)
    requires found == Records(s, List(s.ents, typ, Where(TokenHash, Text(hash))))
    ensures ExpiryFrom(s, typ, hash) == if found == [] then None else Some(StoredExpiry(found[0].entity.props))
  {
  }

  lemma RevocationBuilt(agency: string, hash: string, expiry: Option<Value>, expires: Value, reason: string, now: int)
    requires expires == if expiry.None? || expiry.value == Text("") then At(now) else expiry.value
    ensures RevocationProps(agency, hash, expiry, reason, now) ==
            map[AgencyId := Text(agency), TokenHash := Text(hash), RevokedAt := At(now),
                ExpiresAt := expires, Reason := Text(if reason == "" then "user_logout" else reason)]
  {
  }

  lemma RevokePlanIs(s: Store, hash: string, sawAccess: bool, sawRefresh: bool, reason: string, now: int, props: Props)
    requires props == RevocationProps(s.agency, hash, SearchExpiry(s, hash, sawAccess, sawRefresh), reason, now)
    ensures Plan(s, Revoke(hash, sawAccess, sawRefresh, reason, now)) == Writes([Create(TTokenRevocation, props)])
  {
  }

  lemma InviteLinksParts(inv: Id, req: InviteRequest, roles: seq<Write>)
    requires roles == LinksTo(WillGrantRole, inv, req.roleIds) + []
    ensures InviteLinks(inv, req) ==
      if req.invitedBy.Some? then [Link(Edge(InvitedBy, inv, req.invitedBy.value))] + roles else roles
  {
  }

  lemma InvitedFirst(s: Store, req: InviteRequest, hash: string, at: int, ws: seq<Write>)
    requires InviteUserPlan(s, req, hash, at) == Writes(ws)
    ensures
      |ws| >= 3 && ws[0] == Create(TUser, UserProps(s.agency, req, Sec(at))) &&
      ws[1] == Create(TInvitation, InvitationProps(s.agency, hash, Sec(at + TTL(req.expiresIn)), Sec(at))) &&
      ws[2] == Link(Edge(HasInvitation, |s.ents|, |s.ents| + 1)) &&
      ws[3..] == InviteLinks(|s.ents| + 1, req)
  {
  }

  /** What is left of the seeding when the writes up to `k` have led to `t`. */
  ghost predicate SeedingAt(s: Store, ws: seq<Write>, k: nat, t: Store, bs: seq<Builtin>, now: int) {
    k <= |ws| && t == ApplyAll(s, ws[..k]) && ws[k..] == SeedWrites(t, bs, now)
  }

  lemma SeedingNext(s: Store, ws: seq<Write>, k: nat, t: Store, bs: seq<Builtin>, i: nat, now: int)
    requires i < |bs| && SeedingAt(s, ws, k, t, bs[i..], now)
    ensures SeedingAt(s, ws, k, t, [bs[i]] + bs[i + 1..], now)
  {
    assert bs[i..] == [bs[i]] + bs[i + 1..];
  }

  lemma SeedingDone(s: Store, ws: seq<Write>, k: nat, t: Store, now: int)
    requires SeedingAt(s, ws, k, t, [], now)
    ensures k == |ws| && t == ApplyAll(s, ws)
  {
    assert SeedWrites(t, [], now) == [] && ws[..k] == ws;
  }

  lemma SeedsNamed(agency: string, calls: seq<Call>, s: Store, req: OrgRequest, now: int, done: nat, t: Store)
    requires s == Run(agency, calls) && t == Run(agency, calls + [Call(Op.InitOrganization(req, now), done)])
    requires InitOrganizationPlan(s, req, now).Writes? && done >= 1
    ensures exists n: nat :: Seeding.NamedUpTo(s, t, ["super_admin", "admin", "member", "viewer"], n)
  {
    RunSnoc(agency, calls, Call(Op.InitOrganization(req, now), done));
    Seeding.SeedingIsAPrefix(s, req, now, done, ["super_admin", "admin", "member", "viewer"]);
  }

  lemma ListedOnceInRun(agency: string, calls: seq<Call>, s: Store, clientId: string)
    requires ValidRun(agency, calls) && s == Run(agency, calls)
    ensures AtMostOne(s, TOrganization, Any) && AtMostOne(s, TOAuthClient, Where(ClientId, Text(clientId)))
  {
    RunKeepsInv(agency, calls);
    assert Key(TOAuthClient) == Some(ClientId);
  }

  // ---------------------------------------------------------------- what the operations answer

  /** Fields given are set, and fields left empty stay. */
  predicate OrganizationUpdated(s: Store, req: OrgRequest, now: int, done: nat, r: Result<Organization, Error>,
                                faulty: bool) {
    AnsweredExactly(PatchOrganizationPlan(s, OrgPatch(req, now)), done, r, faulty, TemporarilyUnavailable) &&
    (r.Success? ==>
      r.value.id < |s.ents| && var org := ToOrganization(RecordAt(s, r.value.id));
      r.value == org.(name := OrElse(req.name, org.name), description := OrElse(req.description, org.description),
                      contactEmail := OrElse(req.contactEmail, org.contactEmail),
                      logoURL := OrElse(req.logoURL, org.logoURL), updatedAt := now))
  }

  lemma OrganizationPatchedAnswer(s: Store, req: OrgRequest, now: int, e: Record)
    requires var orgs := List(s.ents, TOrganization, Any);
      orgs != [] && e == Patched(RecordAt(s, orgs[0]), OrgPatch(req, now))
    ensures OrganizationUpdated(s, req, now, 1, Success(ToOrganization(e)), false)
  {
    PatchedOrganization(RecordAt(s, e.id), req, now);
  }

  predicate OrganizationDisabled(s: Store, now: int, done: nat, r: Result<Organization, Error>, faulty: bool) {
    AnsweredExactly(PatchOrganizationPlan(s, DisablePatch(now)), done, r, faulty, TemporarilyUnavailable) &&
    (r.Success? ==>
      r.value.id < |s.ents| &&
      r.value == ToOrganization(RecordAt(s, r.value.id)).(enabled := false, disabledAt := Some(now), updatedAt := now))
  }

  /** The plaintext token is in the answer, and its hash in the store. */
  predicate UserInvited(s: Store, req: InviteRequest, token: (string, string), at: int, done: nat,
                        r: Result<Invitation, Error>, faulty: bool, randomFails: bool) {
    var plan := InviteUserPlan(s, req, token.1, at);
    AnsweredExactly(plan, done, r, faulty || (randomFails && plan.Writes?), TemporarilyUnavailable) &&
    (r.Success? ==>
      r.value == Invitation(|s.ents| + 1, s.agency, token.0, Some(Pending), Sec(Invitations.Ends(at, req.expiresIn)),
                            Sec(at), None, None))
  }

  /** The writes of an acceptance, given the edges into the invitation. */
  function Acceptance(rels: seq<Edge>, inv: Id, now: int): seq<Write> {
    if rels == [] then [] else [Update(rels[0].from, ActivatePatch(now)), Update(inv, AcceptPatch(now))]
  }

  lemma OpenInvitation(s: Store, hash: string, checked: int, now: int, inv: Invitation)
    requires var found := List(s.ents, TInvitation, Where(TokenHash, Text(hash)));
      found != [] && inv == ToInvitation(RecordAt(s, found[0]))
    requires inv.status != Some(Accepted) && inv.status != Some(Expired) && !After(checked, inv.expiresAt)
    ensures var plan, rels := AcceptInvitationPlan(s, hash, checked, now), EdgesInto(s, HasInvitation, inv.id);
      plan == (if rels == [] then Refused(TemporarilyUnavailable) else Writes(Acceptance(rels, inv.id, now))) &&
      Invitations.InvitedUser(s, hash) == if rels == [] then None else Some(rels[0].from)
  {
  }

  /** `userE` is the activated user, unless a call failed or there is no edge. */
  lemma AcceptanceAnswer(s: Store, hash: string, checked: int, now: int, rels: seq<Edge>, inv: Id,
                         userE: Option<Record>, k: nat, faulty: bool)
    requires AcceptInvitationPlan(s, hash, checked, now) ==
             if rels == [] then Refused(TemporarilyUnavailable) else Writes(Acceptance(rels, inv, now))
    requires Invitations.InvitedUser(s, hash) == if rels == [] then None else Some(rels[0].from)
    requires k <= |Acceptance(rels, inv, now)| && (userE.Some? <==> rels != [] && !faulty) && (userE.Some? <==> k == 2)
    requires userE.Some? ==>
      rels[0].from < |s.ents| && userE.value == Patched(RecordAt(s, rels[0].from), ActivatePatch(now))
    ensures InvitationTaken(s, hash, checked, now, k,
              if userE.None? then Failure(TemporarilyUnavailable) else Success(ToUser(userE.value)), faulty)
  {
    if userE.Some? {
      ActivatedUser(RecordAt(s, rels[0].from), now);
    }
  }

  /** The answer is the user at the other end of the invitation as now stored, field by field. */
  predicate InvitationTaken(s: Store, hash: string, checked: int, now: int, done: nat, r: Result<User, Error>,
                            faulty: bool) {
    AnsweredExactly(AcceptInvitationPlan(s, hash, checked, now), done, r, faulty, TemporarilyUnavailable) &&
    (r.Success? ==>
      Invitations.InvitedUser(s, hash) == Some(r.value.id) && r.value.id < |s.ents| &&
      ReadsUser(r.value, r.value.id, s.ents[r.value.id].props + map[Status := Word(Active), UpdatedAt := At(now)]))
  }

  /** Whatever happened since the invitation was made, the user it leads to is answered with the email and the
      display name of the request, and active. */
  lemma AnsweredAsInvited(agency: string, calls: seq<Call>, s: Store, hash: string, now: int, u: User,
                          before: seq<Call>, c: Call)
    requires ValidRun(agency, calls) && s == Run(agency, calls) && s.agency == agency
    requires Invitations.MadeInvitation(agency, calls, before, c, hash)
    requires Invitations.InvitedUser(s, hash) == Some(u.id) && u.id < |s.ents|
    requires ReadsUser(u, u.id, s.ents[u.id].props + map[Status := Word(Active), UpdatedAt := At(now)])
    ensures u == User(|Run(agency, before).ents|, agency, c.op.invite.email, Some(Active), c.op.invite.displayName,
                      Sec(c.op.at), now, u.deletedAt)
  {
    Invitations.InvitedIsFound(agency, calls, before, c, hash);
    ReadAsMade(s, u, c.op.invite, c.op.at, now);
  }

  lemma ReadAsMade(s: Store, u: User, req: InviteRequest, at: int, now: int)
    requires Invitations.MadeFor(s, u.id, req, at)
    requires ReadsUser(u, u.id, s.ents[u.id].props + map[Status := Word(Active), UpdatedAt := At(now)])
    ensures u == User(u.id, s.agency, req.email, Some(Active), req.displayName, Sec(at), now, u.deletedAt)
  {
  }

  predicate UserChanged(s: Store, id: Id, change: UserChange, now: int, done: nat, r: Result<User, Error>,
                        faulty: bool) {
    AnsweredExactly(ChangeUserPlan(s, id, change, now), done, r, faulty, UserNotFound) &&
    (r.Success? ==> id < |s.ents| && ReadsUser(r.value, id, StatusSet(s.ents[id].props, change, now)))
  }

  predicate RoleCreated(s: Store, req: RoleRequest, now: int, done: nat, r: Result<Role, Error>, faulty: bool) {
    AnsweredExactly(CreateRolePlan(s, req, now), done, r, faulty, TemporarilyUnavailable) &&
    (!faulty ==> (r.Success? <==> List(s.ents, TRole, Where(Name, Text(req.name))) == [])) &&
    (r.Success? ==>
      r.value == Role(|s.ents|, s.agency, req.name, false, req.displayName, req.description, now, now, None))
  }

  predicate RoleUpdated(s: Store, id: Id, req: RoleRequest, now: int, done: nat, r: Result<Role, Error>, faulty: bool) {
    AnsweredExactly(OnCustomRole(s, id, Update(id, RolePatch(req, now))), done, r, faulty, RoleNotFound) &&
    (r.Success? ==>
      id < |s.ents| && var role := ToRole(RecordAt(s, id));
      r.value == role.(displayName := OrElse(req.displayName, role.displayName),
                       description := OrElse(req.description, role.description), updatedAt := now))
  }

  predicate ScopeRegistered(s: Store, req: ScopeRequest, now: int, done: nat, r: Result<Scope, Error>, faulty: bool) {
    AnsweredExactly(RegisterScopePlan(s, req, now), done, r, faulty, TemporarilyUnavailable) &&
    (r.Success? ==>
      var found := List(s.ents, TScope, Where(Name, Text(req.name)));
      r.value == if found == []
        then Scope(|s.ents|, s.agency, req.name, req.registeredBy, req.description, now, now, None)
        else ToScope(RecordAt(s, found[0])).(description := req.description, updatedAt := now, deprecatedAt := None))
  }

  /** When no storage call precedes the two refusals. */
  lemma RefusedInWords(s: Store, req: ScopeRequest, now: int, done: nat, r: Result<Scope, Error>, faulty: bool)
    requires Answered(RegisterScopePlan(s, req, now), done, r, faulty, TemporarilyUnavailable)
    requires !MatchScope(req.name) || Reserved(req) ==> !faulty
    ensures r == Failure(ScopeReserved) <==> ScopeRegistry.NotTheirs(req)
    ensures r == Failure(InvalidScope) <==> !exists prefix, action :: Spells(req.name, prefix, action)
  {
    ScopeRegistry.ReservedMeans(req);
    MatchScopeExactly(req.name);
  }

  predicate ScopeDeprecated(s: Store, id: Id, now: int, done: nat, r: Result<Scope, Error>, faulty: bool) {
    AnsweredExactly(DeprecateScopePlan(s, id, now), done, r, faulty, ScopeNotFound) &&
    (r.Success? ==>
      id < |s.ents| && r.value == ToScope(RecordAt(s, id)).(deprecatedAt := Some(now), updatedAt := now))
  }

  predicate MembershipRevoked(s: Store, id: Id, now: int, done: nat, r: Result<Membership, Error>, faulty: bool) {
    AnsweredExactly(RevokeMembershipPlan(s, id, now), done, r, faulty, MembershipNotFound) &&
    (r.Success? ==> id < |s.ents| && r.value == ToMembership(RecordAt(s, id)).(revokedAt := Some(now)))
  }

  predicate SecretRotated(s: Store, clientId: string, secret: NewSecret, now: int, done: nat,
                          r: Result<string, Error>, faulty: bool, saltFails: bool) {
    var plan := RotateClientSecretPlan(s, clientId, secret, now);
    AnsweredExactly(plan, done, r, faulty || (saltFails && plan.Writes?), OAuthClientNotFound) &&
    (!faulty && !saltFails ==> (r.Success? <==> List(s.ents, TOAuthClient, Where(ClientId, Text(clientId))) != [])) &&
    (r.Success? ==> r.value == secret.plaintext)
  }

  /** An identifier names an entity of the type, or nothing. */
  predicate NamesAtMost(s: Store, id: Id, t: TypeName) {
    id < |s.ents| ==> s.ents[id].typ == t
  }

  datatype Config = Config(time: uint32, memory: uint32, threads: uint8)

  /** An operation that writes is a method with its storage calls, named `...Steps` or `Make...`, and a method
      that adds the call to the history. */
  class OrgManager {
    const agency: string
    const dm: DataManager
    const clock: Clock
    const sha: Sha256
    const argon: Argon2
    const cfg: Config
    ghost var calls: seq<Call>

    /** The store is what the recorded calls made of it, and no purge is dated after the clock. */
    ghost predicate Valid()
      reads this, dm, clock
    {
      ValidRun(agency, calls) && dm.s == Run(agency, calls) && dm.s.agency == agency && PurgedBy(calls, clock.now)
    }

    constructor (agency: string, dm: DataManager, clock: Clock, sha: Sha256, argon: Argon2, cfg: Config)
      requires dm.s == EmptyStore(agency)
      ensures Valid() && calls == [] && this.agency == agency && this.dm == dm && this.clock == clock
      ensures this.sha == sha && this.argon == argon && this.cfg == cfg
    {
      this.agency := agency;
      this.dm := dm;
      this.clock := clock;
      this.sha := sha;
      this.argon := argon;
      this.cfg := cfg;
      calls := [];
    }

    /** Records a call once the writes it got to make are in the store. `was` is the clock before the call. */
    ghost method Conclude(c: Call, s: Store, plan: Outcome, was: int)
      requires ValidRun(agency, calls) && s == Run(agency, calls) && s.agency == agency && Admissible(s, c.op)
      requires plan == Plan(s, c.op) && Wrote(s, plan, c.done, dm.s)
      requires PurgedBy(calls, was) && was <= clock.now && (c.op.Purge? ==> c.op.at <= clock.now)
      modifies this`calls
      ensures Valid() && calls == old(calls) + [c]
    {
      Recorded(agency, calls, c, plan, dm.s);
      AgencyStays(s, WritesOf(plan)[..c.done]);
      PurgesRecorded(calls, c, was, clock.now);
      calls := calls + [c];
    }

    // -------------------------------------------------------------- organizations

    /** Seeds the four built-in roles. `ws` are all planned writes of the calling operation, of which `k0` have
        been made. */
    method SeedBuiltinRoles(now: int, ghost s: Store, ghost ws: seq<Write>, ghost k0: nat)
      returns (ok: bool, ghost k: nat)
      requires dm.s.agency == agency && k0 <= |ws| && dm.s == ApplyAll(s, ws[..k0])
      requires ws[k0..] == SeedWrites(dm.s, BUILTINS, now)
      modifies dm
      ensures k0 <= k <= |ws| && dm.s == ApplyAll(s, ws[..k])
      ensures if dm.faults == old(dm.faults) then ok && k == |ws| else !ok
    {
      ok, k := SeedRoles(BUILTINS, now, s, ws, k0);
    }

    method SeedRoles(builtins: seq<Builtin>, now: int, ghost s: Store, ghost ws: seq<Write>, ghost k0: nat)
      returns (ok: bool, ghost k: nat)
      requires dm.s.agency == agency && SeedingAt(s, ws, k0, dm.s, builtins, now)
      modifies dm
      ensures k0 <= k <= |ws| && dm.s == ApplyAll(s, ws[..k])
      ensures if dm.faults == old(dm.faults) then ok && k == |ws| else !ok
    {
      k := k0;
      assert builtins[0..] == builtins;
      var i := 0;
      while i < |builtins|
        invariant i <= |builtins| && k0 <= k && dm.faults == old(dm.faults) && dm.s.agency == agency
        invariant SeedingAt(s, ws, k, dm.s, builtins[i..], now)
      {
        SeedingNext(s, ws, k, dm.s, builtins, i, now);
        ok, k := SeedRole(builtins[i], now, builtins[i + 1..], s, ws, k);
        if !ok {
          return false, k;
        }
        i := i + 1;
      }
      assert builtins[i..] == [];
      SeedingDone(s, ws, k, dm.s, now);
      assert ws[..k] == ws;
      ok := true;
    }

    /** One round of the seeding: a name that has a live role is passed over. */
    method SeedRole(b: Builtin, now: int, ghost rest: seq<Builtin>, ghost s: Store, ghost ws: seq<Write>, ghost k0: nat)
      returns (ok: bool, ghost k: nat)
      requires dm.s.agency == agency && SeedingAt(s, ws, k0, dm.s, [b] + rest, now)
      modifies dm
      ensures k0 <= k <= |ws| && dm.s == ApplyAll(s, ws[..k]) && dm.s.agency == agency
      ensures ok <==> dm.faults == old(dm.faults)
      ensures ok ==> SeedingAt(s, ws, k, dm.s, rest, now)
    {
      k := k0;
      SeedCons(dm.s, b, rest, now);
      var existing := dm.ListEntities(TRole, Where(Name, Text(b.name)));
      if existing.Failure? {
        return false, k;
      }
      if |existing.value| == 0 {
        ghost var w := Create(TRole, BuiltinProps(agency, b, now));
        Advance(s, ws, k, w, SeedWrites(Apply(dm.s, w), rest, now));
        var e := dm.CreateEntity(TRole, BuiltinProps(agency, b, now));
        if e.Failure? {
          return false, k;
        }
        k := k + 1;
      }
      ok := true;
    }

    /** A lookup of the seeding can still fail after the last write, so a failure does not mean that
        anything is missing. */
    method InitOrganization(req: OrgRequest) returns (r: Result<Organization, Error>, ghost c: Call)
      requires Valid()
      modifies this, dm, clock
      ensures Valid() && calls == old(calls) + [c]
      ensures c.op.InitOrganization? && c.op.org == req && Sec(old(clock.now)) <= c.op.now <= Sec(clock.now)
      ensures Answered(InitOrganizationPlan(old(dm.s), req, c.op.now), c.done, r,
                       dm.faults != old(dm.faults), TemporarilyUnavailable)
      ensures r.Success? ==>
        r.value == Organization(|old(dm.s).ents|, agency, req.name, true, req.description,
                                req.contactEmail, req.logoURL, c.op.now, c.op.now, None, None)
      ensures r.Success? ==>
        Seeding.LiveRole(dm.s, "super_admin") && Seeding.LiveRole(dm.s, "admin") &&
        Seeding.LiveRole(dm.s, "member") && Seeding.LiveRole(dm.s, "viewer") &&
        (Seeding.ExactlyTheBuiltins(dm.s) <==> Seeding.NamesFree(old(dm.s)))
      ensures c.done >= 1 ==>
        exists n: nat :: Seeding.NamedUpTo(old(dm.s), dm.s, ["super_admin", "admin", "member", "viewer"], n)
    {
      ghost var now, k;
      r, now, k := InitOrganizationSteps(req);
      c := Call(Op.InitOrganization(req, now), k);
      Conclude(c, old(dm.s), InitOrganizationPlan(old(dm.s), req, now), old(clock.now));
      if k >= 1 {
        SeedsNamed(agency, old(calls), old(dm.s), req, now, k, dm.s);
      }
      if r.Success? {
        Seeding.SeedingSucceeds(agency, old(calls), req, now, k);
      }
    }

    method InitOrganizationSteps(req: OrgRequest) returns (r: Result<Organization, Error>, ghost now: int, ghost k: nat)
      requires dm.s.agency == agency
      modifies dm, clock
      ensures old(clock.now) <= clock.now && Sec(old(clock.now)) <= now <= Sec(clock.now)
      ensures var plan := InitOrganizationPlan(old(dm.s), req, now);
        Wrote(old(dm.s), plan, k, dm.s) && Answered(plan, k, r, dm.faults != old(dm.faults), TemporarilyUnavailable)
      ensures r.Success? ==>
        r.value == Organization(|old(dm.s).ents|, agency, req.name, true, req.description,
                                req.contactEmail, req.logoURL, now, now, None, None)
    {
      now, k := Sec(clock.now), 0;
      NoneWritten(dm.s, InitOrganizationPlan(dm.s, req, now));
      var existing := dm.ListEntities(TOrganization, Any);
      if existing.Failure? {
        return Failure(TemporarilyUnavailable), now, k;
      }
      if |existing.value| > 0 {
        return Failure(OrgAlreadyExists), now, k;
      }
      var t := clock.Now();
      var stamp := Sec(t);
      now := stamp;
      var ok, e;
      ok, e, k := MakeOrganization(req, stamp);
      if !ok {
        return Failure(TemporarilyUnavailable), now, k;
      }
      NewOrganization(e.id, agency, req, stamp);
      r := Success(ToOrganization(e));
    }

    /** The writes of InitOrganization. */
    method MakeOrganization(req: OrgRequest, now: int) returns (ok: bool, e: Record, ghost k: nat)
      requires dm.s.agency == agency && InitOrganizationPlan(dm.s, req, now).Writes?
      modifies dm
      ensures var ws := InitOrganizationPlan(old(dm.s), req, now).ws;
        k <= |ws| && dm.s == ApplyAll(old(dm.s), ws[..k]) &&
        if dm.faults == old(dm.faults) then ok && k == |ws| else !ok
      ensures ok ==> e == Record(|old(dm.s).ents|, Entity(TOrganization, OrgProps(agency, req, now), false))
    {
      ghost var s := dm.s;
      ghost var ws, w := InitOrganizationPlan(s, req, now).ws, Create(TOrganization, OrgProps(agency, req, now));
      e := Record(0, Entity(TOrganization, map[], false));
      assert ws[..0] == [] && ws[0..] == [w] + SeedWrites(Apply(s, w), BUILTINS, now);
      var created := dm.CreateEntity(TOrganization, OrgProps(agency, req, now));
      if created.Failure? {
        return false, e, 0;
      }
      e := created.value;
      Advance(s, ws, 0, w, SeedWrites(dm.s, BUILTINS, now));
      ok, k := SeedBuiltinRoles(now, s, ws, 1);
    }

    method GetOrganization() returns (r: Result<Organization, Error>)
      modifies dm`faults
      ensures var orgs := List(dm.s.ents, TOrganization, Any);
        if dm.faults != old(dm.faults) then r == Failure(TemporarilyUnavailable)
        else if orgs == [] then r == Failure(OrgNotFound)
        else r == Success(ToOrganization(Record(orgs[0], dm.s.ents[orgs[0]])))
    {
      var entities := dm.ListEntities(TOrganization, Any);
      if entities.Failure? {
        return Failure(TemporarilyUnavailable);
      }
      if |entities.value| == 0 {
        return Failure(OrgNotFound);
      }
      r := Success(ToOrganization(entities.value[0]));
    }

    /** The patch map, assigned field by field. */
    method GatherOrgPatch(req: OrgRequest, now: int) returns (props: Props)
      ensures props == OrgPatch(req, now)
    {
      props := map[UpdatedAt := At(now)];
      props := AssignUnlessEmpty(props, Name, req.name);
      props := AssignUnlessEmpty(props, Description, req.description);
      props := AssignUnlessEmpty(props, ContactEmail, req.contactEmail);
      props := AssignUnlessEmpty(props, LogoURL, req.logoURL);
    }

    method AssignUnlessEmpty(p: Props, key: Prop, text: string) returns (props: Props)
      ensures props == p + OnlyIf(text != "", map[key := Text(text)])
    {
      props := p;
      if text != "" {
        props := props[key := Text(text)];
      }
    }

    method UpdateOrganization(req: OrgRequest) returns (r: Result<Organization, Error>, ghost c: Call)
      requires Valid()
      modifies this, dm, clock
      ensures Valid() && calls == old(calls) + [c]
      ensures c.op.UpdateOrganization? && c.op.org == req && Sec(old(clock.now)) <= c.op.now <= Sec(clock.now)
      ensures OrganizationUpdated(old(dm.s), req, c.op.now, c.done, r, dm.faults != old(dm.faults))
    {
      ghost var now, k;
      r, now, k := UpdateOrganizationSteps(req);
      c := Call(Op.UpdateOrganization(req, now), k);
      Conclude(c, old(dm.s), PatchOrganizationPlan(old(dm.s), OrgPatch(req, now)), old(clock.now));
    }

    method UpdateOrganizationSteps(req: OrgRequest)
      returns (r: Result<Organization, Error>, ghost now: int, ghost k: nat)
      modifies dm, clock
      ensures old(clock.now) <= clock.now && Sec(old(clock.now)) <= now <= Sec(clock.now)
      ensures Wrote(old(dm.s), PatchOrganizationPlan(old(dm.s), OrgPatch(req, now)), k, dm.s)
      ensures OrganizationUpdated(old(dm.s), req, now, k, r, dm.faults != old(dm.faults))
    {
      ghost var s := dm.s;
      now, k := Sec(clock.now), 0;
      NoneWritten(s, PatchOrganizationPlan(s, OrgPatch(req, now)));
      var org := GetOrganization();
      if org.Failure? {
        return Failure(org.error), now, k;
      }
      var t := clock.Now();
      var stamp := Sec(t);
      now := stamp;
      var props := GatherOrgPatch(req, stamp);
      var e := dm.UpdateEntity(org.value.id, props);
      k := if e.Success? then 1 else 0;
      OneWritten(s, Update(org.value.id, props), e.Success?, dm.s);
      if e.Failure? {
        return Failure(TemporarilyUnavailable), now, k;
      }
      OrganizationPatchedAnswer(s, req, stamp, e.value);
      r := Success(ToOrganization(e.value));
    }

    method DisableOrganization() returns (r: Result<Organization, Error>, ghost c: Call)
      requires Valid()
      modifies this, dm, clock
      ensures Valid() && calls == old(calls) + [c]
      ensures c.op.DisableOrganization? && Sec(old(clock.now)) <= c.op.now <= Sec(clock.now)
      ensures OrganizationDisabled(old(dm.s), c.op.now, c.done, r, dm.faults != old(dm.faults))
    {
      ghost var now, k;
      r, now, k := DisableOrganizationSteps();
      c := Call(Op.DisableOrganization(now), k);
      Conclude(c, old(dm.s), PatchOrganizationPlan(old(dm.s), DisablePatch(now)), old(clock.now));
    }

    method DisableOrganizationSteps() returns (r: Result<Organization, Error>, ghost now: int, ghost k: nat)
      modifies dm, clock
      ensures old(clock.now) <= clock.now && Sec(old(clock.now)) <= now <= Sec(clock.now)
      ensures Wrote(old(dm.s), PatchOrganizationPlan(old(dm.s), DisablePatch(now)), k, dm.s)
      ensures OrganizationDisabled(old(dm.s), now, k, r, dm.faults != old(dm.faults))
    {
      ghost var s := dm.s;
      now, k := Sec(clock.now), 0;
      NoneWritten(s, PatchOrganizationPlan(s, DisablePatch(now)));
      var org := GetOrganization();
      if org.Failure? {
        return Failure(org.error), now, k;
      }
      var t := clock.Now();
      var stamp := Sec(t);
      now := stamp;
      var e := dm.UpdateEntity(org.value.id, DisablePatch(stamp));
      k := if e.Success? then 1 else 0;
      OneWritten(s, Update(org.value.id, DisablePatch(stamp)), e.Success?, dm.s);
      if e.Failure? {
        return Failure(TemporarilyUnavailable), now, k;
      }
      DisabledOrganization(RecordAt(s, org.value.id), stamp);
      r := Success(ToOrganization(e.value));
    }

    method DeleteOrganization() returns (r: Result<(), Error>, ghost c: Call)
      requires Valid()
      modifies this, dm
      ensures Valid() && calls == old(calls) + [c] && c.op.DeleteOrganization?
      ensures AnsweredExactly(DeleteOrganizationPlan(old(dm.s)), c.done, r, dm.faults != old(dm.faults),
                              TemporarilyUnavailable)
      ensures r.Success? ==> Removed(old(dm.s), dm.s, TOrganization, Any)
    {
      ghost var k;
      ListedOnceInRun(agency, calls, dm.s, "");
      r, k := DeleteOrganizationSteps();
      c := Call(Op.DeleteOrganization, k);
      Conclude(c, old(dm.s), DeleteOrganizationPlan(old(dm.s)), old(clock.now));
    }

    method DeleteOrganizationSteps() returns (r: Result<(), Error>, ghost k: nat)
      requires AtMostOne(dm.s, TOrganization, Any)
      modifies dm
      ensures r.Success? ==> Removed(old(dm.s), dm.s, TOrganization, Any)
      ensures Wrote(old(dm.s), DeleteOrganizationPlan(old(dm.s)), k, dm.s)
      ensures AnsweredExactly(DeleteOrganizationPlan(old(dm.s)), k, r, dm.faults != old(dm.faults),
                              TemporarilyUnavailable)
    {
      ghost var s := dm.s;
      k := 0;
      NoneWritten(s, DeleteOrganizationPlan(s));
      var org := GetOrganization();
      if org.Failure? {
        return Failure(org.error), k;
      }
      var e := dm.DeleteEntity(org.value.id);
      k := if e.Success? then 1 else 0;
      OneWritten(s, Delete(org.value.id), e.Success?, dm.s);
      if e.Failure? {
        return Failure(TemporarilyUnavailable), k;
      }
      DeletionRemoves(s, TOrganization, Any);
      r := Success(());
    }

    // -------------------------------------------------------------- users and invitations

    /** One edge of a name for every identifier. */
    method LinkAll(name: EdgeName, from: Id, ids: seq<Id>, ghost tail: seq<Write>,
                   ghost s: Store, ghost ws: seq<Write>, ghost k0: nat) returns (ok: bool, ghost k: nat)
      requires k0 <= |ws| && dm.s == ApplyAll(s, ws[..k0])
      requires ws[k0..] == LinksTo(name, from, ids) + tail
      modifies dm
      ensures k0 <= k <= |ws| && dm.s == ApplyAll(s, ws[..k]) && dm.s.ents == old(dm.s.ents)
      ensures ok <==> dm.faults == old(dm.faults)
      ensures if ok then ws[k..] == tail else k < |ws|
    {
      k := k0;
      assert ids[0..] == ids;
      var i := 0;
      while i < |ids|
        invariant i <= |ids| && k0 <= k <= |ws| && dm.s == ApplyAll(s, ws[..k])
        invariant dm.s.ents == old(dm.s.ents) && dm.faults == old(dm.faults)
        invariant ws[k..] == LinksTo(name, from, ids[i..]) + tail
      {
        ghost var w, rest := Link(Edge(name, from, ids[i])), LinksTo(name, from, ids[i + 1..]) + tail;
        LinksToNext(name, from, ids, i);
        assert LinksTo(name, from, ids[i..]) + tail == [w] + rest;
        var linked := dm.CreateRelationship(Edge(name, from, ids[i]));
        Advance(s, ws, k, w, rest);
        if linked.Failure? {
          return false, k;
        }
        k := k + 1;
        i := i + 1;
      }
      assert LinksTo(name, from, ids[i..]) + tail == tail;
      ok := true;
    }

    /** `random` is what the random source delivers, unless it fails. */
    method InviteUser(req: InviteRequest, random: Digest, randomFails: bool)
      returns (r: Result<Invitation, Error>, ghost c: Call)
      requires Valid()
      requires List(dm.s.ents, TInvitation, Where(TokenHash, Text(GenerateToken(sha, "cv_iv_", random).1))) == []
      modifies this, dm, clock
      ensures Valid() && calls == old(calls) + [c]
      ensures c.op.InviteUser? && c.op.invite == req && c.op.hash == GenerateToken(sha, "cv_iv_", random).1
      ensures old(clock.now) <= c.op.at <= clock.now
      ensures UserInvited(old(dm.s), req, GenerateToken(sha, "cv_iv_", random), c.op.at, c.done, r,
                          dm.faults != old(dm.faults), randomFails)
      ensures r.Success? && req.expiresIn <= 0 ==> r.value.expiresAt == Sec(c.op.at + 72 * 60 * 60 * 1_000_000_000)
      ensures r.Success? && req.expiresIn > 0 ==> r.value.expiresAt == Sec(c.op.at + req.expiresIn)
      ensures r.Success? ==>
        Invitations.MadeInvitation(agency, calls, old(calls), c, HashSHA256(sha, r.value.tokenHash))
    {
      ghost var at, k;
      var token := GenerateToken(sha, "cv_iv_", random);
      r, at, k := InviteUserSteps(req, token, randomFails);
      c := Call(Op.InviteUser(req, token.1, at), k);
      Conclude(c, old(dm.s), InviteUserPlan(old(dm.s), req, token.1, at), old(clock.now));
    }

    method InviteUserSteps(req: InviteRequest, token: (string, string), randomFails: bool)
      returns (r: Result<Invitation, Error>, ghost at: int, ghost k: nat)
      requires dm.s.agency == agency
      modifies dm, clock
      ensures old(clock.now) <= at <= clock.now
      ensures Wrote(old(dm.s), InviteUserPlan(old(dm.s), req, token.1, at), k, dm.s)
      ensures UserInvited(old(dm.s), req, token, at, k, r, dm.faults != old(dm.faults), randomFails)
    {
      ghost var s := dm.s;
      at, k := clock.now, 0;
      NoneWritten(s, InviteUserPlan(s, req, token.1, at));
      var existing := dm.ListEntities(TUser, Where(Email, Text(req.email)));
      if existing.Failure? {
        return Failure(TemporarilyUnavailable), at, k;
      }
      if |existing.value| > 0 {
        return Failure(UserAlreadyExists), at, k;
      }
      var t := clock.Now();
      at := t;
      var now, expires := Sec(t), Sec(t + TTL(req.expiresIn));
      ghost var ws := InviteUserPlan(s, req, token.1, t).ws;
      InvitedFirst(s, req, token.1, t, ws);
      var ok, invE;
      ok, invE, k := MakeInvitation(req, token.1, randomFails, now, expires, s, ws);
      if !ok {
        return Failure(TemporarilyUnavailable), at, k;
      }
      NewInvitation(invE.id, agency, token.1, expires, now);
      Invitations.InvitationWindow(t, req.expiresIn, t);
      r := Success(ToInvitation(invE).(tokenHash := token.0));
    }

    /** The writes of InviteUser: the random source is asked after the user was created. */
    method MakeInvitation(req: InviteRequest, hash: string, randomFails: bool, now: int, expires: int,
                          ghost s: Store, ghost ws: seq<Write>)
      returns (ok: bool, invE: Record, ghost k: nat)
      requires dm.s == s && s.agency == agency && |ws| >= 3 && ws[3..] == InviteLinks(|s.ents| + 1, req)
      requires ws[0] == Create(TUser, UserProps(agency, req, now))
      requires ws[1] == Create(TInvitation, InvitationProps(agency, hash, expires, now))
      requires ws[2] == Link(Edge(HasInvitation, |s.ents|, |s.ents| + 1))
      modifies dm
      ensures k <= |ws| && dm.s == ApplyAll(s, ws[..k]) && (ok <==> k == |ws|)
      ensures ok <==> dm.faults == old(dm.faults) && !randomFails
      ensures ok ==>
        invE == Record(|s.ents| + 1, Entity(TInvitation, InvitationProps(agency, hash, expires, now), false))
    {
      assert ws[..0] == [];
      invE := Record(0, Entity(TInvitation, map[], false));
      var userE := dm.CreateEntity(TUser, UserProps(agency, req, now));
      if userE.Failure? {
        return false, invE, 0;
      }
      AdvanceAt(s, ws, 0);
      if randomFails {
        return false, invE, 1;
      }
      var created := dm.CreateEntity(TInvitation, InvitationProps(agency, hash, expires, now));
      if created.Failure? {
        return false, invE, 1;
      }
      AdvanceAt(s, ws, 1);
      invE := created.value;
      var linked := dm.CreateRelationship(Edge(HasInvitation, userE.value.id, invE.id));
      if linked.Failure? {
        return false, invE, 2;
      }
      AdvanceAt(s, ws, 2);
      ok, k := LinkInvitation(invE.id, req, s, ws, 3);
    }

    /** The edge to the inviting user, if one is given, and an edge to every role. */
    method LinkInvitation(inv: Id, req: InviteRequest, ghost s: Store, ghost ws: seq<Write>, ghost k0: nat)
      returns (ok: bool, ghost k: nat)
      requires k0 <= |ws| && dm.s == ApplyAll(s, ws[..k0]) && ws[k0..] == InviteLinks(inv, req)
      modifies dm
      ensures k0 <= k <= |ws| && dm.s == ApplyAll(s, ws[..k]) && (ok <==> k == |ws|) &&
              (ok <==> dm.faults == old(dm.faults))
    {
      ghost var roles := LinksTo(WillGrantRole, inv, req.roleIds) + [];
      InviteLinksParts(inv, req, roles);
      k := k0;
      if req.invitedBy.Some? {
        ghost var e := Edge(InvitedBy, inv, req.invitedBy.value);
        var invitedBy := dm.CreateRelationship(Edge(InvitedBy, inv, req.invitedBy.value));
        Advance(s, ws, k, Link(e), roles);
        if invitedBy.Failure? {
          return false, k;
        }
        k := k0 + 1;
      }
      assert ws[k..] == roles;
      ok, k := LinkAll(WillGrantRole, inv, req.roleIds, [], s, ws, k);
    }

    /** The checks of AcceptInvitation: the invitation with this hash, if it is still open. */
    method FindInvitation(tokenHash: string) returns (r: Result<Invitation, Error>, ghost checked: int)
      modifies dm`faults, clock
      ensures old(clock.now) <= checked <= clock.now
      ensures var found := List(dm.s.ents, TInvitation, Where(TokenHash, Text(tokenHash)));
        if dm.faults != old(dm.faults) then r == Failure(TemporarilyUnavailable)
        else if found == [] then r == Failure(InvitationNotFound)
        else var inv := ToInvitation(Record(found[0], dm.s.ents[found[0]]));
          r == if inv.status == Some(Accepted) then Failure(InvitationAlreadyAccepted)
               else if After(checked, inv.expiresAt) || inv.status == Some(Expired) then Failure(InvitationExpired)
               else Success(inv)
    {
      checked := clock.now;
      var found := dm.ListEntities(TInvitation, Where(TokenHash, Text(tokenHash)));
      if found.Failure? {
        return Failure(TemporarilyUnavailable), checked;
      }
      if |found.value| == 0 {
        return Failure(InvitationNotFound), checked;
      }
      var inv := ToInvitation(found.value[0]);
      if inv.status == Some(Accepted) {
        return Failure(InvitationAlreadyAccepted), checked;
      }
      var now := clock.Now();
      checked := now;
      if After(now, inv.expiresAt) || inv.status == Some(Expired) {
        return Failure(InvitationExpired), checked;
      }
      r := Success(inv);
    }

    method AcceptInvitation(token: string) returns (r: Result<User, Error>, ghost c: Call)
      requires Valid()
      modifies this, dm, clock
      ensures Valid() && calls == old(calls) + [c]
      ensures c.op.AcceptInvitation? && c.op.hash == HashSHA256(sha, token)
      ensures old(clock.now) <= c.op.checked <= clock.now && Sec(c.op.checked) <= c.op.now <= Sec(clock.now)
      ensures InvitationTaken(old(dm.s), c.op.hash, c.op.checked, c.op.now, c.done, r, dm.faults != old(dm.faults))
      ensures r.Success? ==>
        forall before, made :: Invitations.MadeInvitation(agency, old(calls), before, made, c.op.hash) ==>
          r.value == User(|Run(agency, before).ents|, agency, made.op.invite.email, Some(Active),
                          made.op.invite.displayName, Sec(made.op.at), c.op.now, r.value.deletedAt)
    {
      ghost var checked, now, k;
      var tokenHash := HashSHA256(sha, token);
      r, checked, now, k := AcceptInvitationSteps(tokenHash);
      c := Call(Op.AcceptInvitation(tokenHash, checked, now), k);
      Conclude(c, old(dm.s), AcceptInvitationPlan(old(dm.s), tokenHash, checked, now), old(clock.now));
      forall before, made | r.Success? && Invitations.MadeInvitation(agency, old(calls), before, made, tokenHash)
        ensures r.value == User(|Run(agency, before).ents|, agency, made.op.invite.email, Some(Active),
                                made.op.invite.displayName, Sec(made.op.at), now, r.value.deletedAt)
      {
        AnsweredAsInvited(agency, old(calls), old(dm.s), tokenHash, now, r.value, before, made);
      }
    }

    method AcceptInvitationSteps(tokenHash: string)
      returns (r: Result<User, Error>, ghost checked: int, ghost now: int, ghost k: nat)
      modifies dm, clock
      ensures old(clock.now) <= checked <= clock.now && Sec(checked) <= now <= Sec(clock.now)
      ensures Wrote(old(dm.s), AcceptInvitationPlan(old(dm.s), tokenHash, checked, now), k, dm.s)
      ensures InvitationTaken(old(dm.s), tokenHash, checked, now, k, r, dm.faults != old(dm.faults))
    {
      ghost var s := dm.s;
      var inv;
      inv, checked := FindInvitation(tokenHash);
      now, k := Sec(clock.now), 0;
      if inv.Failure? {
        NoneWritten(s, AcceptInvitationPlan(s, tokenHash, checked, now));
        return Failure(inv.error), checked, now, k;
      }
      var t := clock.Now();
      var stamp := Sec(t);
      now := stamp;
      var userE;
      userE, k := Activate(inv.value.id, stamp);
      OpenInvitation(s, tokenHash, checked, stamp, inv.value);
      AcceptanceAnswer(s, tokenHash, checked, stamp, EdgesInto(s, HasInvitation, inv.value.id), inv.value.id, userE, k,
                       dm.faults != old(dm.faults));
      if userE.None? {
        return Failure(TemporarilyUnavailable), checked, now, k;
      }
      r := Success(ToUser(userE.value));
    }

    /** The user the invitation belongs to becomes active, and then the invitation accepted. */
    method Activate(inv: Id, now: int) returns (userE: Option<Record>, ghost k: nat)
      modifies dm
      ensures var rels := EdgesInto(old(dm.s), HasInvitation, inv);
        var ws := Acceptance(rels, inv, now);
        k <= |ws| && dm.s == ApplyAll(old(dm.s), ws[..k]) &&
        (userE.Some? <==> rels != [] && dm.faults == old(dm.faults)) &&
        (userE.Some? <==> k == 2) &&
        (userE.Some? ==>
          rels[0].from < |old(dm.s).ents| &&
          userE.value == Patched(RecordAt(old(dm.s), rels[0].from), ActivatePatch(now)))
    {
      k := 0;
      var rels := dm.ListRelationships(HasInvitation, None, Some(inv));
      if rels.Failure? || |rels.value| == 0 {
        return None, 0;
      }
      userE, k := ActivateUser(rels.value[0].from, inv, now);
    }

    method ActivateUser(user: Id, inv: Id, now: int) returns (userE: Option<Record>, ghost k: nat)
      modifies dm
      ensures var ws := [Update(user, ActivatePatch(now)), Update(inv, AcceptPatch(now))];
        k <= 2 && dm.s == ApplyAll(old(dm.s), ws[..k])
      ensures (userE.Some? <==> k == 2) && (userE.Some? <==> dm.faults == old(dm.faults))
      ensures userE.Some? ==>
        user < |old(dm.s).ents| && userE.value == Patched(RecordAt(old(dm.s), user), ActivatePatch(now))
    {
      ghost var s, ws := dm.s, [Update(user, ActivatePatch(now)), Update(inv, AcceptPatch(now))];
      assert ws[..0] == [];
      var activated := dm.UpdateEntity(user, ActivatePatch(now));
      if activated.Failure? {
        return None, 0;
      }
      AdvanceAt(s, ws, 0);
      var accepted := dm.UpdateEntity(inv, AcceptPatch(now));
      if accepted.Failure? {
        return None, 1;
      }
      AdvanceAt(s, ws, 1);
      return Some(activated.value), 2;
    }

    method GetUser(id: Id) returns (r: Result<User, Error>)
      modifies dm`faults
      ensures r.Success? <==> dm.faults == old(dm.faults) && id < |dm.s.ents| && dm.s.ents[id].typ == TUser
      ensures r.Success? ==> ReadsUser(r.value, id, dm.s.ents[id].props)
      ensures r.Failure? ==> r.error == UserNotFound
    {
      var e := dm.GetEntity(id);
      if e.Failure? || e.value.typ != TUser {
        return Failure(UserNotFound);
      }
      r := Success(ToUser(Record(id, e.value)));
    }

    /** SuspendUser, ReactivateUser and DeleteUser. */
    method ChangeUser(id: Id, change: UserChange) returns (r: Result<User, Error>, ghost c: Call)
      requires Valid()
      modifies this, dm, clock
      ensures Valid() && calls == old(calls) + [c]
      ensures c.op.ChangeUser? && c.op.id == id && c.op.change == change
      ensures Sec(old(clock.now)) <= c.op.now <= Sec(clock.now)
      ensures UserChanged(old(dm.s), id, change, c.op.now, c.done, r, dm.faults != old(dm.faults))
    {
      ghost var now, k;
      r, now, k := ChangeUserSteps(id, change);
      c := Call(Op.ChangeUser(id, change, now), k);
      Conclude(c, old(dm.s), ChangeUserPlan(old(dm.s), id, change, now), old(clock.now));
    }

    method ChangeUserSteps(id: Id, change: UserChange) returns (r: Result<User, Error>, ghost now: int, ghost k: nat)
      modifies dm, clock
      ensures old(clock.now) <= clock.now && Sec(old(clock.now)) <= now <= Sec(clock.now)
      ensures Wrote(old(dm.s), ChangeUserPlan(old(dm.s), id, change, now), k, dm.s)
      ensures UserChanged(old(dm.s), id, change, now, k, r, dm.faults != old(dm.faults))
    {
      ghost var s := dm.s;
      now, k := Sec(clock.now), 0;
      NoneWritten(s, ChangeUserPlan(s, id, change, now));
      var user := GetUser(id);
      if user.Failure? {
        return Failure(user.error), now, k;
      }
      var t := clock.Now();
      var stamp := Sec(t);
      now := stamp;
      var e := dm.UpdateEntity(id, UserPatch(change, stamp));
      k := if e.Success? then 1 else 0;
      OneWritten(s, Update(id, UserPatch(change, stamp)), e.Success?, dm.s);
      if e.Failure? {
        return Failure(TemporarilyUnavailable), now, k;
      }
      ChangedUser(RecordAt(s, id), change, stamp);
      r := Success(ToUser(e.value));
    }

    // -------------------------------------------------------------- roles

    method CreateRole(req: RoleRequest) returns (r: Result<Role, Error>, ghost c: Call)
      requires Valid()
      modifies this, dm, clock
      ensures Valid() && calls == old(calls) + [c]
      ensures c.op.CreateRole? && c.op.role == req && Sec(old(clock.now)) <= c.op.now <= Sec(clock.now)
      ensures RoleCreated(old(dm.s), req, c.op.now, c.done, r, dm.faults != old(dm.faults))
    {
      ghost var now, k;
      r, now, k := CreateRoleSteps(req);
      c := Call(Op.CreateRole(req, now), k);
      Conclude(c, old(dm.s), CreateRolePlan(old(dm.s), req, now), old(clock.now));
    }

    method CreateRoleSteps(req: RoleRequest) returns (r: Result<Role, Error>, ghost now: int, ghost k: nat)
      requires dm.s.agency == agency
      modifies dm, clock
      ensures old(clock.now) <= clock.now && Sec(old(clock.now)) <= now <= Sec(clock.now)
      ensures Wrote(old(dm.s), CreateRolePlan(old(dm.s), req, now), k, dm.s)
      ensures RoleCreated(old(dm.s), req, now, k, r, dm.faults != old(dm.faults))
    {
      ghost var s := dm.s;
      now, k := Sec(clock.now), 0;
      NoneWritten(s, CreateRolePlan(s, req, now));
      var existing := dm.ListEntities(TRole, Where(Name, Text(req.name)));
      if existing.Failure? {
        return Failure(TemporarilyUnavailable), now, k;
      }
      if |existing.value| > 0 {
        return Failure(RoleAlreadyExists), now, k;
      }
      var t := clock.Now();
      var stamp := Sec(t);
      now := stamp;
      var e := dm.CreateEntity(TRole, RoleProps(agency, req, stamp));
      k := if e.Success? then 1 else 0;
      OneWritten(s, Create(TRole, RoleProps(agency, req, stamp)), e.Success?, dm.s);
      if e.Failure? {
        return Failure(TemporarilyUnavailable), now, k;
      }
      NewRole(e.value.id, agency, req, stamp);
      r := Success(ToRole(e.value));
    }

    method GatherRolePatch(req: RoleRequest, now: int) returns (props: Props)
      ensures props == RolePatch(req, now)
    {
      props := map[UpdatedAt := At(now)];
      props := AssignUnlessEmpty(props, DisplayName, req.displayName);
      props := AssignUnlessEmpty(props, Description, req.description);
    }

    /** The type of the identified entity is not checked; the call enters the history if it is a role. */
    method UpdateRole(id: Id, req: RoleRequest) returns (r: Result<Role, Error>, ghost c: Call)
      requires Valid()
      modifies this, dm, clock
      ensures c.op.UpdateRole? && c.op.id == id && c.op.role == req && Sec(old(clock.now)) <= c.op.now <= Sec(clock.now)
      ensures Wrote(old(dm.s), OnCustomRole(old(dm.s), id, Update(id, RolePatch(req, c.op.now))), c.done, dm.s)
      ensures RoleUpdated(old(dm.s), id, req, c.op.now, c.done, r, dm.faults != old(dm.faults))
      ensures NamesAtMost(old(dm.s), id, TRole) ==> Valid() && calls == old(calls) + [c]
    {
      ghost var now, k;
      r, now, k := UpdateRoleSteps(id, req);
      c := Call(Op.UpdateRole(id, req, now), k);
      if NamesAtMost(old(dm.s), id, TRole) {
        Conclude(c, old(dm.s), OnCustomRole(old(dm.s), id, Update(id, RolePatch(req, now))), old(clock.now));
      }
    }

    method UpdateRoleSteps(id: Id, req: RoleRequest) returns (r: Result<Role, Error>, ghost now: int, ghost k: nat)
      modifies dm, clock
      ensures old(clock.now) <= clock.now && Sec(old(clock.now)) <= now <= Sec(clock.now)
      ensures Wrote(old(dm.s), OnCustomRole(old(dm.s), id, Update(id, RolePatch(req, now))), k, dm.s)
      ensures RoleUpdated(old(dm.s), id, req, now, k, r, dm.faults != old(dm.faults))
    {
      ghost var s := dm.s;
      now, k := Sec(clock.now), 0;
      NoneWritten(s, OnCustomRole(s, id, Update(id, RolePatch(req, now))));
      var existing := dm.GetEntity(id);
      if existing.Failure? {
        return Failure(RoleNotFound), now, k;
      }
      if PropBool(existing.value.props, EntityGraph.Builtin) {
        return Failure(RoleBuiltinImmutable), now, k;
      }
      var t := clock.Now();
      var stamp := Sec(t);
      now := stamp;
      var props := GatherRolePatch(req, stamp);
      var e := dm.UpdateEntity(id, props);
      k := if e.Success? then 1 else 0;
      OneWritten(s, Update(id, props), e.Success?, dm.s);
      if e.Failure? {
        return Failure(TemporarilyUnavailable), now, k;
      }
      PatchedRole(RecordAt(s, id), req, stamp);
      r := Success(ToRole(e.value));
    }

    /** As in UpdateRole. */
    method DeleteRole(id: Id) returns (r: Result<(), Error>, ghost c: Call)
      requires Valid()
      modifies this, dm
      ensures c.op == Op.DeleteRole(id) && Wrote(old(dm.s), OnCustomRole(old(dm.s), id, Delete(id)), c.done, dm.s)
      ensures AnsweredExactly(OnCustomRole(old(dm.s), id, Delete(id)), c.done, r, dm.faults != old(dm.faults),
                              RoleNotFound)
      ensures NamesAtMost(old(dm.s), id, TRole) ==> Valid() && calls == old(calls) + [c]
    {
      ghost var k;
      r, k := DeleteRoleSteps(id);
      c := Call(Op.DeleteRole(id), k);
      if NamesAtMost(old(dm.s), id, TRole) {
        Conclude(c, old(dm.s), OnCustomRole(old(dm.s), id, Delete(id)), old(clock.now));
      }
    }

    method DeleteRoleSteps(id: Id) returns (r: Result<(), Error>, ghost k: nat)
      modifies dm
      ensures Wrote(old(dm.s), OnCustomRole(old(dm.s), id, Delete(id)), k, dm.s)
      ensures AnsweredExactly(OnCustomRole(old(dm.s), id, Delete(id)), k, r, dm.faults != old(dm.faults), RoleNotFound)
    {
      ghost var s := dm.s;
      k := 0;
      NoneWritten(s, OnCustomRole(s, id, Delete(id)));
      var existing := dm.GetEntity(id);
      if existing.Failure? {
        return Failure(RoleNotFound), k;
      }
      if PropBool(existing.value.props, EntityGraph.Builtin) {
        return Failure(RoleBuiltinImmutable), k;
      }
      var e := dm.DeleteEntity(id);
      k := if e.Success? then 1 else 0;
      OneWritten(s, Delete(id), e.Success?, dm.s);
      if e.Failure? {
        return Failure(TemporarilyUnavailable), k;
      }
      r := Success(());
    }

    // -------------------------------------------------------------- scopes

    /** Whether a prefix is reserved for another service than the caller. */
    method ReservedFor(prefix: string, registeredBy: string) returns (reserved: bool)
      ensures reserved <==> (prefix == "org" || prefix == "audit") && registeredBy != "codevaldorg"
    {
      assert |RESERVED_PREFIXES| == 2 && RESERVED_PREFIXES[0] == "org" && RESERVED_PREFIXES[1] == "audit";
      var i := 0;
      while i < |RESERVED_PREFIXES|
        invariant i <= |RESERVED_PREFIXES|
        invariant forall j :: 0 <= j < i ==> !(prefix == RESERVED_PREFIXES[j] && registeredBy != ORG_SERVICE)
      {
        if prefix == RESERVED_PREFIXES[i] && registeredBy != ORG_SERVICE {
          return true;
        }
        i := i + 1;
      }
      reserved := false;
    }

    /** The checks of RegisterScope, and what is registered under the name. */
    method FindScope(req: ScopeRequest) returns (r: Result<seq<Record>, Error>)
      modifies dm`faults
      ensures if !MatchScope(req.name) then r == Failure(InvalidScope) && dm.faults == old(dm.faults)
        else if Reserved(req) then r == Failure(ScopeReserved) && dm.faults == old(dm.faults)
        else if dm.faults != old(dm.faults) then r == Failure(TemporarilyUnavailable)
        else r == Success(Records(dm.s, List(dm.s.ents, TScope, Where(Name, Text(req.name)))))
    {
      if !MatchScope(req.name) {
        return Failure(InvalidScope);
      }
      var reserved := ReservedFor(ScopePrefix(req.name), req.registeredBy);
      if reserved {
        return Failure(ScopeReserved);
      }
      var existing := dm.ListEntities(TScope, Where(Name, Text(req.name)));
      if existing.Failure? {
        return Failure(TemporarilyUnavailable);
      }
      r := Success(existing.value);
    }

    method RegisterScope(req: ScopeRequest) returns (r: Result<Scope, Error>, ghost c: Call)
      requires Valid()
      modifies this, dm, clock
      ensures Valid() && calls == old(calls) + [c]
      ensures c.op.RegisterScope? && c.op.scope == req && Sec(old(clock.now)) <= c.op.now <= Sec(clock.now)
      ensures ScopeRegistered(old(dm.s), req, c.op.now, c.done, r, dm.faults != old(dm.faults))
      ensures r == Failure(ScopeReserved) <==> ScopeRegistry.NotTheirs(req)
      ensures r == Failure(InvalidScope) <==> !exists prefix, action :: Spells(req.name, prefix, action)
    {
      ghost var now, k;
      r, now, k := RegisterScopeSteps(req);
      c := Call(Op.RegisterScope(req, now), k);
      Conclude(c, old(dm.s), RegisterScopePlan(old(dm.s), req, now), old(clock.now));
      RefusedInWords(old(dm.s), req, now, k, r, dm.faults != old(dm.faults));
    }

    method RegisterScopeSteps(req: ScopeRequest) returns (r: Result<Scope, Error>, ghost now: int, ghost k: nat)
      requires dm.s.agency == agency
      modifies dm, clock
      ensures old(clock.now) <= clock.now && Sec(old(clock.now)) <= now <= Sec(clock.now)
      ensures Wrote(old(dm.s), RegisterScopePlan(old(dm.s), req, now), k, dm.s)
      ensures ScopeRegistered(old(dm.s), req, now, k, r, dm.faults != old(dm.faults))
      ensures !MatchScope(req.name) || Reserved(req) ==> dm.faults == old(dm.faults)
    {
      now, k := Sec(clock.now), 0;
      NoneWritten(dm.s, RegisterScopePlan(dm.s, req, now));
      var existing := FindScope(req);
      if existing.Failure? {
        return Failure(existing.error), now, k;
      }
      var t := clock.Now();
      var stamp := Sec(t);
      now := stamp;
      r, k := UpsertScope(existing.value, req, stamp);
    }

    /** Creates the scope, or refreshes it for its owner. */
    method UpsertScope(existing: seq<Record>, req: ScopeRequest, now: int)
      returns (r: Result<Scope, Error>, ghost k: nat)
      requires dm.s.agency == agency && MatchScope(req.name) && !Reserved(req)
      requires existing == Records(dm.s, List(dm.s.ents, TScope, Where(Name, Text(req.name))))
      modifies dm
      ensures Wrote(old(dm.s), RegisterScopePlan(old(dm.s), req, now), k, dm.s)
      ensures ScopeRegistered(old(dm.s), req, now, k, r, dm.faults != old(dm.faults))
    {
      ghost var s := dm.s;
      k := 0;
      NoneWritten(s, RegisterScopePlan(s, req, now));
      if |existing| > 0 {
        var scope := ToScope(existing[0]);
        if scope.registeredBy != req.registeredBy {
          return Failure(ScopeNameCollision), k;
        }
        var refreshed := dm.UpdateEntity(scope.id, ScopePatch(req, now));
        k := if refreshed.Success? then 1 else 0;
        OneWritten(s, Update(scope.id, ScopePatch(req, now)), refreshed.Success?, dm.s);
        if refreshed.Failure? {
          return Failure(TemporarilyUnavailable), k;
        }
        RefreshedScope(existing[0], req, now);
        return Success(ToScope(refreshed.value)), k;
      }
      var created := dm.CreateEntity(TScope, ScopeProps(agency, req, now));
      k := if created.Success? then 1 else 0;
      OneWritten(s, Create(TScope, ScopeProps(agency, req, now)), created.Success?, dm.s);
      if created.Failure? {
        return Failure(TemporarilyUnavailable), k;
      }
      NewScope(created.value.id, agency, req, now);
      r := Success(ToScope(created.value));
    }

    /** The type of the identified entity is not checked; the call enters the history if it is a scope. */
    method DeprecateScope(id: Id) returns (r: Result<Scope, Error>, ghost c: Call)
      requires Valid()
      modifies this, dm, clock
      ensures c.op.DeprecateScope? && c.op.id == id && Sec(old(clock.now)) <= c.op.now <= Sec(clock.now)
      ensures Wrote(old(dm.s), DeprecateScopePlan(old(dm.s), id, c.op.now), c.done, dm.s)
      ensures ScopeDeprecated(old(dm.s), id, c.op.now, c.done, r, dm.faults != old(dm.faults))
      ensures NamesAtMost(old(dm.s), id, TScope) ==> Valid() && calls == old(calls) + [c]
    {
      ghost var now, k;
      r, now, k := DeprecateScopeSteps(id);
      c := Call(Op.DeprecateScope(id, now), k);
      if NamesAtMost(old(dm.s), id, TScope) {
        Conclude(c, old(dm.s), DeprecateScopePlan(old(dm.s), id, now), old(clock.now));
      }
    }

    method DeprecateScopeSteps(id: Id) returns (r: Result<Scope, Error>, ghost now: int, ghost k: nat)
      modifies dm, clock
      ensures old(clock.now) <= clock.now && Sec(old(clock.now)) <= now <= Sec(clock.now)
      ensures Wrote(old(dm.s), DeprecateScopePlan(old(dm.s), id, now), k, dm.s)
      ensures ScopeDeprecated(old(dm.s), id, now, k, r, dm.faults != old(dm.faults))
    {
      ghost var s := dm.s;
      now, k := Sec(clock.now), 0;
      NoneWritten(s, DeprecateScopePlan(s, id, now));
      var existing := dm.GetEntity(id);
      if existing.Failure? {
        return Failure(ScopeNotFound), now, k;
      }
      var t := clock.Now();
      var stamp := Sec(t);
      now := stamp;
      var e := dm.UpdateEntity(id, DeprecationPatch(stamp));
      k := if e.Success? then 1 else 0;
      OneWritten(s, Update(id, DeprecationPatch(stamp)), e.Success?, dm.s);
      if e.Failure? {
        return Failure(TemporarilyUnavailable), now, k;
      }
      DeprecatedScope(RecordAt(s, id), stamp);
      r := Success(ToScope(e.value));
    }

    // -------------------------------------------------------------- memberships

    method GrantMembership(req: GrantRequest) returns (r: Result<Membership, Error>, ghost c: Call)
      requires Valid()
      modifies this, dm, clock
      ensures Valid() && calls == old(calls) + [c]
      ensures c.op.GrantMembership? && c.op.grant == req && Sec(old(clock.now)) <= c.op.now <= Sec(clock.now)
      ensures r.Success? ==> r.value == Membership(|old(dm.s).ents|, agency, c.op.now, req.grantedBy, None, "")
      ensures AnsweredExactly(GrantMembershipPlan(old(dm.s), req, c.op.now), c.done, r,
                              dm.faults != old(dm.faults), TemporarilyUnavailable)
    {
      ghost var s := dm.s;
      var t := clock.Now();
      var now := Sec(t);
      ghost var plan := GrantMembershipPlan(s, req, now);
      var ok, memE;
      ghost var k;
      ok, memE, k := MakeMembership(req, now, s, plan.ws);
      c := Call(Op.GrantMembership(req, now), k);
      Conclude(c, s, plan, old(clock.now));
      if !ok {
        return Failure(TemporarilyUnavailable), c;
      }
      NewMembership(memE.id, agency, req, now);
      r := Success(ToMembership(memE));
    }

    /** The membership, then the edge from the user, then the edge to the role. */
    method MakeMembership(req: GrantRequest, now: int, ghost s: Store, ghost ws: seq<Write>)
      returns (ok: bool, memE: Record, ghost k: nat)
      requires dm.s == s && s.agency == agency && GrantMembershipPlan(s, req, now) == Writes(ws)
      modifies dm
      ensures k <= 3 && |ws| == 3 && dm.s == ApplyAll(s, ws[..k]) && (ok <==> k == 3) &&
              (ok <==> dm.faults == old(dm.faults))
      ensures ok ==> memE == Record(|s.ents|, Entity(TMembership, MembershipProps(agency, req, now), false))
    {
      memE := Record(0, Entity(TMembership, map[], false));
      assert ws == [Create(TMembership, MembershipProps(agency, req, now)),
                    Link(Edge(HasMembership, req.user, |s.ents|)), Link(Edge(GrantsRole, |s.ents|, req.role))];
      assert ws[..0] == [] && ws[0..] == [ws[0]] + ([ws[1]] + [ws[2]]);
      var created := dm.CreateEntity(TMembership, MembershipProps(agency, req, now));
      if created.Failure? {
        return false, memE, 0;
      }
      memE := created.value;
      Advance(s, ws, 0, ws[0], [ws[1]] + [ws[2]]);
      var owned := dm.CreateRelationship(Edge(HasMembership, req.user, memE.id));
      if owned.Failure? {
        return false, memE, 1;
      }
      Advance(s, ws, 1, ws[1], [ws[2]]);
      var granted := dm.CreateRelationship(Edge(GrantsRole, memE.id, req.role));
      if granted.Failure? {
        return false, memE, 2;
      }
      Advance(s, ws, 2, ws[2], []);
      return true, memE, 3;
    }

    /** The type of the identified entity is not checked; the call enters the history if it is a membership. */
    method RevokeMembership(id: Id) returns (r: Result<Membership, Error>, ghost c: Call)
      requires Valid()
      modifies this, dm, clock
      ensures c.op.RevokeMembership? && c.op.id == id && Sec(old(clock.now)) <= c.op.now <= Sec(clock.now)
      ensures Wrote(old(dm.s), RevokeMembershipPlan(old(dm.s), id, c.op.now), c.done, dm.s)
      ensures MembershipRevoked(old(dm.s), id, c.op.now, c.done, r, dm.faults != old(dm.faults))
      ensures NamesAtMost(old(dm.s), id, TMembership) ==> Valid() && calls == old(calls) + [c]
    {
      ghost var now, k;
      r, now, k := RevokeMembershipSteps(id);
      c := Call(Op.RevokeMembership(id, now), k);
      if NamesAtMost(old(dm.s), id, TMembership) {
        Conclude(c, old(dm.s), RevokeMembershipPlan(old(dm.s), id, now), old(clock.now));
      }
    }

    method RevokeMembershipSteps(id: Id) returns (r: Result<Membership, Error>, ghost now: int, ghost k: nat)
      modifies dm, clock
      ensures old(clock.now) <= clock.now && Sec(old(clock.now)) <= now <= Sec(clock.now)
      ensures Wrote(old(dm.s), RevokeMembershipPlan(old(dm.s), id, now), k, dm.s)
      ensures MembershipRevoked(old(dm.s), id, now, k, r, dm.faults != old(dm.faults))
    {
      ghost var s := dm.s;
      now, k := Sec(clock.now), 0;
      NoneWritten(s, RevokeMembershipPlan(s, id, now));
      var existing := dm.GetEntity(id);
      if existing.Failure? {
        return Failure(MembershipNotFound), now, k;
      }
      var t := clock.Now();
      var stamp := Sec(t);
      now := stamp;
      var e := dm.UpdateEntity(id, map[RevokedAt := At(stamp)]);
      k := if e.Success? then 1 else 0;
      OneWritten(s, Update(id, map[RevokedAt := At(stamp)]), e.Success?, dm.s);
      if e.Failure? {
        return Failure(TemporarilyUnavailable), now, k;
      }
      RevokedMembership(RecordAt(s, id), stamp);
      r := Success(ToMembership(e.value));
    }

    /** All memberships, or those of one user, filtered in place and converted. */
    method ListMemberships(user: Option<Id>) returns (r: Result<seq<Membership>, Error>)
      modifies dm`faults
      ensures if dm.faults != old(dm.faults) then r == Failure(TemporarilyUnavailable)
        else r.Success? && Memberships.Converted(Memberships.MembershipsOf(dm.s, user), r.value)
    {
      var listed := dm.ListEntities(TMembership, Any);
      if listed.Failure? {
        return Failure(TemporarilyUnavailable);
      }
      var entities := new Record[|listed.value|](i requires 0 <= i < |listed.value| => listed.value[i]);
      assert entities[..] == listed.value;
      var n := entities.Length;
      if user.Some? {
        var rels := dm.ListRelationships(HasMembership, user, None);
        if rels.Failure? {
          return Failure(TemporarilyUnavailable);
        }
        var ids := Memberships.MembershipIds(rels.value);
        n := Memberships.FilterInPlace(entities, ids);
      }
      ghost var ms := Memberships.MembershipsOf(dm.s, user);
      assert entities[..n] == ms;
      var memberships := Memberships.ConvertAll(entities[..n]);
      r := Success(memberships);
    }

    // -------------------------------------------------------------- OAuth clients

    /** The store holds a secret of the client that verifies the plaintext and tells the salt and the configured
        costs, and so does the store of every continuation of the run. */
    ghost predicate HonouredFromNow(clientId: string, plaintext: string, salt: Bytes)
      reads this, dm
    {
      Secrets.Honoured(dm.s, clientId, plaintext, argon, salt, cfg.time, cfg.memory, cfg.threads) &&
      Secrets.HonouredForLife(agency, calls, clientId, plaintext, argon, salt, cfg.time, cfg.memory, cfg.threads)
    }

    /** The plaintext made from a UUID, and the PHC string that is stored. */
    function MakeSecret(uuid: string, salt: Bytes): NewSecret {
      var plaintext := "cv_cs_" + uuid;
      NewSecret(plaintext, HashArgon2id(argon, plaintext, salt, cfg.time, cfg.memory, cfg.threads))
    }

    method CreateClientSecret(client: Id, now: int, secret: NewSecret, saltFails: bool,
                              ghost s: Store, ghost ws: seq<Write>, ghost k0: nat) returns (ok: bool, ghost k: nat)
      requires k0 <= |ws| && dm.s == ApplyAll(s, ws[..k0])
      requires ws[k0..] == SecretWrites(agency, client, |dm.s.ents|, secret, now)
      modifies dm
      ensures k0 <= k <= |ws| && dm.s == ApplyAll(s, ws[..k]) && (ok <==> k == |ws|)
      ensures ok <==> dm.faults == old(dm.faults) && !saltFails
    {
      ghost var rest := ws[k0..];
      if saltFails {
        return false, k0;
      }
      var secretE := dm.CreateEntity(TClientSecret,
        map[AgencyId := Text(agency), SecretHash := Text(secret.phc), CreatedAt := At(now)]);
      if secretE.Failure? {
        return false, k0;
      }
      Advance(s, ws, k0, rest[0], [rest[1]]);
      var linked := dm.CreateRelationship(Edge(HasClientSecret, client, secretE.value.id));
      if linked.Failure? {
        return false, k0 + 1;
      }
      Advance(s, ws, k0 + 1, rest[1], []);
      return true, k0 + 2;
    }

    /** The RedirectURI entities and their edges, URI by URI. */
    method CreateRedirectURIs(client: Id, uris: seq<string>, now: int, ghost tail: seq<Write>,
                              ghost s: Store, ghost ws: seq<Write>, ghost k0: nat) returns (ok: bool, ghost k: nat)
      requires k0 <= |ws| && dm.s == ApplyAll(s, ws[..k0])
      requires ws[k0..] == UriWrites(agency, client, |dm.s.ents|, uris, now) + tail
      modifies dm
      ensures k0 <= k <= |ws| && dm.s == ApplyAll(s, ws[..k])
      ensures ok <==> dm.faults == old(dm.faults)
      ensures if ok then ws[k..] == tail && |dm.s.ents| == |old(dm.s).ents| + |uris| else k < |ws|
    {
      k := k0;
      assert uris[0..] == uris;
      var i := 0;
      while i < |uris|
        invariant i <= |uris| && k0 <= k <= |ws| && dm.s == ApplyAll(s, ws[..k])
        invariant |dm.s.ents| == |old(dm.s).ents| + i && dm.faults == old(dm.faults)
        invariant ws[k..] == UriWrites(agency, client, |dm.s.ents|, uris[i..], now) + tail
      {
        ghost var next := |dm.s.ents|;
        UriWritesNext(agency, client, next, uris, i, now, tail);
        ghost var rest := UriWrites(agency, client, next + 1, uris[i + 1..], now) + tail;
        ok, k := CreateRedirectURI(client, uris[i], now, rest, s, ws, k);
        if !ok {
          return false, k;
        }
        i := i + 1;
      }
      assert UriWrites(agency, client, |dm.s.ents|, uris[i..], now) + tail == tail;
      ok := true;
    }

    /** One round of the loop. */
    method CreateRedirectURI(client: Id, uri: string, now: int, ghost rest: seq<Write>,
                             ghost s: Store, ghost ws: seq<Write>, ghost k0: nat) returns (ok: bool, ghost k: nat)
      requires k0 <= |ws| && dm.s == ApplyAll(s, ws[..k0])
      requires var pair := UriPair(agency, client, |dm.s.ents|, uri, now); ws[k0..] == [pair[0]] + ([pair[1]] + rest)
      modifies dm
      ensures k0 <= k <= |ws| && dm.s == ApplyAll(s, ws[..k])
      ensures ok <==> dm.faults == old(dm.faults)
      ensures if ok then ws[k..] == rest && |dm.s.ents| == |old(dm.s).ents| + 1 else k < |ws|
    {
      k := k0;
      ghost var pair := UriPair(agency, client, |dm.s.ents|, uri, now);
      var uriE := dm.CreateEntity(TRedirectURI, map[AgencyId := Text(agency), Uri := Text(uri), CreatedAt := At(now)]);
      Advance(s, ws, k, pair[0], [pair[1]] + rest);
      if uriE.Failure? {
        return false, k;
      }
      k := k0 + 1;
      var linked := dm.CreateRelationship(Edge(HasRedirectURI, client, uriE.value.id));
      Advance(s, ws, k, pair[1], rest);
      if linked.Failure? {
        return false, k;
      }
      return true, k0 + 2;
    }

    /** `clientId` and `secretId` are fresh UUIDs. */
    method CreateOAuthClient(req: ClientRequest, clientId: string, secretId: string, salt: Bytes, saltFails: bool)
      returns (r: Result<(OAuthClient, Option<string>), Error>, ghost c: Call)
      requires Valid() && List(dm.s.ents, TOAuthClient, Where(ClientId, Text(clientId))) == []
      modifies this, dm, clock
      ensures Valid() && calls == old(calls) + [c]
      ensures c.op.CreateOAuthClient? && c.op.client == req && c.op.clientId == clientId
      ensures c.op.secret == NewSecret("cv_cs_" + secretId,
        HashArgon2id(argon, "cv_cs_" + secretId, salt, cfg.time, cfg.memory, cfg.threads))
      ensures Sec(old(clock.now)) <= c.op.now <= Sec(clock.now)
      ensures AnsweredExactly(CreateOAuthClientPlan(old(dm.s), req, clientId, c.op.secret, c.op.now), c.done, r,
        dm.faults != old(dm.faults) || (saltFails && req.clientType == "confidential"), TemporarilyUnavailable)
      ensures r.Success? ==>
        r.value.0 == OAuthClient(|old(dm.s).ents|, agency, clientId, req.clientType, req.name, req.grantTypes,
                                 req.description, c.op.now, c.op.now, None, None) &&
        r.value.1 == if req.clientType == "confidential" then Some("cv_cs_" + secretId) else None
      ensures r.Success? && r.value.1.Some? && HonoursKeyLength(argon) ==>
        HonouredFromNow(clientId, r.value.1.value, salt)
    {
      ghost var s := dm.s;
      var secret := MakeSecret(secretId, salt);
      var t := clock.Now();
      var now := Sec(t);
      ghost var plan := CreateOAuthClientPlan(s, req, clientId, secret, now);
      var ok, e;
      ghost var k;
      ok, e, k := MakeClient(req, clientId, secret, saltFails, now, s, plan.ws);
      c := Call(Op.CreateOAuthClient(req, clientId, secret, now), k);
      Conclude(c, s, plan, old(clock.now));
      if !ok {
        return Failure(TemporarilyUnavailable), c;
      }
      var client := ToOAuthClient(e);
      NewClient(client.id, agency, req, clientId, now);
      if req.clientType == "confidential" && HonoursKeyLength(argon) {
        Secrets.HandedOutForLife(agency, old(calls), c, calls, argon, salt, cfg.time, cfg.memory, cfg.threads);
      }
      r := Success((client, if req.clientType == "confidential" then Some(secret.plaintext) else None));
    }

    /** The writes of CreateOAuthClient. */
    method MakeClient(req: ClientRequest, clientId: string, secret: NewSecret, saltFails: bool, now: int,
                      ghost s: Store, ghost ws: seq<Write>) returns (ok: bool, e: Record, ghost k: nat)
      requires dm.s == s && s.agency == agency && CreateOAuthClientPlan(s, req, clientId, secret, now) == Writes(ws)
      modifies dm
      ensures k <= |ws| && dm.s == ApplyAll(s, ws[..k]) && (ok <==> k == |ws|)
      ensures ok <==> dm.faults == old(dm.faults) && !(saltFails && req.clientType == "confidential")
      ensures ok ==> e == Record(|s.ents|, Entity(TOAuthClient, ClientProps(agency, req, clientId, now), false))
    {
      e := Record(0, Entity(TOAuthClient, map[], false));
      ghost var rest := UriWrites(agency, |s.ents|, |s.ents| + 1, req.redirectURIs, now) +
        (LinksTo(AllowsScope, |s.ents|, req.scopeIds) + ClientTail(agency, |s.ents|, req, secret, now));
      Secrets.ClientPlanIs(s, req, clientId, secret, now);
      assert ws[..0] == [] && ws[0..] == ws;
      var created := dm.CreateEntity(TOAuthClient, ClientProps(agency, req, clientId, now));
      if created.Failure? {
        return false, e, 0;
      }
      e := created.value;
      Advance(s, ws, 0, Create(TOAuthClient, ClientProps(agency, req, clientId, now)), rest);
      ok, k := FinishClient(e.id, req, secret, saltFails, now, s, ws, 1);
    }

    /** What follows the client entity: redirect URIs, scope edges, and for a confidential client a secret. */
    method FinishClient(client: Id, req: ClientRequest, secret: NewSecret, saltFails: bool, now: int,
                        ghost s: Store, ghost ws: seq<Write>, ghost k0: nat) returns (ok: bool, ghost k: nat)
      requires k0 <= |ws| && dm.s == ApplyAll(s, ws[..k0]) && |dm.s.ents| == client + 1
      requires ws[k0..] == UriWrites(agency, client, client + 1, req.redirectURIs, now) +
                           (LinksTo(AllowsScope, client, req.scopeIds) + ClientTail(agency, client, req, secret, now))
      modifies dm
      ensures k <= |ws| && dm.s == ApplyAll(s, ws[..k]) && (ok <==> k == |ws|)
      ensures ok <==> dm.faults == old(dm.faults) && !(saltFails && req.clientType == "confidential")
    {
      ghost var tail := ClientTail(agency, client, req, secret, now);
      ghost var links := LinksTo(AllowsScope, client, req.scopeIds);
      ok, k := CreateRedirectURIs(client, req.redirectURIs, now, links + tail, s, ws, k0);
      if !ok {
        return false, k;
      }
      ok, k := LinkAll(AllowsScope, client, req.scopeIds, tail, s, ws, k);
      if !ok {
        return false, k;
      }
      if req.clientType == "confidential" {
        TailIsSecret(agency, client, req, secret, now);
        ok, k := CreateClientSecret(client, now, secret, saltFails, s, ws, k);
      }
    }

    method RotateClientSecret(clientId: string, secretId: string, salt: Bytes, saltFails: bool)
      returns (r: Result<string, Error>, ghost c: Call)
      requires Valid()
      modifies this, dm, clock
      ensures Valid() && calls == old(calls) + [c]
      ensures c.op.RotateClientSecret? && c.op.clientId == clientId
      ensures c.op.secret == NewSecret("cv_cs_" + secretId,
        HashArgon2id(argon, "cv_cs_" + secretId, salt, cfg.time, cfg.memory, cfg.threads))
      ensures r.Success? ==> r.value == "cv_cs_" + secretId
      ensures r.Success? && HonoursKeyLength(argon) ==> HonouredFromNow(clientId, r.value, salt)
      ensures Sec(old(clock.now)) <= c.op.now <= Sec(clock.now)
      ensures SecretRotated(old(dm.s), clientId, c.op.secret, c.op.now, c.done, r,
                            dm.faults != old(dm.faults), saltFails)
    {
      ghost var now, k;
      var secret := MakeSecret(secretId, salt);
      r, now, k := RotateClientSecretSteps(clientId, secret, saltFails);
      c := Call(Op.RotateClientSecret(clientId, secret, now), k);
      Conclude(c, old(dm.s), RotateClientSecretPlan(old(dm.s), clientId, secret, now), old(clock.now));
      if r.Success? && HonoursKeyLength(argon) {
        Secrets.HandedOutForLife(agency, old(calls), c, calls, argon, salt, cfg.time, cfg.memory, cfg.threads);
      }
    }

    /** A failed lookup of the client is reported like an unknown client. */
    method RotateClientSecretSteps(clientId: string, secret: NewSecret, saltFails: bool)
      returns (r: Result<string, Error>, ghost now: int, ghost k: nat)
      requires dm.s.agency == agency
      modifies dm, clock
      ensures old(clock.now) <= clock.now && Sec(old(clock.now)) <= now <= Sec(clock.now)
      ensures Wrote(old(dm.s), RotateClientSecretPlan(old(dm.s), clientId, secret, now), k, dm.s)
      ensures SecretRotated(old(dm.s), clientId, secret, now, k, r, dm.faults != old(dm.faults), saltFails)
    {
      ghost var s := dm.s;
      now, k := Sec(clock.now), 0;
      NoneWritten(s, RotateClientSecretPlan(s, clientId, secret, now));
      var clients := dm.ListEntities(TOAuthClient, Where(ClientId, Text(clientId)));
      if clients.Failure? || |clients.value| == 0 {
        return Failure(OAuthClientNotFound), now, k;
      }
      var t := clock.Now();
      var stamp := Sec(t);
      now := stamp;
      ghost var ws := RotateClientSecretPlan(s, clientId, secret, stamp).ws;
      assert ws[..0] == [] && ws[0..] == ws;
      var ok;
      ok, k := CreateClientSecret(clients.value[0].id, stamp, secret, saltFails, s, ws, 0);
      if !ok {
        return Failure(TemporarilyUnavailable), now, k;
      }
      r := Success(secret.plaintext);
    }

    method DeleteOAuthClient(clientId: string) returns (r: Result<(), Error>, ghost c: Call)
      requires Valid()
      modifies this, dm
      ensures Valid() && calls == old(calls) + [c] && c.op == Op.DeleteOAuthClient(clientId)
      ensures AnsweredExactly(DeleteOAuthClientPlan(old(dm.s), clientId), c.done, r, dm.faults != old(dm.faults),
                              OAuthClientNotFound)
      ensures dm.faults == old(dm.faults) ==>
        (r.Success? <==> List(old(dm.s).ents, TOAuthClient, Where(ClientId, Text(clientId))) != [])
      ensures r.Success? ==> Removed(old(dm.s), dm.s, TOAuthClient, Where(ClientId, Text(clientId)))
    {
      ghost var k;
      ListedOnceInRun(agency, calls, dm.s, clientId);
      r, k := DeleteOAuthClientSteps(clientId);
      c := Call(Op.DeleteOAuthClient(clientId), k);
      Conclude(c, old(dm.s), DeleteOAuthClientPlan(old(dm.s), clientId), old(clock.now));
    }

    method DeleteOAuthClientSteps(clientId: string) returns (r: Result<(), Error>, ghost k: nat)
      requires AtMostOne(dm.s, TOAuthClient, Where(ClientId, Text(clientId)))
      modifies dm
      ensures dm.faults == old(dm.faults) ==>
        (r.Success? <==> List(old(dm.s).ents, TOAuthClient, Where(ClientId, Text(clientId))) != [])
      ensures r.Success? ==> Removed(old(dm.s), dm.s, TOAuthClient, Where(ClientId, Text(clientId)))
      ensures Wrote(old(dm.s), DeleteOAuthClientPlan(old(dm.s), clientId), k, dm.s)
      ensures AnsweredExactly(DeleteOAuthClientPlan(old(dm.s), clientId), k, r, dm.faults != old(dm.faults),
                              OAuthClientNotFound)
    {
      ghost var s := dm.s;
      k := 0;
      NoneWritten(s, DeleteOAuthClientPlan(s, clientId));
      var clients := dm.ListEntities(TOAuthClient, Where(ClientId, Text(clientId)));
      if clients.Failure? || |clients.value| == 0 {
        return Failure(OAuthClientNotFound), k;
      }
      var e := dm.DeleteEntity(clients.value[0].id);
      k := if e.Success? then 1 else 0;
      OneWritten(s, Delete(clients.value[0].id), e.Success?, dm.s);
      if e.Failure? {
        return Failure(TemporarilyUnavailable), k;
      }
      DeletionRemoves(s, TOAuthClient, Where(ClientId, Text(clientId)));
      r := Success(());
    }

    // -------------------------------------------------------------- tokens

    /** For a hash whose revocation, if any, held, the answer is the rule's: minted, not past its expiry, never
        revoked. Any failing lookup makes the token inactive. */
    method Introspect(token: string) returns (r: Introspection, ghost nanos: int)
      requires Valid()
      modifies dm`faults, clock
      ensures Valid() && old(clock.now) <= nanos <= clock.now
      ensures r == TokenRecords.Introspect(dm.s, HashSHA256(sha, token), dm.faults != old(dm.faults), false, nanos)
      ensures RevokedForGood(agency, calls, HashSHA256(sha, token)) ==>
        r == if dm.faults != old(dm.faults) then Inactive else Rule(LedgerOf(calls), HashSHA256(sha, token), nanos)
    {
      var tokenHash := HashSHA256(sha, token);
      r, nanos := IntrospectSteps(tokenHash);
      assert PurgedBy(calls, nanos) && PurgedBy(calls, clock.now);
      if RevokedForGood(agency, calls, tokenHash) {
        IntrospectRefinesRule(agency, calls, tokenHash, dm.faults != old(dm.faults), false, nanos);
      }
    }

    /** In every state of the object: from now on, whatever is purged, Introspect follows the rule for a hash if and
        only if it was never revoked or a revocation of it held, or it was never minted, or the clock is past its
        expiry. */
    lemma RuleFromNow(hash: string)
      requires Valid()
      ensures Purging.FollowsRule(agency, calls, hash, clock.now) <==>
              RevokedForGood(agency, calls, hash) || !Purging.Current(LedgerOf(calls), hash, clock.now)
    {
      Purging.FollowsRuleExactly(agency, calls, hash, clock.now);
    }

    method IntrospectSteps(tokenHash: string) returns (r: Introspection, ghost nanos: int)
      modifies dm`faults, clock
      ensures old(clock.now) <= nanos <= clock.now
      ensures r == TokenRecords.Introspect(dm.s, tokenHash, dm.faults != old(dm.faults), false, nanos)
    {
      nanos := clock.now;
      var revocations := dm.ListEntities(TTokenRevocation, Where(TokenHash, Text(tokenHash)));
      if revocations.Failure? {
        return Inactive, nanos;
      }
      if |revocations.value| > 0 {
        return Inactive, nanos;
      }
      var tokens := dm.ListEntities(TAccessToken, Where(TokenHash, Text(tokenHash)));
      if tokens.Failure? || |tokens.value| == 0 {
        return Inactive, nanos;
      }
      var p := tokens.value[0].entity.props;
      var expiresAt := PropTime(p, ExpiresAt);
      if expiresAt != ZERO_TIME {
        var now := clock.Now();
        nanos := now;
        if After(now, expiresAt) {
          return Inactive, nanos;
        }
      }
      r := ActiveToken(expiresAt, PropTime(p, CreatedAt));
    }

    /** The search of Revoke: a lookup that fails is passed over, the first hit ends the loop. */
    method FindExpiry(tokenHash: string)
      returns (expiresAt: Value, ghost found: bool, ghost sawAccess: bool, ghost sawRefresh: bool)
      modifies dm`faults
      ensures SearchExpiry(dm.s, tokenHash, sawAccess, sawRefresh) == if found then Some(expiresAt) else None
      ensures !found ==> expiresAt == Text("")
      ensures dm.faults >= old(dm.faults) && (dm.faults == old(dm.faults) ==> sawAccess && sawRefresh)
    {
      expiresAt := Text("");
      found, sawAccess, sawRefresh := false, true, true;
      var types := [TAccessToken, TRefreshToken];
      var i := 0;
      while i < |types|
        invariant i <= |types| && !found && expiresAt == Text("")
        invariant i > 0 && sawAccess ==> ExpiryFrom(dm.s, TAccessToken, tokenHash).None?
        invariant i > 1 && sawRefresh ==> ExpiryFrom(dm.s, TRefreshToken, tokenHash).None?
        invariant i == 0 ==> sawAccess
        invariant i <= 1 ==> sawRefresh
        invariant dm.faults >= old(dm.faults)
        invariant dm.faults == old(dm.faults) ==> sawAccess && sawRefresh
      {
        assert types[i] == if i == 0 then TAccessToken else TRefreshToken;
        var tokens := dm.ListEntities(types[i], Where(TokenHash, Text(tokenHash)));
        if tokens.Success? {
          LookupExpiry(dm.s, types[i], tokenHash, tokens.value);
        }
        if tokens.Success? && |tokens.value| > 0 {
          expiresAt := StoredExpiry(tokens.value[0].entity.props);
          found := true;
          break;
        }
        if tokens.Failure? {
          sawAccess, sawRefresh := sawAccess && i != 0, sawRefresh && i != 1;
        }
        i := i + 1;
      }
    }

    /** Only a failure to record the revocation is reported; a recorded one holds if the first lookup of its
        search did not fail. */
    method Revoke(token: string, reason: string) returns (r: Result<(), Error>, ghost c: Call)
      requires Valid()
      modifies this, dm, clock
      ensures Valid() && calls == old(calls) + [c]
      ensures c.op.Revoke? && c.op.hash == HashSHA256(sha, token) && c.op.reason == reason
      ensures Sec(old(clock.now)) <= c.op.now <= Sec(clock.now)
      ensures dm.faults == old(dm.faults) ==> r.Success? && c.op.sawAccess && c.op.sawRefresh
      ensures r == if c.done == 1 then Success(()) else Failure(TemporarilyUnavailable)
      ensures r.Success? && c.op.sawAccess ==> HeldRevoke(agency, calls, c.op.hash)
    {
      ghost var now, sawAccess, sawRefresh, k;
      var tokenHash := HashSHA256(sha, token);
      r, now, sawAccess, sawRefresh, k := RevokeSteps(tokenHash, reason);
      ghost var props := RevocationProps(agency, tokenHash, SearchExpiry(old(dm.s), tokenHash, sawAccess, sawRefresh),
                                         reason, now);
      RevokePlanIs(old(dm.s), tokenHash, sawAccess, sawRefresh, reason, now, props);
      c := Call(Op.Revoke(tokenHash, sawAccess, sawRefresh, reason, now), k);
      Conclude(c, old(dm.s), Writes([Create(TTokenRevocation, props)]), old(clock.now));
      if k == 1 && sawAccess {
        SeenRevokeHolds(old(dm.s), c.op);
        JustHeld(agency, old(calls), c, tokenHash);
      }
    }

    method RevokeSteps(tokenHash: string, reason: string)
      returns (r: Result<(), Error>, ghost now: int, ghost sawAccess: bool, ghost sawRefresh: bool, ghost k: nat)
      requires dm.s.agency == agency
      modifies dm, clock
      ensures old(clock.now) <= clock.now && Sec(old(clock.now)) <= now <= Sec(clock.now)
      ensures var props := RevocationProps(agency, tokenHash, SearchExpiry(old(dm.s), tokenHash, sawAccess, sawRefresh),
                                           reason, now);
        Wrote(old(dm.s), Writes([Create(TTokenRevocation, props)]), k, dm.s)
      ensures dm.faults == old(dm.faults) ==> r.Success? && sawAccess && sawRefresh
      ensures k <= 1 && r == if k == 1 then Success(()) else Failure(TemporarilyUnavailable)
    {
      ghost var s := dm.s;
      var t := clock.Now();
      var stamp := Sec(t);
      now := stamp;
      var expiresAt;
      ghost var found;
      expiresAt, found, sawAccess, sawRefresh := FindExpiry(tokenHash);
      if expiresAt == Text("") {
        expiresAt := At(stamp);
      }
      var why := if reason == "" then "user_logout" else reason;
      var props: Props := map[AgencyId := Text(agency), TokenHash := Text(tokenHash), RevokedAt := At(stamp),
                              ExpiresAt := expiresAt, Reason := Text(why)];
      RevocationBuilt(agency, tokenHash, SearchExpiry(s, tokenHash, sawAccess, sawRefresh), expiresAt, reason, stamp);
      var e := dm.CreateEntity(TTokenRevocation, props);
      k := if e.Success? then 1 else 0;
      OneWritten(s, Create(TTokenRevocation, props), e.Success?, dm.s);
      if e.Failure? {
        return Failure(TemporarilyUnavailable), now, sawAccess, sawRefresh, k;
      }
      r := Success(());
    }

    // -------------------------------------------------------------- the environment

    /** Some other service mints a token with a fresh hash. */
    method MintToken(refresh: bool, hash: string, expires: int) returns (ok: bool, ghost c: Call)
      requires Valid() && FreshToken(dm.s, hash) && expires != ZERO_TIME
      modifies this, dm, clock
      ensures Valid() && calls == old(calls) + [c]
      ensures c.op.Mint? && c.op.refresh == refresh && c.op.hash == hash && c.op.expires == expires &&
              (ok <==> c.done == 1)
    {
      ghost var s := dm.s;
      var t := clock.Now();
      var w := Create(if refresh then TRefreshToken else TAccessToken, TokenProps(agency, hash, expires, Sec(t)));
      var e := dm.CreateEntity(w.typ, w.props);
      ok := e.Success?;
      c := Call(Mint(refresh, hash, expires, Sec(t)), if ok then 1 else 0);
      OneWritten(s, w, ok, dm.s);
      Conclude(c, s, Writes([w]), old(clock.now));
    }

    /** The storage layer's expiry index drops a record that is past its expiry. */
    method PurgeExpired(id: Id) returns (ok: bool, ghost c: Call)
      requires Valid() && Purgeable(dm.s, id, clock.now)
      modifies this, dm
      ensures Valid() && calls == old(calls) + [c] && c.op == Purge(id, clock.now) && (ok <==> c.done == 1)
    {
      ghost var s := dm.s;
      var e := dm.DeleteEntity(id);
      ok := e.Success?;
      c := Call(Purge(id, clock.now), if ok then 1 else 0);
      OneWritten(s, Delete(id), ok, dm.s);
      Conclude(c, s, Writes([Delete(id)]), clock.now);
    }
  }
}
