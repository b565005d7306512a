/** helpers.go against the operations: what the converters read back from what the manager has written. */
module ReadBack {
  import opened Wrappers
  import opened EntityGraph
  import opened Helpers
  import opened Operations

  function New(id: Id, t: TypeName, p: Props): Record {
    Record(id, Entity(t, p, false))
  }

  function Merged(e: Entity, patch: Props): Entity {
    e.(props := e.props + patch)
  }

  function Patched(r: Record, patch: Props): Record {
    Record(r.id, Merged(r.entity, patch))
  }

  function OrElse(given: string, otherwise: string): string {
    if given != "" then given else otherwise
  }

  lemma NewOrganization(id: Id, agency: string, req: OrgRequest, now: int)
    ensures ToOrganization(New(id, TOrganization, OrgProps(agency, req, now))) ==
            Organization(id, agency, req.name, true, req.description, req.contactEmail, req.logoURL, now,
                         now, None, None)
  {
  }

  lemma PatchedTwice(r: Record, a: Props, b: Props)
    ensures Patched(r, a + b) == Patched(Patched(r, a), b)
  {
    assert r.entity.props + (a + b) == r.entity.props + a + b;
  }

  lemma OneTextPatched(r: Record, given: bool, key: Prop, text: string)
    requires key in {Name, Description, ContactEmail, LogoURL}
    ensures var org, after := ToOrganization(r), ToOrganization(Patched(r, OnlyIf(given, map[key := Text(text)])));
      after == if !given then org else match key
        case Name => org.(name := text)
        case Description => org.(description := text)
        case ContactEmail => org.(contactEmail := text)
        case _ => org.(logoURL := text)
  {
    if given {
      TextPatched(r, key, text);
    } else {
      assert r.entity.props + map[] == r.entity.props;
    }
  }

  lemma TextPatched(r: Record, key: Prop, text: string)
    requires key in {Name, Description, ContactEmail, LogoURL}
    ensures var org, after := ToOrganization(r), ToOrganization(Patched(r, map[key := Text(text)]));
      after == match key
        case Name => org.(name := text)
        case Description => org.(description := text)
        case ContactEmail => org.(contactEmail := text)
        case _ => org.(logoURL := text)
  {
  }

  function Given(key: Prop, text: string): Props {
    OnlyIf(text != "", map[key := Text(text)])
  }

  lemma FieldByField(r: Record, req: OrgRequest, now: int)
    ensures Patched(r, OrgPatch(req, now)) ==
            Patched(Patched(Patched(Patched(Patched(r, map[UpdatedAt := At(now)]), Given(Name, req.name)),
              Given(Description, req.description)), Given(ContactEmail, req.contactEmail)), Given(LogoURL, req.logoURL))
  {
    var p0: Props := map[UpdatedAt := At(now)];
    var p1, p2 := Given(Name, req.name), Given(Description, req.description);
    var p3, p4 := Given(ContactEmail, req.contactEmail), Given(LogoURL, req.logoURL);
    PatchedTwice(r, p0 + p1 + p2 + p3, p4);
    PatchedTwice(r, p0 + p1 + p2, p3);
    PatchedTwice(r, p0 + p1, p2);
    PatchedTwice(r, p0, p1);
  }

  lemma TouchedOrganization(r: Record, now: int)
    ensures ToOrganization(Patched(r, map[UpdatedAt := At(now)])) == ToOrganization(r).(updatedAt := now)
  {
  }

  lemma PatchedOrganization(r: Record, req: OrgRequest, now: int)
    ensures var org := ToOrganization(r);
      ToOrganization(Patched(r, OrgPatch(req, now))) ==
        org.(name := OrElse(req.name, org.name), description := OrElse(req.description, org.description),
             contactEmail := OrElse(req.contactEmail, org.contactEmail), logoURL := OrElse(req.logoURL, org.logoURL),
             updatedAt := now)
  {
    FieldByField(r, req, now);
    var r0 := Patched(r, map[UpdatedAt := At(now)]);
    var r1 := Patched(r0, Given(Name, req.name));
    var r2 := Patched(r1, Given(Description, req.description));
    var r3 := Patched(r2, Given(ContactEmail, req.contactEmail));
    var r4 := Patched(r3, Given(LogoURL, req.logoURL));
    var o0, o1, o2, o3, o4 :=
      ToOrganization(r0), ToOrganization(r1), ToOrganization(r2), ToOrganization(r3), ToOrganization(r4);
    assert o0 == ToOrganization(r).(updatedAt := now) by { TouchedOrganization(r, now); }
    assert o1 == o0.(name := OrElse(req.name, o0.name)) by { OneTextPatched(r0, req.name != "", Name, req.name); }
    assert o2 == o1.(description := OrElse(req.description, o1.description)) by {
      OneTextPatched(r1, req.description != "", Description, req.description);
    }
    assert o3 == o2.(contactEmail := OrElse(req.contactEmail, o2.contactEmail)) by {
      OneTextPatched(r2, req.contactEmail != "", ContactEmail, req.contactEmail);
    }
    assert o4 == o3.(logoURL := OrElse(req.logoURL, o3.logoURL)) by {
      OneTextPatched(r3, req.logoURL != "", LogoURL, req.logoURL);
    }
  }

  lemma DisabledOrganization(r: Record, now: int)
    ensures ToOrganization(Patched(r, DisablePatch(now))) ==
            ToOrganization(r).(enabled := false, disabledAt := Some(now), updatedAt := now)
  {
  }

  lemma NewInvitation(id: Id, agency: string, hash: string, expires: int, now: int)
    ensures ToInvitation(New(id, TInvitation, InvitationProps(agency, hash, expires, now))) ==
            Invitation(id, agency, hash, Some(Pending), expires, now, None, None)
  {
  }

  lemma AcceptedInvitation(r: Record, now: int)
    ensures ToInvitation(Patched(r, AcceptPatch(now)))
            == ToInvitation(r).(status := Some(Accepted), acceptedAt := Some(now))
  {
  }

  /** The fields of a user, each read from the property of its own name. */
  predicate ReadsUser(u: User, id: Id, p: Props) {
    u.id == id && u.agencyId == PropStr(p, AgencyId) && u.email == PropStr(p, Email) &&
    u.displayName == PropStr(p, DisplayName) && u.status == PropWord(p, Status) &&
    u.createdAt == PropTime(p, CreatedAt) && u.updatedAt == PropTime(p, UpdatedAt) &&
    u.deletedAt == PropTimePtr(p, DeletedAt)
  }

  lemma NewUser(id: Id, agency: string, req: InviteRequest, now: int)
    ensures ToUser(New(id, TUser, UserProps(agency, req, now))) ==
            User(id, agency, req.email, Some(Invited), req.displayName, now, now, None)
  {
  }

  lemma ActivatedUser(r: Record, now: int)
    ensures ReadsUser(ToUser(Patched(r, ActivatePatch(now))), r.id,
                      r.entity.props + map[Status := Word(Active), UpdatedAt := At(now)])
  {
  }

  /** What suspending, reactivating and deleting store. */
  function StatusSet(p: Props, change: UserChange, now: int): Props {
    match change
    case Suspend => p + map[UpdatedAt := At(now), Status := Word(Suspended)]
    case Reactivate => p + map[UpdatedAt := At(now), Status := Word(Active)]
    case SoftDelete => p + map[UpdatedAt := At(now), Status := Word(Deleted), DeletedAt := At(now)]
  }

  lemma ChangedUser(r: Record, change: UserChange, now: int)
    ensures ReadsUser(ToUser(Patched(r, UserPatch(change, now))), r.id, StatusSet(r.entity.props, change, now))
  {
    assert r.entity.props + UserPatch(change, now) == StatusSet(r.entity.props, change, now);
  }

  lemma NewBuiltin(id: Id, agency: string, name: string, displayName: string, now: int)
    ensures ToRole(New(id, TRole, BuiltinProps(agency, BuiltinRole(name, displayName), now))) ==
            Role(id, agency, name, true, displayName, "", now, now, None)
  {
  }

  lemma NewRole(id: Id, agency: string, req: RoleRequest, now: int)
    ensures ToRole(New(id, TRole, RoleProps(agency, req, now))) ==
            Role(id, agency, req.name, false, req.displayName, req.description, now, now, None)
  {
  }

  lemma PatchedRole(r: Record, req: RoleRequest, now: int)
    ensures var role := ToRole(r);
      ToRole(Patched(r, RolePatch(req, now))) ==
        role.(displayName := OrElse(req.displayName, role.displayName),
              description := OrElse(req.description, role.description), updatedAt := now)
  {
  }

  lemma NewScope(id: Id, agency: string, req: ScopeRequest, now: int)
    ensures ToScope(New(id, TScope, ScopeProps(agency, req, now))) ==
            Scope(id, agency, req.name, req.registeredBy, req.description, now, now, None)
  {
  }

  /** The empty string stored over a deprecation time reads back as none. */
  lemma RefreshedScope(r: Record, req: ScopeRequest, now: int)
    ensures ToScope(Patched(r, ScopePatch(req, now))) ==
            ToScope(r).(description := req.description, updatedAt := now, deprecatedAt := None)
  {
  }

  lemma DeprecatedScope(r: Record, now: int)
    ensures ToScope(Patched(r, DeprecationPatch(now))) == ToScope(r).(deprecatedAt := Some(now), updatedAt := now)
  {
  }

  lemma NewMembership(id: Id, agency: string, req: GrantRequest, now: int)
    ensures ToMembership(New(id, TMembership, MembershipProps(agency, req, now))) ==
            Membership(id, agency, now, req.grantedBy, None, "")
  {
  }

  lemma RevokedMembership(r: Record, now: int)
    ensures ToMembership(Patched(r, map[RevokedAt := At(now)])) == ToMembership(r).(revokedAt := Some(now))
  {
  }

  lemma NewClient(id: Id, agency: string, req: ClientRequest, clientId: string, now: int)
    ensures ToOAuthClient(New(id, TOAuthClient, ClientProps(agency, req, clientId, now))) ==
            OAuthClient(id, agency, clientId, req.clientType, req.name, req.grantTypes, req.description, now,
                        now, None, None)
  {
  }

  // ---------------------------------------------------------------- what the manager never writes

  /** A field that is not stored reads as empty, or as the first instant of the year 1, 719162 days before 1970. */
  lemma NothingStored(id: Id)
    ensures ToInvitation(New(id, TInvitation, map[])) ==
            Invitation(id, "", "", None, -719_162 * 24 * 60 * 60, -719_162 * 24 * 60 * 60, None, None)
  {
  }

  /** Dates and names that only others store are read back from their own properties. */
  lemma DeletionDates(r: Record, t: int)
    ensures ToOrganization(Patched(r, map[DeletedAt := At(t)])) == ToOrganization(r).(deletedAt := Some(t))
    ensures ToRole(Patched(r, map[DeletedAt := At(t)])) == ToRole(r).(deletedAt := Some(t))
  {
  }

  lemma RevocationFields(r: Record, t: int, who: string)
    ensures ToMembership(Patched(r, map[RevokedBy := Text(who)])) == ToMembership(r).(revokedBy := who)
    ensures ToInvitation(Patched(r, map[RevokedAt := At(t)])) == ToInvitation(r).(revokedAt := Some(t))
  {
  }

  lemma ClientDates(r: Record, t: int, u: int)
    ensures ToOAuthClient(Patched(r, map[DisabledAt := At(t), DeletedAt := At(u)]))
            == ToOAuthClient(r).(disabledAt := Some(t), deletedAt := Some(u))
  {
  }
}
