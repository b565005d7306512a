/** helpers.go and models.go: reading typed fields back from a property map. */
module Helpers {
  import opened Wrappers
  import opened EntityGraph

  /** Unix second of Go's zero time. */
  const ZERO_TIME: int := -62_135_596_800

  /** Formatting a clock reading in nanoseconds keeps its whole second. */
  function Sec(nanos: int): int {
    nanos / 1_000_000_000
  }

  /** `t.After(u)` for a clock reading and a stored second. */
  predicate After(nanos: int, sec: int) {
    nanos > sec * 1_000_000_000
  }

  function PropStr(p: Props, key: Prop): string {
    if key in p && p[key].Text? then p[key].text else ""
  }

  function PropBool(p: Props, key: Prop): bool {
    key in p && p[key].Flag? && p[key].flag
  }

  function PropWord(p: Props, key: Prop): Option<StatusWord> {
    if key in p && p[key].Word? then Some(p[key].word) else None
  }

  /** The zero time when the property is absent, empty or no timestamp. */
  function PropTime(p: Props, key: Prop): int {
    if key in p && p[key].At? then p[key].sec else ZERO_TIME
  }

  function PropTimePtr(p: Props, key: Prop): Option<int> {
    if key in p && p[key].At? then Some(p[key].sec) else None
  }

  function PropTexts(p: Props, key: Prop): seq<string> {
    if key in p && p[key].Texts? then p[key].items else []
  }

  datatype Organization = Organization(id: Id, agencyId: string, name: string, enabled: bool, description: string,
    contactEmail: string, logoURL: string, createdAt: int, updatedAt: int, disabledAt: Option<int>,
    deletedAt: Option<int>)

  datatype User = User(id: Id, agencyId: string, email: string, status: Option<StatusWord>, displayName: string,
    createdAt: int, updatedAt: int, deletedAt: Option<int>)

  datatype Role = Role(id: Id, agencyId: string, name: string, builtin: bool, displayName: string, description: string,
    createdAt: int, updatedAt: int, deletedAt: Option<int>)

  datatype Scope = Scope(id: Id, agencyId: string, name: string, registeredBy: string, description: string,
    createdAt: int, updatedAt: int, deprecatedAt: Option<int>)

  datatype Membership = Membership(id: Id, agencyId: string, grantedAt: int, grantedBy: string,
    revokedAt: Option<int>, revokedBy: string)

  datatype Invitation = Invitation(id: Id, agencyId: string, tokenHash: string, status: Option<StatusWord>,
    expiresAt: int, createdAt: int, acceptedAt: Option<int>, revokedAt: Option<int>)

  datatype OAuthClient = OAuthClient(id: Id, agencyId: string, clientId: string, clientType: string, name: string,
    allowedGrantTypes: seq<string>, description: string, createdAt: int, updatedAt: int,
    disabledAt: Option<int>, deletedAt: Option<int>)

  function ToOrganization(r: Record): Organization {
    var p := r.entity.props;
    Organization(r.id, PropStr(p, AgencyId), PropStr(p, Name), PropBool(p, Enabled), PropStr(p, Description),
      PropStr(p, ContactEmail), PropStr(p, LogoURL), PropTime(p, CreatedAt), PropTime(p, UpdatedAt),
      PropTimePtr(p, DisabledAt), PropTimePtr(p, DeletedAt))
  }

  function ToUser(r: Record): User {
    var p := r.entity.props;
    User(r.id, PropStr(p, AgencyId), PropStr(p, Email), PropWord(p, Status), PropStr(p, DisplayName),
      PropTime(p, CreatedAt), PropTime(p, UpdatedAt), PropTimePtr(p, DeletedAt))
  }

  function ToRole(r: Record): Role {
    var p := r.entity.props;
    Role(r.id, PropStr(p, AgencyId), PropStr(p, Name), PropBool(p, Builtin), PropStr(p, DisplayName),
      PropStr(p, Description), PropTime(p, CreatedAt), PropTime(p, UpdatedAt), PropTimePtr(p, DeletedAt))
  }

  function ToScope(r: Record): Scope {
    var p := r.entity.props;
    Scope(r.id, PropStr(p, AgencyId), PropStr(p, Name), PropStr(p, RegisteredBy), PropStr(p, Description),
      PropTime(p, CreatedAt), PropTime(p, UpdatedAt), PropTimePtr(p, DeprecatedAt))
  }

  function ToMembership(r: Record): Membership {
    var p := r.entity.props;
    Membership(r.id, PropStr(p, AgencyId), PropTime(p, GrantedAt), PropStr(p, GrantedBy),
      PropTimePtr(p, RevokedAt), PropStr(p, RevokedBy))
  }

  function ToInvitation(r: Record): Invitation {
    var p := r.entity.props;
    Invitation(r.id, PropStr(p, AgencyId), PropStr(p, TokenHash), PropWord(p, Status), PropTime(p, ExpiresAt),
      PropTime(p, CreatedAt), PropTimePtr(p, AcceptedAt), PropTimePtr(p, RevokedAt))
  }

  function ToOAuthClient(r: Record): OAuthClient {
    var p := r.entity.props;
    OAuthClient(r.id, PropStr(p, AgencyId), PropStr(p, ClientId), PropStr(p, ClientType), PropStr(p, Name),
      PropTexts(p, AllowedGrantTypes), PropStr(p, Description), PropTime(p, CreatedAt), PropTime(p, UpdatedAt),
      PropTimePtr(p, DisabledAt), PropTimePtr(p, DeletedAt))
  }

  /** The injected time source: readings never go backwards. */
  class Clock {
    var now: int

    constructor (start: int)
      ensures now == start
    {
      now := start;
    }

    method Now() returns (t: int)
      modifies this
      ensures old(now) <= t == now
    {
      var passed: int := *;
      if passed > 0 {
        now := now + passed;
      }
      t := now;
    }
  }
}
