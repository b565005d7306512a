/** schema.go: the fixed schema, as the typing rules a store has to meet. */
module Schema {
  import opened EntityGraph

  datatype Kind = Str | Bool | OneOf(words: set<StatusWord>, texts: set<string>) | Array

  datatype PropDef = Req(kind: Kind) | Opt(kind: Kind)

  datatype TypeDef = TypeDef(immutable: bool, props: map<Prop, PropDef>, edges: map<EdgeName, TypeName>)

  const CLIENT_TYPES: set<string> := {"public", "confidential"}
  const REVOKE_REASONS: set<string> := {"user_logout", "admin_revoke", "refresh_reuse", "disable_org", "suspend_user"}

  function TypeDefinition(t: TypeName): TypeDef {
    match t
    case TOrganization => TypeDef(false,
      map[AgencyId := Req(Str), Name := Req(Str), Enabled := Req(Bool), Description := Opt(Str),
          ContactEmail := Opt(Str),
          LogoURL := Opt(Str), CreatedAt := Opt(Str), UpdatedAt := Opt(Str), DisabledAt := Opt(Str),
          DeletedAt := Opt(Str)],
      map[HasUser := TUser, HasRole := TRole, HasScope := TScope, HasOAuthClient := TOAuthClient,
          HasAuditEvent := TAuditEvent])
    case TUser => TypeDef(false,
      map[AgencyId := Req(Str), Email := Req(Str), Status := Req(OneOf({Invited, Active, Suspended, Deleted}, {})),
          DisplayName := Opt(Str), CreatedAt := Opt(Str), UpdatedAt := Opt(Str), DeletedAt := Opt(Str)],
      map[HasPasswordCredential := TPasswordCredential, HasMembership := TMembership, HasInvitation := TInvitation])
    case TPasswordCredential => TypeDef(false,
      map[AgencyId := Req(Str), PasswordHash := Req(Str), CreatedAt := Opt(Str), LastUsedAt := Opt(Str),
          RevokedAt := Opt(Str), ExpiresAt := Opt(Str)],
      map[])
    case TRole => TypeDef(false,
      map[AgencyId := Req(Str), Name := Req(Str), Builtin := Req(Bool), DisplayName := Opt(Str),
          Description := Opt(Str), CreatedAt := Opt(Str), UpdatedAt := Opt(Str), DeletedAt := Opt(Str)],
      map[HasScope := TScope])
    case TScope => TypeDef(false,
      map[AgencyId := Req(Str), Name := Req(Str), RegisteredBy := Req(Str), Description := Opt(Str),
          CreatedAt := Opt(Str), UpdatedAt := Opt(Str), DeprecatedAt := Opt(Str)],
      map[])
    case TMembership => TypeDef(false,
      map[AgencyId := Req(Str), GrantedAt := Opt(Str), GrantedBy := Opt(Str), RevokedAt := Opt(Str),
          RevokedBy := Opt(Str)],
      map[GrantsRole := TRole])
    case TInvitation => TypeDef(false,
      map[AgencyId := Req(Str), TokenHash := Req(Str), Status := Req(OneOf({Pending, Accepted, Expired, Revoked}, {})),
          ExpiresAt := Req(Str), CreatedAt := Opt(Str), AcceptedAt := Opt(Str), RevokedAt := Opt(Str)],
      map[InvitedBy := TUser, WillGrantRole := TRole])
    case TOAuthClient => TypeDef(false,
      map[AgencyId := Req(Str), ClientId := Req(Str), ClientType := Req(OneOf({}, CLIENT_TYPES)), Name := Req(Str),
          AllowedGrantTypes := Opt(Array), Description := Opt(Str), CreatedAt := Opt(Str), UpdatedAt := Opt(Str),
          DisabledAt := Opt(Str), DeletedAt := Opt(Str)],
      map[HasRedirectURI := TRedirectURI, HasClientSecret := TClientSecret, AllowsScope := TScope])
    case TClientSecret => TypeDef(false,
      map[AgencyId := Req(Str), SecretHash := Req(Str), CreatedAt := Opt(Str), LastUsedAt := Opt(Str),
          RevokedAt := Opt(Str), GraceExpiresAt := Opt(Str)],
      map[])
    case TRedirectURI => TypeDef(false,
      map[AgencyId := Req(Str), Uri := Req(Str), CreatedAt := Opt(Str), LastUsedAt := Opt(Str), RevokedAt := Opt(Str)],
      map[])
    case TAuthorizationCode => TypeDef(true,
      map[AgencyId := Req(Str), CodeHash := Req(Str), CodeChallenge := Req(Str), RedirectUri := Req(Str),
          ExpiresAt := Req(Str), State := Opt(Str), CreatedAt := Opt(Str), ConsumedAt := Opt(Str)],
      map[IssuedTo := TOAuthClient, IssuedFor := TUser, HasRequestedScope := TScope])
    case TAccessToken => TypeDef(true,
      map[AgencyId := Req(Str), TokenHash := Req(Str), ExpiresAt := Req(Str), CreatedAt := Opt(Str)],
      map[IssuedTo := TOAuthClient, IssuedFor := TUser, HasScope := TScope])
    case TRefreshToken => TypeDef(true,
      map[AgencyId := Req(Str), TokenHash := Req(Str), ExpiresAt := Req(Str), CreatedAt := Opt(Str),
          ConsumedAt := Opt(Str)],
      map[IssuedTo := TOAuthClient, IssuedFor := TUser, HasScope := TScope, Parent := TRefreshToken])
    case TTokenRevocation => TypeDef(true,
      map[AgencyId := Req(Str), TokenHash := Req(Str), RevokedAt := Req(Str), ExpiresAt := Req(Str),
          Reason := Opt(OneOf({}, REVOKE_REASONS))],
      map[])
    case TAuditEvent => TypeDef(true,
      map[AgencyId := Req(Str), EventType := Req(Str), ActorId := Opt(Str), SubjectId := Opt(Str), Outcome := Opt(Str),
          EventAt := Req(Str), Payload := Opt(Str)],
      map[])
  }

  predicate OfKind(v: Value, k: Kind) {
    match k
    case Str => v.Text? || v.At?
    case Bool => v.Flag?
    case Array => v.Texts?
    case OneOf(words, texts) => (v.Word? && v.word in words) || (v.Text? && v.text in texts)
  }

  /** All values are of a declared property's kind. */
  ghost predicate Declared(t: TypeName, props: Props) {
    forall p :: p in props ==> p in TypeDefinition(t).props && OfKind(props[p], TypeDefinition(t).props[p].kind)
  }

  ghost predicate HasRequired(t: TypeName, props: Props) {
    forall p :: p in TypeDefinition(t).props && TypeDefinition(t).props[p].Req? ==> p in props
  }

  ghost predicate EntitiesConform(s: Store) {
    forall i :: 0 <= i < |s.ents| ==>
      Declared(s.ents[i].typ, s.ents[i].props) && HasRequired(s.ents[i].typ, s.ents[i].props)
  }

  /** An edge leads from an entity whose type declares it to an entity of the declared type. */
  ghost predicate EdgeConforms(s: Store, e: Edge) {
    e.from < |s.ents| && e.to < |s.ents| &&
    var edges := TypeDefinition(s.ents[e.from].typ).edges;
    e.name in edges && edges[e.name] == s.ents[e.to].typ
  }

  ghost predicate EdgesConform(s: Store) {
    forall k :: 0 <= k < |s.edges| ==> EdgeConforms(s, s.edges[k])
  }
}
