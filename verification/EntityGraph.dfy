/** The entity graph the manager works on: typed entities with a property map, and named edges.
    An identifier is the position of its entity in order of creation. */
module EntityGraph {
  import opened Wrappers

  datatype TypeName =
    | TOrganization | TUser | TPasswordCredential | TRole | TScope | TMembership | TInvitation
    | TOAuthClient | TClientSecret | TRedirectURI
    | TAuthorizationCode | TAccessToken | TRefreshToken | TTokenRevocation | TAuditEvent

  datatype Prop =
    | AgencyId | Name | Enabled | Description | ContactEmail | LogoURL | CreatedAt | UpdatedAt
    | DisabledAt | DeletedAt | Email | Status | DisplayName | PasswordHash | LastUsedAt | RevokedAt
    | ExpiresAt | Builtin | RegisteredBy | DeprecatedAt | GrantedAt | GrantedBy | RevokedBy
    | TokenHash | AcceptedAt | ClientId | ClientType | AllowedGrantTypes | SecretHash
    | GraceExpiresAt | Uri | CodeHash | CodeChallenge | RedirectUri | State | ConsumedAt | Reason
    | EventType | ActorId | SubjectId | Outcome | EventAt | Payload

  datatype EdgeName =
    | HasUser | HasRole | HasScope | HasOAuthClient | HasAuditEvent | HasPasswordCredential
    | HasMembership | HasInvitation | GrantsRole | InvitedBy | WillGrantRole | HasRedirectURI
    | HasClientSecret | AllowsScope | IssuedTo | IssuedFor | HasRequestedScope | Parent

  /** The status words the code itself writes or compares with. */
  datatype StatusWord = Invited | Active | Suspended | Deleted | Pending | Accepted | Expired | Revoked

  /** `At(sec)` is a timestamp string, known by the whole second it denotes. */
  datatype Value =
    | Text(text: string) | Flag(flag: bool) | At(sec: int) | Texts(items: seq<string>) | Word(word: StatusWord)

  type Id = nat

  type Props = map<Prop, Value>

  datatype Entity = Entity(typ: TypeName, props: Props, deleted: bool)

  datatype Edge = Edge(name: EdgeName, from: Id, to: Id)

  datatype Store = Store(agency: string, ents: seq<Entity>, edges: seq<Edge>)

  function EmptyStore(agency: string): Store {
    Store(agency, [], [])
  }

  // ---------------------------------------------------------------- reading

  predicate Has(e: Entity, p: Prop, v: Value) {
    p in e.props && e.props[p] == v
  }

  datatype Filter = Any | Where(prop: Prop, value: Value)

  predicate Matches(e: Entity, typ: TypeName, f: Filter) {
    e.typ == typ && !e.deleted && (f.Where? ==> Has(e, f.prop, f.value))
  }

  predicate Hits(s: Store, i: Id, typ: TypeName, f: Filter) {
    i < |s.ents| && Matches(s.ents[i], typ, f)
  }

  /** The live entities of one type that satisfy a filter, in storage order. */
  function List(ents: seq<Entity>, typ: TypeName, f: Filter): (r: seq<Id>)
    ensures forall i: Id :: i in r <==> i < |ents| && Matches(ents[i], typ, f)
    ensures forall j :: 0 <= j < |r| ==> r[j] < |ents| && Matches(ents[r[j]], typ, f)
    ensures forall a, b :: 0 <= a < b < |r| ==> r[a] < r[b]
  {
    if |ents| == 0 then []
    else
      var n := |ents| - 1;
      List(ents[..n], typ, f) + (if Matches(ents[n], typ, f) then [n] else [])
  }

  lemma {:induction false} ListEmpty(ents: seq<Entity>, typ: TypeName, f: Filter)
    requires forall i :: 0 <= i < |ents| ==> !Matches(ents[i], typ, f)
    ensures List(ents, typ, f) == []
  {
    if |ents| > 0 {
      ListEmpty(ents[..|ents| - 1], typ, f);
    }
  }

  lemma {:induction false} ListSameMatches(a: seq<Entity>, b: seq<Entity>, typ: TypeName, f: Filter)
    requires |a| == |b| && forall i :: 0 <= i < |a| ==> Matches(a[i], typ, f) == Matches(b[i], typ, f)
    ensures List(a, typ, f) == List(b, typ, f)
  {
    if |a| > 0 {
      ListSameMatches(a[..|a| - 1], b[..|b| - 1], typ, f);
    }
  }

  lemma ListAfterCreate(s: Store, t: TypeName, p: Props, typ: TypeName, f: Filter)
    ensures List(Apply(s, Create(t, p)).ents, typ, f)
            == List(s.ents, typ, f) + (if Matches(Entity(t, p, false), typ, f) then [|s.ents|] else [])
  {
    assert (s.ents + [Entity(t, p, false)])[..|s.ents|] == s.ents;
  }

  predicate EdgeMatches(e: Edge, name: EdgeName, from: Option<Id>, to: Option<Id>) {
    e.name == name && (from.Some? ==> e.from == from.value) && (to.Some? ==> e.to == to.value)
  }

  function SelectEdges(edges: seq<Edge>, name: EdgeName, from: Option<Id>, to: Option<Id>): (r: seq<Edge>)
    ensures forall e :: e in r <==> e in edges && EdgeMatches(e, name, from, to)
  {
    if |edges| == 0 then []
    else
      var n := |edges| - 1;
      SelectEdges(edges[..n], name, from, to) + (if EdgeMatches(edges[n], name, from, to) then [edges[n]] else [])
  }

  /** Edges of one name that end at an entity. */
  function EdgesInto(s: Store, name: EdgeName, to: Id): seq<Edge> {
    SelectEdges(s.edges, name, None, Some(to))
  }

  // ---------------------------------------------------------------- writing

  datatype Write =
    | Create(typ: TypeName, props: Props)
    | Update(id: Id, patch: Props)
    | Delete(id: Id)
    | Link(edge: Edge)

  /** An update merges properties; a deletion hides the entity from lists; an update or deletion of an
      unknown identifier has no effect. */
  function Apply(s: Store, w: Write): Store {
    match w
    case Create(typ, props) => s.(ents := s.ents + [Entity(typ, props, false)])
    case Update(id, patch) =>
      if id < |s.ents| then s.(ents := s.ents[id := s.ents[id].(props := s.ents[id].props + patch)]) else s
    case Delete(id) =>
      if id < |s.ents| then s.(ents := s.ents[id := s.ents[id].(deleted := true)]) else s
    case Link(edge) => s.(edges := s.edges + [edge])
  }

  function ApplyAll(s: Store, ws: seq<Write>): Store
    decreases |ws|
  {
    if |ws| == 0 then s else ApplyAll(Apply(s, ws[0]), ws[1..])
  }

  lemma {:induction false} ApplyAppend(s: Store, a: seq<Write>, b: seq<Write>)
    ensures ApplyAll(s, a + b) == ApplyAll(ApplyAll(s, a), b)
    decreases |a|
  {
    if |a| == 0 {
      assert a + b == b;
    } else {
      assert (a + b)[0] == a[0] && (a + b)[1..] == a[1..] + b;
      ApplyAppend(Apply(s, a[0]), a[1..], b);
    }
  }

  lemma ApplySnoc(s: Store, a: seq<Write>, w: Write)
    ensures ApplyAll(s, a + [w]) == Apply(ApplyAll(s, a), w)
  {
    ApplyAppend(s, a, [w]);
    assert ApplyAll(ApplyAll(s, a), [w]) == Apply(ApplyAll(s, a), w);
  }

  // ---------------------------------------------------------------- the data manager

  datatype Record = Record(id: Id, entity: Entity)

  function Records(s: Store, ids: seq<Id>): (r: seq<Record>)
    requires forall j :: 0 <= j < |ids| ==> ids[j] < |s.ents|
    ensures |r| == |ids| && forall j :: 0 <= j < |ids| ==> r[j] == Record(ids[j], s.ents[ids[j]])
  {
    seq(|ids|, j requires 0 <= j < |ids| => Record(ids[j], s.ents[ids[j]]))
  }

  datatype StoreError = StoreError

  /** The storage calls. Any of them may fail, and then it has no effect but to be counted. */
  class DataManager {
    var s: Store
    ghost var faults: nat

    constructor (agency: string)
      ensures s == EmptyStore(agency) && faults == 0
    {
      s := EmptyStore(agency);
      faults := 0;
    }

    method ListEntities(typ: TypeName, f: Filter) returns (r: Result<seq<Record>, StoreError>)
      modifies this`faults
      ensures r.Success? ==> r.value == Records(s, List(s.ents, typ, f))
      ensures faults == old(faults) + (if r.Success? then 0 else 1)
    {
      var fail: bool := *;
      if fail {
        faults := faults + 1;
        return Failure(StoreError);
      }
      r := Success(Records(s, List(s.ents, typ, f)));
    }

    method ListRelationships(name: EdgeName, from: Option<Id>, to: Option<Id>)
      returns (r: Result<seq<Edge>, StoreError>)
      modifies this`faults
      ensures r.Success? ==> r.value == SelectEdges(s.edges, name, from, to)
      ensures faults == old(faults) + (if r.Success? then 0 else 1)
    {
      var fail: bool := *;
      if fail {
        faults := faults + 1;
        return Failure(StoreError);
      }
      r := Success(SelectEdges(s.edges, name, from, to));
    }

    /** An unknown identifier is an answer, not a storage failure. */
    method GetEntity(id: Id) returns (r: Result<Entity, StoreError>)
      modifies this`faults
      ensures r.Success? ==> id < |s.ents| && r.value == s.ents[id] && faults == old(faults)
      ensures r.Failure? ==> faults == old(faults) + 1 || (faults == old(faults) && id >= |s.ents|)
    {
      var fail: bool := *;
      if fail {
        faults := faults + 1;
        return Failure(StoreError);
      }
      if id >= |s.ents| {
        return Failure(StoreError);
      }
      r := Success(s.ents[id]);
    }

    method CreateEntity(typ: TypeName, props: Props) returns (r: Result<Record, StoreError>)
      modifies this
      ensures r.Success? ==> s == Apply(old(s), Create(typ, props)) &&
                             r.value == Record(|old(s).ents|, Entity(typ, props, false))
      ensures r.Failure? ==> s == old(s)
      ensures faults == old(faults) + (if r.Success? then 0 else 1)
    {
      var fail: bool := *;
      if fail {
        faults := faults + 1;
        return Failure(StoreError);
      }
      r := Success(Record(|s.ents|, Entity(typ, props, false)));
      s := Apply(s, Create(typ, props));
    }

    method UpdateEntity(id: Id, patch: Props) returns (r: Result<Record, StoreError>)
      modifies this
      ensures r.Success? ==> id < |old(s).ents| && s == Apply(old(s), Update(id, patch)) &&
                             r.value == Record(id, s.ents[id])
      ensures r.Failure? ==> s == old(s)
      ensures faults == old(faults) + (if r.Success? then 0 else 1)
    {
      var fail: bool := *;
      if fail || id >= |s.ents| {
        faults := faults + 1;
        return Failure(StoreError);
      }
      s := Apply(s, Update(id, patch));
      r := Success(Record(id, s.ents[id]));
    }

    method DeleteEntity(id: Id) returns (r: Result<(), StoreError>)
      modifies this
      ensures r.Success? ==> s == Apply(old(s), Delete(id))
      ensures r.Failure? ==> s == old(s)
      ensures faults == old(faults) + (if r.Success? then 0 else 1)
    {
      var fail: bool := *;
      if fail {
        faults := faults + 1;
        return Failure(StoreError);
      }
      s := Apply(s, Delete(id));
      r := Success(());
    }

    method CreateRelationship(edge: Edge) returns (r: Result<(), StoreError>)
      modifies this
      ensures r.Success? ==> s == Apply(old(s), Link(edge))
      ensures r.Failure? ==> s == old(s)
      ensures faults == old(faults) + (if r.Success? then 0 else 1)
    {
      var fail: bool := *;
      if fail {
        faults := faults + 1;
        return Failure(StoreError);
      }
      s := Apply(s, Link(edge));
      r := Success(());
    }
  }
}
