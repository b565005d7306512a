/** What every single write of every operation respects, and the invariants that follow from it. */
module Invariants {
  import opened Wrappers
  import opened EntityGraph
  import opened Helpers
  import opened ScopeGrammar
  import opened Operations

  // ---------------------------------------------------------------- what a write may do

  /** The property that no two live entities of a type may share. */
  function Key(t: TypeName): Option<Prop> {
    match t
    case TUser => Some(Email)
    case TRole => Some(Name)
    case TScope => Some(Name)
    case TInvitation => Some(TokenHash)
    case TOAuthClient => Some(ClientId)
    case _ => None
  }

  /** The only properties an update ever touches. */
  function Mutable(t: TypeName): set<Prop> {
    match t
    case TOrganization => {Name, Description, ContactEmail, LogoURL, Enabled, DisabledAt, UpdatedAt}
    case TUser => {Status, DeletedAt, UpdatedAt}
    case TRole => {DisplayName, Description, UpdatedAt}
    case TScope => {Description, DeprecatedAt, UpdatedAt}
    case TMembership => {RevokedAt}
    case TInvitation => {Status, AcceptedAt}
    case _ => {}
  }

  /** The name and the display name of one of the seeded roles. */
  predicate Seeds(p: Props) {
    exists b :: b in BUILTINS && Name in p && p[Name] == Text(b.name) &&
      DisplayName in p && p[DisplayName] == Text(b.displayName)
  }

  predicate IsBuiltin(e: Entity) {
    e.typ == TRole && PropBool(e.props, EntityGraph.Builtin)
  }

  predicate MayDelete(e: Entity) {
    e.typ in ARTIFACTS || e.typ == TOrganization || e.typ == TOAuthClient || (e.typ == TRole && !IsBuiltin(e))
  }

  predicate ScopeAllowed(p: Props) {
    Name in p && p[Name].Text? && RegisteredBy in p && p[RegisteredBy].Text? && MatchScope(p[Name].text) &&
    !Reserved(ScopeRequest(p[Name].text, p[RegisteredBy].text, ""))
  }

  /** The invitation has exactly one incoming edge, and the user at its other end has left `invited`. */
  predicate Acceptable(s: Store, inv: Id) {
    var into := EdgesInto(s, HasInvitation, inv);
    |into| == 1 && into[0].from < |s.ents| && s.ents[into[0].from].typ == TUser &&
    !Has(s.ents[into[0].from], Status, Word(Invited))
  }

  predicate CreateAllowed(s: Store, t: TypeName, p: Props) {
    AgencyId in p && p[AgencyId] == Text(s.agency) &&
    (t == TOrganization ==> List(s.ents, t, Any) == []) &&
    (Key(t).Some? ==> Key(t).value in p && List(s.ents, t, Where(Key(t).value, p[Key(t).value])) == []) &&
    (t == TRole ==> PropBool(p, EntityGraph.Builtin) ==> Seeds(p)) &&
    (t == TScope ==> ScopeAllowed(p)) &&
    (t == TUser ==> PropWord(p, Status) == Some(Invited)) &&
    (t == TInvitation ==> PropWord(p, Status) == Some(Pending))
  }

  predicate UpdateAllowed(s: Store, id: Id, patch: Props) {
    id < |s.ents| && patch.Keys <= Mutable(s.ents[id].typ) && !IsBuiltin(s.ents[id]) &&
    (s.ents[id].typ == TUser && Status in patch ==> patch[Status] in {Word(Active), Word(Suspended), Word(Deleted)}) &&
    (s.ents[id].typ == TInvitation && Status in patch ==> patch[Status] == Word(Accepted) && Acceptable(s, id))
  }

  predicate LinkAllowed(s: Store, e: Edge) {
    (e.name == HasInvitation ==>
      e.from < |s.ents| && s.ents[e.from].typ == TUser && e.to < |s.ents| && s.ents[e.to].typ == TInvitation &&
      EdgesInto(s, HasInvitation, e.to) == []) &&
    (e.name == HasMembership ==>
      e.to < |s.ents| && s.ents[e.to].typ == TMembership && EdgesInto(s, HasMembership, e.to) == [])
  }

  predicate Legal(s: Store, w: Write) {
    match w
    case Create(t, p) => CreateAllowed(s, t, p)
    case Update(id, patch) => UpdateAllowed(s, id, patch)
    case Delete(id) => id < |s.ents| && MayDelete(s.ents[id])
    case Link(e) => LinkAllowed(s, e)
  }

  predicate LegalAll(s: Store, ws: seq<Write>)
    decreases |ws|
  {
    |ws| == 0 || (Legal(s, ws[0]) && LegalAll(Apply(s, ws[0]), ws[1..]))
  }

  lemma {:induction false} LegalCut(s: Store, ws: seq<Write>, k: nat)
    requires LegalAll(s, ws)
    ensures LegalAll(s, Cut(ws, k))
    decreases |ws|
  {
    if 0 < k <= |ws| {
      assert ws[..k][0] == ws[0] && ws[..k][1..] == ws[1..][..k - 1];
      LegalCut(Apply(s, ws[0]), ws[1..], k - 1);
    }
  }

  lemma LegalCons(s: Store, w: Write, ws: seq<Write>)
    requires Legal(s, w) && LegalAll(Apply(s, w), ws)
    ensures LegalAll(s, [w] + ws)
  {
    assert ([w] + ws)[1..] == ws;
  }

  lemma {:induction false} LegalAppend(s: Store, a: seq<Write>, b: seq<Write>)
    requires LegalAll(s, a) && LegalAll(ApplyAll(s, a), b)
    ensures LegalAll(s, a + b)
    decreases |a|
  {
    if |a| == 0 {
      assert a + b == b;
    } else {
      LegalAppend(Apply(s, a[0]), a[1..], b);
      LegalCons(s, a[0], a[1..] + b);
      ConsAppend(a, b);
    }
  }

  lemma ConsAppend<T>(a: seq<T>, b: seq<T>)
    requires |a| > 0
    ensures a + b == [a[0]] + (a[1..] + b)
  {
  }

  // ---------------------------------------------------------------- invariants

  ghost predicate AtMostOne(s: Store, t: TypeName, f: Filter) {
    forall i: Id, j: Id :: Hits(s, i, t, f) && Hits(s, j, t, f) ==> i == j
  }

  ghost predicate UniqueKeys(s: Store) {
    AtMostOne(s, TOrganization, Any) &&
    forall t, v :: Key(t).Some? ==> AtMostOne(s, t, Where(Key(t).value, v))
  }

  ghost predicate EntitiesSound(s: Store) {
    forall i :: 0 <= i < |s.ents| ==> EntitySound(s, s.ents[i])
  }

  predicate EntitySound(s: Store, e: Entity) {
    AgencyId in e.props && e.props[AgencyId] == Text(s.agency) &&
    (Key(e.typ).Some? ==> Key(e.typ).value in e.props) &&
    (e.deleted ==> MayDelete(e)) &&
    (IsBuiltin(e) ==> Seeds(e.props)) &&
    (e.typ == TScope ==> ScopeAllowed(e.props))
  }

  predicate InvitationSound(s: Store, i: Id)
    requires i < |s.ents|
  {
    var status := PropWord(s.ents[i].props, Status);
    (status == Some(Pending) || status == Some(Accepted)) && |EdgesInto(s, HasInvitation, i)| <= 1 &&
    (status == Some(Accepted) ==> Acceptable(s, i))
  }

  ghost predicate InvitationsSound(s: Store) {
    (forall i :: 0 <= i < |s.ents| && s.ents[i].typ == TInvitation ==> InvitationSound(s, i)) &&
    (forall e :: e in s.edges && e.name == HasInvitation ==>
      e.from < |s.ents| && s.ents[e.from].typ == TUser && e.to < |s.ents| && s.ents[e.to].typ == TInvitation)
  }

  ghost predicate MembershipsSound(s: Store) {
    (forall i :: 0 <= i < |s.ents| ==> |EdgesInto(s, HasMembership, i)| <= 1) &&
    (forall e :: e in s.edges && e.name == HasMembership ==> e.to < |s.ents| && s.ents[e.to].typ == TMembership)
  }

  ghost predicate Inv(s: Store) {
    UniqueKeys(s) && EntitiesSound(s) && InvitationsSound(s) && MembershipsSound(s)
  }

  // ---------------------------------------------------------------- one write keeps them

  /** Adding an edge shows up exactly in the selections it matches. */
  lemma EdgesIntoAfterLink(s: Store, e: Edge, name: EdgeName, to: Id)
    ensures EdgesInto(Apply(s, Link(e)), name, to)
            == EdgesInto(s, name, to) + (if e.name == name && e.to == to then [e] else [])
  {
    assert (s.edges + [e])[..|s.edges|] == s.edges;
  }

  lemma {:induction false} NoneSelected(edges: seq<Edge>, name: EdgeName, to: Id)
    requires forall e :: e in edges && e.name == name ==> e.to != to
    ensures SelectEdges(edges, name, None, Some(to)) == []
  {
    if |edges| > 0 {
      NoneSelected(edges[..|edges| - 1], name, to);
      assert edges[|edges| - 1] in edges;
    }
  }

  lemma NoEdgesInto(s: Store, name: EdgeName, to: Id)
    requires forall e :: e in s.edges && e.name == name ==> e.to != to
    ensures EdgesInto(s, name, to) == []
  {
    NoneSelected(s.edges, name, to);
  }

  lemma AtMostOneStep(s: Store, w: Write, t: TypeName, f: Filter)
    requires AtMostOne(s, t, f)
    requires w.Create? && Matches(Entity(w.typ, w.props, false), t, f) ==> List(s.ents, t, f) == []
    requires w.Update? && f.Where? && w.id < |s.ents| && s.ents[w.id].typ == t ==> f.prop !in w.patch
    ensures AtMostOne(Apply(s, w), t, f)
  {
    var s' := Apply(s, w);
    forall i: Id, j: Id | Hits(s', i, t, f) && Hits(s', j, t, f)
      ensures i == j
    {
      var n := |s.ents|;
      if w.Create? && (i == n || j == n) {
        assert i < n ==> i in List(s.ents, t, f);
        assert j < n ==> j in List(s.ents, t, f);
      } else {
        assert Hits(s, i, t, f) && Hits(s, j, t, f);
      }
    }
  }

  /** From `s` to `t` the entities that matched are gone from the lists, and nothing else changed. */
  ghost predicate Removed(s: Store, t: Store, typ: TypeName, f: Filter) {
    List(t.ents, typ, f) == [] && |t.ents| == |s.ents| && t.edges == s.edges &&
    forall i :: 0 <= i < |s.ents| && !Matches(s.ents[i], typ, f) ==> t.ents[i] == s.ents[i]
  }

  lemma DeletionRemoves(s: Store, typ: TypeName, f: Filter)
    requires AtMostOne(s, typ, f) && List(s.ents, typ, f) != []
    ensures Removed(s, Apply(s, Delete(List(s.ents, typ, f)[0])), typ, f)
  {
    var found := List(s.ents, typ, f)[0];
    var t := Apply(s, Delete(found));
    forall i | 0 <= i < |t.ents|
      ensures !Matches(t.ents[i], typ, f)
    {
      if Matches(t.ents[i], typ, f) {
        assert Hits(s, i, typ, f) && Hits(s, found, typ, f);
      }
    }
    ListEmpty(t.ents, typ, f);
  }

  lemma UniqueKeysStep(s: Store, w: Write)
    requires UniqueKeys(s) && Legal(s, w)
    ensures UniqueKeys(Apply(s, w))
  {
    AtMostOneStep(s, w, TOrganization, Any);
    forall t, v | Key(t).Some?
      ensures AtMostOne(Apply(s, w), t, Where(Key(t).value, v))
    {
      AtMostOneStep(s, w, t, Where(Key(t).value, v));
    }
  }

  lemma EntitiesSoundStep(s: Store, w: Write)
    requires EntitiesSound(s) && Legal(s, w)
    ensures EntitiesSound(Apply(s, w))
  {
    var s' := Apply(s, w);
    forall i | 0 <= i < |s'.ents|
      ensures EntitySound(s', s'.ents[i])
    {
      assert s'.agency == s.agency;
      if i < |s.ents| {
        assert EntitySound(s, s.ents[i]);
        EntitySoundStep(s, w, i);
      } else {
        NewEntitySound(s, w);
      }
    }
  }

  lemma ImmutableStays(e: Entity, patch: Props, p: Prop)
    requires patch.Keys <= Mutable(e.typ) && p !in Mutable(e.typ)
    ensures p in e.props + patch <==> p in e.props
    ensures p in e.props ==> (e.props + patch)[p] == e.props[p]
  {
  }

  lemma PatchedSound(s: Store, e: Entity, patch: Props)
    requires EntitySound(s, e) && patch.Keys <= Mutable(e.typ) && !IsBuiltin(e)
    ensures EntitySound(s, e.(props := e.props + patch))
  {
    ImmutableStays(e, patch, AgencyId);
    ImmutableStays(e, patch, EntityGraph.Builtin);
    if Key(e.typ).Some? {
      ImmutableStays(e, patch, Key(e.typ).value);
    }
    if e.typ == TScope {
      ImmutableStays(e, patch, RegisteredBy);
    }
  }

  lemma EntitySoundStep(s: Store, w: Write, i: Id)
    requires i < |s.ents| && EntitySound(s, s.ents[i]) && Legal(s, w)
    ensures EntitySound(s, Apply(s, w).ents[i])
  {
    if w.Update? && w.id == i {
      PatchedSound(s, s.ents[i], w.patch);
    }
  }

  lemma NewEntitySound(s: Store, w: Write)
    requires w.Create? && Legal(s, w)
    ensures EntitySound(s, Entity(w.typ, w.props, false))
  {
  }

  lemma AcceptableStep(s: Store, w: Write, inv: Id)
    requires Acceptable(s, inv) && Legal(s, w)
    ensures Acceptable(Apply(s, w), inv)
  {
    if w.Link? {
      EdgesIntoAfterLink(s, w.edge, HasInvitation, inv);
    }
  }

  lemma InvitationSoundStep(s: Store, w: Write, i: Id)
    requires InvitationsSound(s) && Legal(s, w) && i < |s.ents| && s.ents[i].typ == TInvitation
    ensures InvitationSound(Apply(s, w), i)
  {
    assert InvitationSound(s, i);
    if Acceptable(s, i) {
      AcceptableStep(s, w, i);
    }
    if w.Link? {
      EdgesIntoAfterLink(s, w.edge, HasInvitation, i);
    }
  }

  lemma InvitationsSoundStep(s: Store, w: Write)
    requires InvitationsSound(s) && Legal(s, w)
    ensures InvitationsSound(Apply(s, w))
  {
    var s' := Apply(s, w);
    forall i | 0 <= i < |s'.ents| && s'.ents[i].typ == TInvitation
      ensures InvitationSound(s', i)
    {
      if i < |s.ents| {
        InvitationSoundStep(s, w, i);
      } else {
        NoEdgesInto(s', HasInvitation, i);
      }
    }
  }

  lemma MembershipsSoundStep(s: Store, w: Write)
    requires MembershipsSound(s) && Legal(s, w)
    ensures MembershipsSound(Apply(s, w))
  {
    var s' := Apply(s, w);
    forall i | 0 <= i < |s'.ents|
      ensures |EdgesInto(s', HasMembership, i)| <= 1
    {
      if i >= |s.ents| {
        NoEdgesInto(s', HasMembership, i);
      } else {
        assert |EdgesInto(s, HasMembership, i)| <= 1;
        if w.Link? {
          EdgesIntoAfterLink(s, w.edge, HasMembership, i);
        }
      }
    }
  }

  lemma {:induction false} InvAfter(s: Store, ws: seq<Write>)
    requires Inv(s) && LegalAll(s, ws)
    ensures Inv(ApplyAll(s, ws))
    decreases |ws|
  {
    if |ws| > 0 {
      UniqueKeysStep(s, ws[0]);
      EntitiesSoundStep(s, ws[0]);
      InvitationsSoundStep(s, ws[0]);
      MembershipsSoundStep(s, ws[0]);
      InvAfter(Apply(s, ws[0]), ws[1..]);
    }
  }

  // ---------------------------------------------------------------- frozen identity

  /** `t` comes after `s`: nothing disappears, only mutable properties change, built-in roles not at all, and
      what was accepted stays accepted. */
  ghost predicate Evolves(s: Store, t: Store) {
    s.agency == t.agency && |s.ents| <= |t.ents| && s.edges <= t.edges &&
    forall i :: 0 <= i < |s.ents| ==> EntityEvolves(s.ents[i], t.ents[i])
  }

  ghost predicate EntityEvolves(a: Entity, b: Entity) {
    a.typ == b.typ && (a.deleted ==> b.deleted) && (b.deleted && !a.deleted ==> MayDelete(a)) &&
    (IsBuiltin(a) ==> b == a) &&
    (forall p :: p !in Mutable(a.typ) ==> (p in a.props <==> p in b.props)) &&
    (forall p :: p in a.props && p !in Mutable(a.typ) ==> a.props[p] == b.props[p]) &&
    (a.typ == TInvitation && Has(a, Status, Word(Accepted)) ==> Has(b, Status, Word(Accepted)))
  }

  lemma EvolvesStep(s: Store, w: Write)
    requires Legal(s, w)
    ensures Evolves(s, Apply(s, w))
  {
  }

  lemma EntityEvolvesTransitive(a: Entity, b: Entity, c: Entity)
    requires EntityEvolves(a, b) && EntityEvolves(b, c)
    ensures EntityEvolves(a, c)
  {
  }

  lemma EvolvesTransitive(s: Store, t: Store, u: Store)
    requires Evolves(s, t) && Evolves(t, u)
    ensures Evolves(s, u)
  {
    forall i | 0 <= i < |s.ents|
      ensures EntityEvolves(s.ents[i], u.ents[i])
    {
      EntityEvolvesTransitive(s.ents[i], t.ents[i], u.ents[i]);
    }
  }

  lemma {:induction false} EvolvesAfter(s: Store, ws: seq<Write>)
    requires LegalAll(s, ws)
    ensures Evolves(s, ApplyAll(s, ws))
    decreases |ws|
  {
    if |ws| > 0 {
      EvolvesStep(s, ws[0]);
      EvolvesAfter(Apply(s, ws[0]), ws[1..]);
      EvolvesTransitive(s, Apply(s, ws[0]), ApplyAll(s, ws));
    }
  }
}
