/** The four operations that take an identifier without checking its type: what becomes of a sound store when the
    identifier names an entity of another type. */
module Misdirected {
  import opened Wrappers
  import opened EntityGraph
  import opened Helpers
  import opened Operations
  import opened Invariants
  import opened PlansLegal
  import opened Invitations

  // ---------------------------------------------------------------- patches

  /** The properties that UpdateRole, DeprecateScope and RevokeMembership write. */
  const PATCHED := {UpdatedAt, DisplayName, Description, DeprecatedAt, RevokedAt}

  lemma PatchedUniqueKeys(s: Store, id: Id, patch: Props)
    requires UniqueKeys(s) && patch.Keys <= PATCHED
    ensures UniqueKeys(Apply(s, Update(id, patch)))
  {
    var w := Update(id, patch);
    AtMostOneStep(s, w, TOrganization, Any);
    forall t, v | Key(t).Some?
      ensures AtMostOne(Apply(s, w), t, Where(Key(t).value, v))
    {
      AtMostOneStep(s, w, t, Where(Key(t).value, v));
    }
  }

  lemma Unpatched(e: Entity, patch: Props, p: Prop)
    requires patch.Keys <= PATCHED && p !in PATCHED
    ensures p in e.props + patch <==> p in e.props
    ensures p in e.props ==> (e.props + patch)[p] == e.props[p]
  {
  }

  lemma PatchedEntity(s: Store, e: Entity, patch: Props)
    requires EntitySound(s, e) && patch.Keys <= PATCHED && (IsBuiltin(e) ==> DisplayName !in patch)
    ensures EntitySound(s, e.(props := e.props + patch))
  {
    Unpatched(e, patch, AgencyId);
    Unpatched(e, patch, EntityGraph.Builtin);
    Unpatched(e, patch, Name);
    if Key(e.typ).Some? {
      Unpatched(e, patch, Key(e.typ).value);
    }
    if e.typ == TScope {
      Unpatched(e, patch, RegisteredBy);
    }
  }

  lemma PatchedEntities(s: Store, id: Id, patch: Props)
    requires EntitiesSound(s) && patch.Keys <= PATCHED
    requires id < |s.ents| && IsBuiltin(s.ents[id]) ==> DisplayName !in patch
    ensures EntitiesSound(Apply(s, Update(id, patch)))
  {
    var t := Apply(s, Update(id, patch));
    forall i | 0 <= i < |t.ents|
      ensures EntitySound(t, t.ents[i])
    {
      assert t.agency == s.agency && EntitySound(s, s.ents[i]);
      if i == id {
        PatchedEntity(s, s.ents[i], patch);
      }
    }
  }

  lemma PatchedStatus(s: Store, id: Id, patch: Props, i: Id)
    requires i < |s.ents| && patch.Keys <= PATCHED
    ensures var t := Apply(s, Update(id, patch));
      i < |t.ents| && t.ents[i].typ == s.ents[i].typ &&
      PropWord(t.ents[i].props, Status) == PropWord(s.ents[i].props, Status)
    ensures var t := Apply(s, Update(id, patch));
      Has(t.ents[i], Status, Word(Invited)) <==> Has(s.ents[i], Status, Word(Invited))
  {
  }

  lemma PatchedInvitations(s: Store, id: Id, patch: Props)
    requires InvitationsSound(s) && patch.Keys <= PATCHED
    ensures InvitationsSound(Apply(s, Update(id, patch)))
  {
    var t := Apply(s, Update(id, patch));
    forall i | 0 <= i < |t.ents| && t.ents[i].typ == TInvitation
      ensures InvitationSound(t, i)
    {
      PatchedStatus(s, id, patch, i);
      assert InvitationSound(s, i) && EdgesInto(t, HasInvitation, i) == EdgesInto(s, HasInvitation, i);
      var into := EdgesInto(s, HasInvitation, i);
      if Acceptable(s, i) {
        PatchedStatus(s, id, patch, into[0].from);
      }
    }
  }

  lemma PatchedMemberships(s: Store, id: Id, patch: Props)
    requires MembershipsSound(s)
    ensures MembershipsSound(Apply(s, Update(id, patch)))
  {
    var t := Apply(s, Update(id, patch));
    forall i | 0 <= i < |t.ents|
      ensures |EdgesInto(t, HasMembership, i)| <= 1
    {
      assert |EdgesInto(s, HasMembership, i)| <= 1;
    }
  }

  lemma PatchKeepsInv(s: Store, id: Id, patch: Props)
    requires Inv(s) && patch.Keys <= PATCHED
    requires id < |s.ents| && IsBuiltin(s.ents[id]) ==> DisplayName !in patch
    ensures Inv(Apply(s, Update(id, patch)))
  {
    PatchedUniqueKeys(s, id, patch);
    PatchedEntities(s, id, patch);
    PatchedInvitations(s, id, patch);
    PatchedMemberships(s, id, patch);
  }

  lemma OneUpdate(s: Store, c: Call, patch: Props)
    requires c.op.UpdateRole? || c.op.DeprecateScope? || c.op.RevokeMembership?
    requires Plan(s, c.op).Writes? ==> Plan(s, c.op).ws == [Update(c.op.id, patch)]
    ensures AfterCall(s, c) == s || (Plan(s, c.op).Writes? && AfterCall(s, c) == Apply(s, Update(c.op.id, patch)))
  {
    var ws := WritesOf(Plan(s, c.op));
    if ws == [] || c.done == 0 {
      assert Cut(ws, c.done) == [];
    } else {
      assert Cut(ws, c.done) == ws;
      assert ApplyAll(s, ws) == Apply(s, ws[0]);
    }
  }

  /** UpdateRole, DeprecateScope and RevokeMembership keep all invariants whatever their identifier names. */
  lemma AnyPatchKeepsInv(s: Store, c: Call)
    requires Inv(s) && (c.op.UpdateRole? || c.op.DeprecateScope? || c.op.RevokeMembership?)
    ensures Inv(AfterCall(s, c))
  {
    var patch: Props := if c.op.UpdateRole? then RolePatch(c.op.role, c.op.now)
      else if c.op.DeprecateScope? then DeprecationPatch(c.op.now) else map[RevokedAt := At(c.op.now)];
    OneUpdate(s, c, patch);
    if Plan(s, c.op).Writes? {
      PatchKeepsInv(s, c.op.id, patch);
    }
  }

  // ---------------------------------------------------------------- deletions

  lemma DeletionKeepsInvExactly(s: Store, id: Id)
    requires Inv(s) && id < |s.ents|
    ensures Inv(Apply(s, Delete(id))) <==> MayDelete(s.ents[id])
  {
    var t := Apply(s, Delete(id));
    if MayDelete(s.ents[id]) {
      assert LegalAll(s, [Delete(id)]);
      InvAfter(s, [Delete(id)]);
      assert ApplyAll(s, [Delete(id)]) == t;
    }
    if Inv(t) {
      assert EntitySound(t, t.ents[id]);
    }
  }

  /** DeleteRole goes through with its deletion. */
  predicate Deletes(s: Store, id: Id, done: nat) {
    done >= 1 && id < |s.ents| && !PropBool(s.ents[id].props, EntityGraph.Builtin)
  }

  lemma AfterDeleteRole(s: Store, id: Id, done: nat)
    ensures AfterCall(s, Call(DeleteRole(id), done)) == if Deletes(s, id, done) then Apply(s, Delete(id)) else s
  {
    var ws := WritesOf(Plan(s, DeleteRole(id)));
    if Deletes(s, id, done) {
      assert ws == [Delete(id)] && Cut(ws, done) == ws;
      assert ApplyAll(s, ws) == Apply(s, Delete(id));
    } else {
      assert Cut(ws, done) == [];
    }
  }

  /** DeleteRole keeps the invariants if and only if nothing was deleted, or the identifier named an entity that may
      be: a custom role, or by mistake an organization, a client, a token or a revocation - but never a user, a
      scope, a membership or an invitation. */
  lemma DeleteRoleKeepsInvExactly(s: Store, id: Id, done: nat)
    requires Inv(s)
    ensures Inv(AfterCall(s, Call(DeleteRole(id), done))) <==> (Deletes(s, id, done) ==> MayDelete(s.ents[id]))
  {
    AfterDeleteRole(s, id, done);
    if Deletes(s, id, done) {
      DeletionKeepsInvExactly(s, id);
    }
  }

  lemma LiveUser(s: Store, user: Id, email: string)
    requires Inv(s) && user < |s.ents| && s.ents[user].typ == TUser && Has(s.ents[user], Email, Text(email))
    ensures Hits(s, user, TUser, Where(Email, Text(email)))
    ensures forall i: Id :: Hits(s, i, TUser, Where(Email, Text(email))) ==> i == user
  {
    var f := Where(Email, Text(email));
    assert EntitySound(s, s.ents[user]);
    assert !s.ents[user].deleted && Hits(s, user, TUser, f);
    assert Key(TUser) == Some(Email);
    assert AtMostOne(s, TUser, f);
  }

  lemma OtherDeletion(s: Store, id: Id, user: Id, email: string)
    requires Hits(s, user, TUser, Where(Email, Text(email))) && id != user
    ensures EmailTaken(Apply(s, Delete(id)), email)
  {
    UserTakesEmail(Apply(s, Delete(id)), user, email);
  }

  lemma UserDeletion(s: Store, user: Id, email: string)
    requires user < |s.ents| && forall i: Id :: Hits(s, i, TUser, Where(Email, Text(email))) ==> i == user
    ensures !EmailTaken(Apply(s, Delete(user)), email)
  {
    var t, f := Apply(s, Delete(user)), Where(Email, Text(email));
    forall i | 0 <= i < |t.ents|
      ensures !Matches(t.ents[i], TUser, f)
    {
      assert Hits(s, i, TUser, f) ==> i == user;
    }
    ListEmpty(t.ents, TUser, f);
  }

  /** In a sound store the email of a user can be invited again after a DeleteRole if and only if it was given that
      user's identifier and made its deletion. */
  lemma DeleteRoleFreesEmailExactly(s: Store, user: Id, email: string, id: Id, done: nat)
    requires Inv(s) && user < |s.ents| && s.ents[user].typ == TUser && Has(s.ents[user], Email, Text(email))
    ensures !EmailTaken(AfterCall(s, Call(DeleteRole(id), done)), email) <==> id == user && Deletes(s, id, done)
  {
    AfterDeleteRole(s, id, done);
    LiveUser(s, user, email);
    if !Deletes(s, id, done) {
      UserTakesEmail(s, user, email);
    } else if id == user {
      UserDeletion(s, user, email);
    } else {
      OtherDeletion(s, id, user, email);
    }
  }

  lemma OneInvited(agency: string, req: InviteRequest, hash: string, at: int, s: Store)
    requires s == Run(agency, [Call(InviteUser(req, hash, at), 1)])
    ensures ValidRun(agency, [Call(InviteUser(req, hash, at), 1)])
    ensures |s.ents| > 0 && s.ents[0] == Entity(TUser, UserProps(agency, req, Sec(at)), false)
  {
    var e, c := EmptyStore(agency), Call(InviteUser(req, hash, at), 1);
    RunSnoc(agency, [], c);
    assert [] + [c] == [c] && Run(agency, []) == e;
    ListEmpty(e.ents, TInvitation, Where(TokenHash, Text(hash)));
    ListEmpty(e.ents, TUser, Where(Email, Text(req.email)));
    InvitedUserStored(e, s, req, hash, at, 1);
  }

  lemma UserFields(agency: string, req: InviteRequest, now: int)
    ensures var p := UserProps(agency, req, now);
      Email in p && p[Email] == Text(req.email) && !PropBool(p, EntityGraph.Builtin)
  {
  }

  lemma UserZeroDeleted(s: Store, t: Store, email: string)
    requires Inv(s) && |s.ents| > 0 && s.ents[0].typ == TUser && Has(s.ents[0], Email, Text(email))
    requires !PropBool(s.ents[0].props, EntityGraph.Builtin) && t == AfterCall(s, Call(DeleteRole(0), 1))
    ensures EmailTaken(s, email) && !EmailTaken(t, email) && !Inv(t)
  {
    LiveUser(s, 0, email);
    UserTakesEmail(s, 0, email);
    DeleteRoleKeepsInvExactly(s, 0, 1);
    DeleteRoleFreesEmailExactly(s, 0, email, 0, 1);
  }

  /** A concrete case: after an invitation, DeleteRole of the invited user's identifier goes through, breaks the
      invariants and lets the same email be invited again. */
  lemma DeletedUserExample(agency: string, req: InviteRequest, hash: string, at: int, s: Store, t: Store,
                           again: string, later: int)
    requires s == Run(agency, [Call(InviteUser(req, hash, at), 1)]) && t == AfterCall(s, Call(DeleteRole(0), 1))
    ensures ValidRun(agency, [Call(InviteUser(req, hash, at), 1)]) && InviteUserPlan(s, req, again, later).Refused?
    ensures !Inv(t) && InviteUserPlan(t, req, again, later).Writes?
  {
    OneInvited(agency, req, hash, at, s);
    assert Inv(s) by {
      RunKeepsInv(agency, [Call(InviteUser(req, hash, at), 1)]);
    }
    UserFields(agency, req, Sec(at));
    UserZeroDeleted(s, t, req.email);
    RefusedWhenTaken(s, req, again, later);
    RefusedWhenTaken(t, req, again, later);
  }
}
