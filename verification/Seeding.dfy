/** The four built-in roles: how far seeding gets, what success leaves behind, and how a seeding that was
    cut short is repaired. */
module Seeding {
  import opened Wrappers
  import opened EntityGraph
  import opened Helpers
  import opened Operations
  import opened Invariants
  import opened PlansLegal
  import opened Footprints

  predicate LiveRole(s: Store, name: string) {
    List(s.ents, TRole, Where(Name, Text(name))) != []
  }

  /** A live role with the name, built-in or custom. */
  predicate RoleNamed(s: Store, i: Id, name: string, builtin: bool) {
    i < |s.ents| && Matches(s.ents[i], TRole, Where(Name, Text(name))) && IsBuiltin(s.ents[i]) == builtin
  }

  /** A live built-in role with the name and the display name. */
  predicate ShownAs(s: Store, i: Id, name: string, displayName: string) {
    RoleNamed(s, i, name, true) && PropStr(s.ents[i].props, DisplayName) == displayName
  }

  ghost predicate HasBuiltin(s: Store, name: string, displayName: string) {
    exists i: Id :: ShownAs(s, i, name, displayName)
  }

  /** There are four built-in roles, all live: these. */
  ghost predicate ExactlyTheBuiltins(s: Store) {
    HasBuiltin(s, "super_admin", "Super Admin") && HasBuiltin(s, "admin", "Admin") &&
    HasBuiltin(s, "member", "Member") && HasBuiltin(s, "viewer", "Viewer") && BuiltinsOnce(s) &&
    (forall i: Id :: i < |s.ents| && IsBuiltin(s.ents[i]) ==> HasSeedName(s, i))
  }

  /** The role has one of the four names. */
  predicate HasSeedName(s: Store, i: Id) {
    RoleNamed(s, i, "super_admin", true) || RoleNamed(s, i, "admin", true) ||
    RoleNamed(s, i, "member", true) || RoleNamed(s, i, "viewer", true)
  }

  ghost predicate BuiltinsOnce(s: Store) {
    forall i: Id, j: Id, name :: RoleNamed(s, i, name, true) && RoleNamed(s, j, name, true) ==> i == j
  }

  ghost predicate CustomHolds(s: Store, name: string) {
    exists i: Id :: RoleNamed(s, i, name, false)
  }

  /** No live custom role has one of the four names. */
  ghost predicate NamesFree(s: Store) {
    !CustomHolds(s, "super_admin") && !CustomHolds(s, "admin") && !CustomHolds(s, "member") && !CustomHolds(s, "viewer")
  }

  // ---------------------------------------------------------------- the four, seed by seed

  ghost predicate SeedsComplete(s: Store, bs: seq<Builtin>) {
    (forall b :: b in bs ==> HasBuiltin(s, b.name, b.displayName)) && BuiltinsOnce(s) &&
    (forall i: Id :: i < |s.ents| && IsBuiltin(s.ents[i]) ==> exists b :: b in bs && RoleNamed(s, i, b.name, true))
  }

  /** The seeds are these four, in this order. */
  lemma FourSeeds(bs: seq<Builtin>)
    requires bs == BUILTINS
    ensures |bs| == 4 && bs == [bs[0], bs[1], bs[2], bs[3]]
    ensures bs[0].name == "super_admin" && bs[0].displayName == "Super Admin"
    ensures bs[1].name == "admin" && bs[1].displayName == "Admin"
    ensures bs[2].name == "member" && bs[2].displayName == "Member"
    ensures bs[3].name == "viewer" && bs[3].displayName == "Viewer"
  {
  }

  lemma OneOfFour(bs: seq<Builtin>, b: Builtin)
    requires |bs| == 4 && b in bs
    ensures b == bs[0] || b == bs[1] || b == bs[2] || b == bs[3]
  {
  }

  lemma NamesFreeSeedwise(s: Store, bs: seq<Builtin>)
    requires bs == BUILTINS
    ensures NamesFree(s) <==> forall b :: b in bs ==> !CustomHolds(s, b.name)
  {
    FourSeeds(bs);
    assert bs[0] in bs && bs[1] in bs && bs[2] in bs && bs[3] in bs;
    forall b | b in bs && NamesFree(s)
      ensures !CustomHolds(s, b.name)
    {
      OneOfFour(bs, b);
    }
  }

  lemma CompleteInWords(s: Store, bs: seq<Builtin>)
    requires bs == BUILTINS && SeedsComplete(s, bs)
    ensures ExactlyTheBuiltins(s)
  {
    assert ExactlyTheBuiltins(s) by {
      AllFour(s, bs);
      EachAmongFour(s, bs);
    }
  }

  lemma EachAmongFour(s: Store, bs: seq<Builtin>)
    requires bs == BUILTINS
    requires forall i: Id :: i < |s.ents| && IsBuiltin(s.ents[i]) ==>
      exists b :: b in bs && RoleNamed(s, i, b.name, true)
    ensures forall i: Id :: i < |s.ents| && IsBuiltin(s.ents[i]) ==> HasSeedName(s, i)
  {
    forall i: Id | i < |s.ents| && IsBuiltin(s.ents[i])
      ensures HasSeedName(s, i)
    {
      var b :| b in bs && RoleNamed(s, i, b.name, true);
      AmongFour(s, bs, i, b);
    }
  }

  lemma AmongFour(s: Store, bs: seq<Builtin>, i: Id, b: Builtin)
    requires bs == BUILTINS && b in bs && RoleNamed(s, i, b.name, true)
    ensures HasSeedName(s, i)
  {
    FourSeeds(bs);
    OneOfFour(bs, b);
  }

  lemma AllFour(s: Store, bs: seq<Builtin>)
    requires bs == BUILTINS && forall b :: b in bs ==> HasBuiltin(s, b.name, b.displayName)
    ensures HasBuiltin(s, "super_admin", "Super Admin") && HasBuiltin(s, "admin", "Admin")
    ensures HasBuiltin(s, "member", "Member") && HasBuiltin(s, "viewer", "Viewer")
  {
    FourSeeds(bs);
    assert bs[0] in bs && bs[1] in bs && bs[2] in bs && bs[3] in bs;
  }

  lemma WordsComplete(s: Store, bs: seq<Builtin>)
    requires bs == BUILTINS && ExactlyTheBuiltins(s)
    ensures SeedsComplete(s, bs)
  {
    FourSeeds(bs);
    forall b | b in bs
      ensures HasBuiltin(s, b.name, b.displayName)
    {
      OneOfFour(bs, b);
    }
    forall i: Id | i < |s.ents| && IsBuiltin(s.ents[i])
      ensures exists b :: b in bs && RoleNamed(s, i, b.name, true)
    {
      assert bs[0] in bs && bs[1] in bs && bs[2] in bs && bs[3] in bs;
      assert exists k :: 0 <= k < 4 && RoleNamed(s, i, bs[k].name, true);
    }
  }

  // ---------------------------------------------------------------- how far seeding gets

  ghost predicate DistinctNames(bs: seq<Builtin>) {
    forall i, j :: 0 <= i < j < |bs| ==> bs[i].name != bs[j].name
  }

  /** The loop index at which seeding stops when its `creates`+1st creation fails. */
  function StopsAt(s: Store, bs: seq<Builtin>, now: int, creates: nat): (k: nat)
    ensures k <= |bs|
    decreases |bs|, |s.ents|
  {
    if |bs| == 0 then 0
    else if LiveRole(s, bs[0].name) then 1 + StopsAt(s, bs[1..], now, creates)
    else if creates == 0 then 0
    else 1 + StopsAt(Apply(s, Create(TRole, BuiltinProps(s.agency, bs[0], now))), bs[1..], now, creates - 1)
  }

  lemma LiveAfterSeed(s: Store, b: Builtin, now: int, name: string)
    ensures LiveRole(Apply(s, Create(TRole, BuiltinProps(s.agency, b, now))), name) <==>
            LiveRole(s, name) || name == b.name
  {
    var p := BuiltinProps(s.agency, b, now);
    ListAfterCreate(s, TRole, p, TRole, Where(Name, Text(name)));
    assert p[Name] == Text(b.name);
  }

  lemma SeedStepWrites(s: Store, bs: seq<Builtin>, now: int, creates: nat)
    requires |bs| > 0 && !LiveRole(s, bs[0].name) && creates > 0
    ensures var w := Create(TRole, BuiltinProps(s.agency, bs[0], now));
      ApplyAll(s, Cut(SeedWrites(s, bs, now), creates))
      == ApplyAll(Apply(s, w), Cut(SeedWrites(Apply(s, w), bs[1..], now), creates - 1)) &&
      |SeedWrites(s, bs, now)| == 1 + |SeedWrites(Apply(s, w), bs[1..], now)|
  {
    var w := Create(TRole, BuiltinProps(s.agency, bs[0], now));
    var rest := SeedWrites(Apply(s, w), bs[1..], now);
    assert SeedWrites(s, bs, now) == [w] + rest;
    assert Cut([w] + rest, creates) == [w] + Cut(rest, creates - 1);
    assert ([w] + Cut(rest, creates - 1))[1..] == Cut(rest, creates - 1);
  }

  /** One of the first `k` seeds has the name. */
  predicate NameAmong(bs: seq<Builtin>, k: nat, name: string)
    decreases |bs|, k
  {
    |bs| > 0 && k > 0 && (bs[0].name == name || NameAmong(bs[1..], k - 1, name))
  }

  /** When seeding stopped at index `k`: the live role names are the old ones and the first `k` seeds, and
      the name it stopped at is not among them. */
  ghost predicate SeededUpTo(s: Store, t: Store, bs: seq<Builtin>, k: nat) {
    (forall name :: LiveRole(t, name) <==> LiveRole(s, name) || NameAmong(bs, k, name)) &&
    (k < |bs| ==> !LiveRole(t, bs[k].name))
  }

  lemma SeedUnfolds(s: Store, bs: seq<Builtin>, now: int, creates: nat)
    requires |bs| > 0
    ensures var s1 := Apply(s, Create(TRole, BuiltinProps(s.agency, bs[0], now)));
      if LiveRole(s, bs[0].name)
      then |SeedWrites(s, bs, now)| == |SeedWrites(s, bs[1..], now)| &&
           StopsAt(s, bs, now, creates) == 1 + StopsAt(s, bs[1..], now, creates)
      else |SeedWrites(s, bs, now)| == 1 + |SeedWrites(s1, bs[1..], now)| &&
           StopsAt(s, bs, now, creates) == if creates == 0 then 0 else 1 + StopsAt(s1, bs[1..], now, creates - 1)
  {
  }

  lemma AmongNext(bs: seq<Builtin>, k: nat, name: string)
    requires |bs| > 0
    ensures NameAmong(bs, k + 1, name) <==> bs[0].name == name || NameAmong(bs[1..], k, name)
    ensures !NameAmong(bs, 0, name)
  {
  }

  /** From `s` to `t` the first `k` names became live, as far as one name is concerned. */
  predicate LiveUpTo(s: Store, t: Store, bs: seq<Builtin>, k: nat, name: string) {
    LiveRole(t, name) <==> LiveRole(s, name) || NameAmong(bs, k, name)
  }

  lemma LiveSkip(s: Store, t: Store, bs: seq<Builtin>, k: nat, name: string)
    requires |bs| > 0 && LiveRole(s, bs[0].name) && LiveUpTo(s, t, bs[1..], k, name)
    ensures LiveUpTo(s, t, bs, 1 + k, name)
  {
    AmongNext(bs, k, name);
  }

  lemma LiveCreate(s: Store, s1: Store, t: Store, bs: seq<Builtin>, now: int, k: nat, name: string)
    requires |bs| > 0 && s1 == Apply(s, Create(TRole, BuiltinProps(s.agency, bs[0], now)))
    requires LiveUpTo(s1, t, bs[1..], k, name)
    ensures LiveUpTo(s, t, bs, 1 + k, name)
  {
    AmongNext(bs, k, name);
    LiveAfterSeed(s, bs[0], now, name);
  }

  /** The store in which seeding stops when its `creates`+1st creation fails. */
  function Seeded(s: Store, bs: seq<Builtin>, now: int, creates: nat): Store
    decreases |bs|, |s.ents|
  {
    if |bs| == 0 then s
    else if LiveRole(s, bs[0].name) then Seeded(s, bs[1..], now, creates)
    else if creates == 0 then s
    else Seeded(Apply(s, Create(TRole, BuiltinProps(s.agency, bs[0], now))), bs[1..], now, creates - 1)
  }

  lemma SeededBySkip(s: Store, bs: seq<Builtin>, now: int, creates: nat)
    requires |bs| > 0 && LiveRole(s, bs[0].name)
    requires ApplyAll(s, Cut(SeedWrites(s, bs[1..], now), creates)) == Seeded(s, bs[1..], now, creates)
    ensures ApplyAll(s, Cut(SeedWrites(s, bs, now), creates)) == Seeded(s, bs, now, creates)
  {
    assert SeedWrites(s, bs, now) == SeedWrites(s, bs[1..], now);
    assert Seeded(s, bs, now, creates) == Seeded(s, bs[1..], now, creates);
  }

  lemma SeededByCreate(s: Store, s1: Store, bs: seq<Builtin>, now: int, creates: nat)
    requires |bs| > 0 && !LiveRole(s, bs[0].name) && creates > 0
    requires s1 == Apply(s, Create(TRole, BuiltinProps(s.agency, bs[0], now)))
    requires ApplyAll(s1, Cut(SeedWrites(s1, bs[1..], now), creates - 1)) == Seeded(s1, bs[1..], now, creates - 1)
    ensures ApplyAll(s, Cut(SeedWrites(s, bs, now), creates)) == Seeded(s, bs, now, creates)
  {
    SeedStepWrites(s, bs, now, creates);
    assert Seeded(s, bs, now, creates) == Seeded(s1, bs[1..], now, creates - 1);
  }

  lemma SeededNothing(s: Store, bs: seq<Builtin>, now: int, creates: nat)
    requires |bs| == 0 || (creates == 0 && !LiveRole(s, bs[0].name))
    ensures ApplyAll(s, Cut(SeedWrites(s, bs, now), creates)) == s && Seeded(s, bs, now, creates) == s
  {
    assert Cut(SeedWrites(s, bs, now), creates) == [];
  }

  lemma {:induction false} SeededIs(s: Store, bs: seq<Builtin>, now: int, creates: nat)
    ensures ApplyAll(s, Cut(SeedWrites(s, bs, now), creates)) == Seeded(s, bs, now, creates)
    decreases |bs|, 1
  {
    if |bs| == 0 || (creates == 0 && !LiveRole(s, bs[0].name)) {
      SeededNothing(s, bs, now, creates);
    } else {
      SeededRest(s, bs, now, creates);
    }
  }

  lemma {:induction false} SeededRest(s: Store, bs: seq<Builtin>, now: int, creates: nat)
    requires |bs| > 0 && (creates > 0 || LiveRole(s, bs[0].name))
    ensures ApplyAll(s, Cut(SeedWrites(s, bs, now), creates)) == Seeded(s, bs, now, creates)
    decreases |bs|, 0
  {
    if LiveRole(s, bs[0].name) {
      SeededIs(s, bs[1..], now, creates);
      SeededBySkip(s, bs, now, creates);
    } else {
      var s1 := Apply(s, Create(TRole, BuiltinProps(s.agency, bs[0], now)));
      SeededIs(s1, bs[1..], now, creates - 1);
      SeededByCreate(s, s1, bs, now, creates);
    }
  }

  lemma LiveNone(s: Store, bs: seq<Builtin>, name: string)
    ensures LiveUpTo(s, s, bs, 0, name)
  {
  }

  lemma {:induction false} LiveAfterSeeds(s: Store, bs: seq<Builtin>, now: int, creates: nat, t: Store, k: nat,
                                          name: string)
    requires t == Seeded(s, bs, now, creates) && k == StopsAt(s, bs, now, creates)
    ensures LiveUpTo(s, t, bs, k, name)
    decreases |bs|, 1
  {
    if |bs| == 0 || (creates == 0 && !LiveRole(s, bs[0].name)) {
      LiveNone(s, bs, name);
    } else if LiveRole(s, bs[0].name) {
      LiveAfterSkip(s, bs, now, creates, t, k, name);
    } else {
      LiveAfterCreate(s, bs, now, creates, t, k, name);
    }
  }

  lemma {:induction false} LiveAfterSkip(s: Store, bs: seq<Builtin>, now: int, creates: nat, t: Store, k: nat,
                                         name: string)
    requires |bs| > 0 && LiveRole(s, bs[0].name)
    requires t == Seeded(s, bs, now, creates) && k == StopsAt(s, bs, now, creates)
    ensures LiveUpTo(s, t, bs, k, name)
    decreases |bs|, 0
  {
    LiveAfterSeeds(s, bs[1..], now, creates, t, k - 1, name);
    LiveSkip(s, t, bs, k - 1, name);
  }

  lemma {:induction false} LiveAfterCreate(s: Store, bs: seq<Builtin>, now: int, creates: nat, t: Store, k: nat,
                                           name: string)
    requires |bs| > 0 && !LiveRole(s, bs[0].name) && creates > 0
    requires t == Seeded(s, bs, now, creates) && k == StopsAt(s, bs, now, creates)
    ensures LiveUpTo(s, t, bs, k, name)
    decreases |bs|, 0
  {
    var s1 := Apply(s, Create(TRole, BuiltinProps(s.agency, bs[0], now)));
    LiveAfterSeeds(s1, bs[1..], now, creates - 1, t, k - 1, name);
    LiveCreate(s, s1, t, bs, now, k - 1, name);
  }

  lemma {:induction false} NotAmongEarlier(bs: seq<Builtin>, k: nat, name: string)
    requires k <= |bs| && forall i :: 0 <= i < k ==> bs[i].name != name
    ensures !NameAmong(bs, k, name)
    decreases k
  {
    if k > 0 {
      NotAmongEarlier(bs[1..], k - 1, name);
    }
  }

  /** No live role has the name at index `k`, if there is one. */
  predicate FreeAt(s: Store, bs: seq<Builtin>, k: nat) {
    k < |bs| ==> !LiveRole(s, bs[k].name)
  }

  lemma {:induction false} StoppedName(s: Store, bs: seq<Builtin>, now: int, creates: nat, k: nat)
    requires k == StopsAt(s, bs, now, creates)
    ensures FreeAt(s, bs, k)
    decreases |bs|, 1
  {
    if |bs| > 0 && LiveRole(s, bs[0].name) {
      StoppedAfterSkip(s, bs, now, creates, k);
    } else if |bs| > 0 && creates > 0 {
      var s1 := Apply(s, Create(TRole, BuiltinProps(s.agency, bs[0], now)));
      StoppedAfterCreate(s, s1, bs, now, creates, k - 1);
    }
  }

  lemma {:induction false} StoppedAfterSkip(s: Store, bs: seq<Builtin>, now: int, creates: nat, k: nat)
    requires |bs| > 0 && LiveRole(s, bs[0].name) && k == StopsAt(s, bs, now, creates)
    ensures FreeAt(s, bs, k)
    decreases |bs|, 0
  {
    StoppedName(s, bs[1..], now, creates, k - 1);
    assert FreeAt(s, bs[1..], k - 1);
  }

  lemma {:induction false} StoppedAfterCreate(s: Store, s1: Store, bs: seq<Builtin>, now: int, creates: nat, k: nat)
    requires |bs| > 0 && creates > 0 && s1 == Apply(s, Create(TRole, BuiltinProps(s.agency, bs[0], now)))
    requires k == StopsAt(s1, bs[1..], now, creates - 1)
    ensures FreeAt(s, bs, k + 1)
    decreases |bs|, 0
  {
    StoppedName(s1, bs[1..], now, creates - 1, k);
    StoppedLater(s, s1, bs, now, k);
  }

  lemma StoppedLater(s: Store, s1: Store, bs: seq<Builtin>, now: int, k: nat)
    requires |bs| > 0 && s1 == Apply(s, Create(TRole, BuiltinProps(s.agency, bs[0], now)))
    requires FreeAt(s1, bs[1..], k)
    ensures FreeAt(s, bs, k + 1)
  {
    if k < |bs[1..]| {
      assert bs[k + 1] == bs[1..][k];
      LiveAfterSeed(s, bs[0], now, bs[k + 1].name);
    }
  }

  lemma SeedStops(s: Store, bs: seq<Builtin>, now: int, creates: nat, t: Store)
    requires DistinctNames(bs) && t == ApplyAll(s, Cut(SeedWrites(s, bs, now), creates))
    ensures SeededUpTo(s, t, bs, StopsAt(s, bs, now, creates))
  {
    var k := StopsAt(s, bs, now, creates);
    SeededIs(s, bs, now, creates);
    forall name
      ensures LiveRole(t, name) <==> LiveRole(s, name) || NameAmong(bs, k, name)
    {
      LiveAfterSeeds(s, bs, now, creates, t, k, name);
    }
    if k < |bs| {
      StoppedName(s, bs, now, creates, k);
      NotAmongEarlier(bs, k, bs[k].name);
    }
  }

  /** Stopping at `k` after `creates` creations means the end exactly when `planned` creations were enough. */
  predicate EndsTogether(planned: nat, creates: nat, k: nat, end: nat) {
    creates >= planned <==> k == end
  }

  lemma {:induction false} SeedStopsAtEnd(s: Store, bs: seq<Builtin>, now: int, creates: nat)
    ensures EndsTogether(|SeedWrites(s, bs, now)|, creates, StopsAt(s, bs, now, creates), |bs|)
    decreases |bs|, 1
  {
    if |bs| > 0 {
      SeedUnfolds(s, bs, now, creates);
      EndsAfterOne(s, Apply(s, Create(TRole, BuiltinProps(s.agency, bs[0], now))), bs, now, creates);
    }
  }

  lemma {:induction false} EndsAfterOne(s: Store, s1: Store, bs: seq<Builtin>, now: int, creates: nat)
    requires |bs| > 0
    ensures EndsTogether(|SeedWrites(s, bs[1..], now)|, creates, StopsAt(s, bs[1..], now, creates), |bs| - 1)
    ensures creates > 0 ==>
      EndsTogether(|SeedWrites(s1, bs[1..], now)|, creates - 1, StopsAt(s1, bs[1..], now, creates - 1), |bs| - 1)
    decreases |bs|, 0
  {
    SeedStopsAtEnd(s, bs[1..], now, creates);
    if creates > 0 {
      SeedStopsAtEnd(s1, bs[1..], now, creates - 1);
    }
  }

  lemma AfterInit(s: Store, req: OrgRequest, now: int, done: nat)
    requires InitOrganizationPlan(s, req, now).Writes? && done >= 1
    ensures var s1 := Apply(s, Create(TOrganization, OrgProps(s.agency, req, now)));
      AfterCall(s, Call(InitOrganization(req, now), done))
      == ApplyAll(s1, Cut(SeedWrites(s1, BUILTINS, now), done - 1)) &&
      (Finished(s, Call(InitOrganization(req, now), done)) <==> done - 1 >= |SeedWrites(s1, BUILTINS, now)|)
  {
    var w := Create(TOrganization, OrgProps(s.agency, req, now));
    var rest := SeedWrites(Apply(s, w), BUILTINS, now);
    assert InitOrganizationPlan(s, req, now).ws == [w] + rest;
    assert Cut([w] + rest, done) == [w] + Cut(rest, done - 1);
    assert ([w] + Cut(rest, done - 1))[1..] == Cut(rest, done - 1);
  }

  lemma OrgLeavesRoles(s: Store, p: Props, name: string)
    ensures LiveRole(Apply(s, Create(TOrganization, p)), name) <==> LiveRole(s, name)
  {
    ListAfterCreate(s, TOrganization, p, TRole, Where(Name, Text(name)));
  }

  /** The live role names of `t` are those of `s` and the first `k` of the list, and the next one is not among
      them. */
  ghost predicate NamedUpTo(s: Store, t: Store, names: seq<string>, k: nat) {
    k <= |names| && (forall name :: LiveRole(t, name) <==> LiveRole(s, name) || name in names[..k]) &&
    (k < |names| ==> !LiveRole(t, names[k]))
  }

  /** InitOrganization, cut short anywhere after the organization was made: seeding has passed the first `k` of the
      four names and all of them are live roles now, the name it stopped at is not, and no other name appeared. It
      has passed all four exactly when the call finished. */
  lemma SeedingIsAPrefix(s: Store, req: OrgRequest, now: int, done: nat, names: seq<string>)
    requires InitOrganizationPlan(s, req, now).Writes? && done >= 1
    requires names == ["super_admin", "admin", "member", "viewer"]
    ensures var c := Call(InitOrganization(req, now), done);
      exists k: nat :: NamedUpTo(s, AfterCall(s, c), names, k) && (k == 4 <==> Finished(s, c))
  {
    var s1 := Apply(s, Create(TOrganization, OrgProps(s.agency, req, now)));
    AfterInit(s, req, now, done);
    var t := AfterCall(s, Call(InitOrganization(req, now), done));
    var k := SeedsUpTo(s, s1, OrgProps(s.agency, req, now), BUILTINS, now, done - 1, t);
    SeededNames(s, t, BUILTINS, names, k);
  }

  lemma SeededNames(s: Store, t: Store, bs: seq<Builtin>, names: seq<string>, k: nat)
    requires bs == BUILTINS && names == ["super_admin", "admin", "member", "viewer"]
    requires k <= 4 && SeededUpTo(s, t, bs, k)
    ensures NamedUpTo(s, t, names, k)
  {
    FourSeeds(bs);
    forall name
      ensures NameAmong(bs, k, name) <==> name in names[..k]
    {
      AmongNames(bs, names, k, name);
    }
  }

  lemma {:induction false} AmongNames(bs: seq<Builtin>, names: seq<string>, k: nat, name: string)
    requires |names| == |bs| && k <= |bs| && forall i :: 0 <= i < |bs| ==> names[i] == bs[i].name
    ensures NameAmong(bs, k, name) <==> name in names[..k]
    decreases k
  {
    if k > 0 {
      AmongNames(bs[1..], names[1..], k - 1, name);
      assert names[..k] == [names[0]] + names[1..][..k - 1];
    }
  }

  lemma SeedsUpTo(s: Store, s1: Store, org: Props, bs: seq<Builtin>, now: int, creates: nat, t: Store) returns (k: nat)
    requires s1 == Apply(s, Create(TOrganization, org)) && bs == BUILTINS
    requires t == ApplyAll(s1, Cut(SeedWrites(s1, bs, now), creates))
    ensures k <= 4 && SeededUpTo(s, t, bs, k) && (k == 4 <==> creates >= |SeedWrites(s1, bs, now)|)
  {
    k := StopsAt(s1, bs, now, creates);
    DistinctBuiltins(bs);
    SeedStops(s1, bs, now, creates, t);
    SeedStopsAtEnd(s1, bs, now, creates);
    SeededFrom(s, s1, org, t, bs, k);
  }

  lemma DistinctBuiltins(bs: seq<Builtin>)
    requires bs == BUILTINS
    ensures DistinctNames(bs) && |bs| == 4
  {
  }

  lemma SeededFrom(s: Store, s1: Store, org: Props, t: Store, bs: seq<Builtin>, k: nat)
    requires s1 == Apply(s, Create(TOrganization, org)) && SeededUpTo(s1, t, bs, k)
    ensures SeededUpTo(s, t, bs, k)
  {
    forall name
      ensures LiveRole(s1, name) <==> LiveRole(s, name)
    {
      OrgLeavesRoles(s, org, name);
    }
  }

  // ---------------------------------------------------------------- what success leaves behind

  lemma {:induction false} SeedsAreBuiltin(s: Store, bs: seq<Builtin>, now: int)
    ensures var t := ApplyAll(s, SeedWrites(s, bs, now));
      |s.ents| <= |t.ents| &&
      (forall i :: 0 <= i < |s.ents| ==> t.ents[i] == s.ents[i]) &&
      (forall i :: |s.ents| <= i < |t.ents| ==> IsBuiltin(t.ents[i]) && !t.ents[i].deleted)
    decreases |bs|
  {
    if |bs| > 0 {
      if LiveRole(s, bs[0].name) {
        SeedsAreBuiltin(s, bs[1..], now);
      } else {
        var p := BuiltinProps(s.agency, bs[0], now);
        var s1 := Apply(s, Create(TRole, p));
        var rest := SeedWrites(s1, bs[1..], now);
        SeedsAreBuiltin(s1, bs[1..], now);
        assert ApplyAll(s, SeedWrites(s, bs, now)) == ApplyAll(s1, rest) by {
          assert SeedWrites(s, bs, now) == [Create(TRole, p)] + rest;
          assert ([Create(TRole, p)] + rest)[1..] == rest;
        }
        assert s1.ents[|s.ents|] == Entity(TRole, p, false) && PropBool(p, EntityGraph.Builtin);
      }
    }
  }

  /** The store after a finished InitOrganization. */
  ghost predicate Initialized(s: Store, t: Store) {
    |s.ents| < |t.ents| &&
    (forall i :: 0 <= i < |s.ents| ==> t.ents[i] == s.ents[i]) &&
    t.ents[|s.ents|].typ == TOrganization && !t.ents[|s.ents|].deleted &&
    (forall i :: |s.ents| < i < |t.ents| ==> IsBuiltin(t.ents[i]) && !t.ents[i].deleted) &&
    (forall b :: b in BUILTINS ==> LiveRole(t, b.name))
  }

  lemma InitInitializes(s: Store, req: OrgRequest, now: int, done: nat, t: Store)
    requires Finished(s, Call(InitOrganization(req, now), done)) &&
             t == AfterCall(s, Call(InitOrganization(req, now), done))
    ensures Initialized(s, t)
  {
    var org := OrgProps(s.agency, req, now);
    var s1 := Apply(s, Create(TOrganization, org));
    AfterInit(s, req, now, done);
    CutAll(SeedWrites(s1, BUILTINS, now), done - 1);
    AllSeedsInitialize(s, s1, org, BUILTINS, now, t);
  }

  lemma AllSeedsInitialize(s: Store, s1: Store, org: Props, bs: seq<Builtin>, now: int, t: Store)
    requires s1 == Apply(s, Create(TOrganization, org)) && bs == BUILTINS && t == ApplyAll(s1, SeedWrites(s1, bs, now))
    ensures Initialized(s, t)
  {
    DistinctBuiltins(bs);
    AllSeeded(s1, bs, now);
    SeedsAreBuiltin(s1, bs, now);
    SeededInitializes(s, s1, t, org);
  }

  lemma AllSeeded(s: Store, bs: seq<Builtin>, now: int)
    requires DistinctNames(bs)
    ensures forall b :: b in bs ==> LiveRole(ApplyAll(s, SeedWrites(s, bs, now)), b.name)
  {
    var ws := SeedWrites(s, bs, now);
    SeedStopsAtEnd(s, bs, now, |ws|);
    assert Cut(ws, |ws|) == ws;
    SeedStops(s, bs, now, |ws|, ApplyAll(s, ws));
    AllUpTo(s, ApplyAll(s, ws), bs);
  }

  lemma {:induction false} AmongAll(bs: seq<Builtin>, b: Builtin)
    requires b in bs
    ensures NameAmong(bs, |bs|, b.name)
    decreases |bs|
  {
    if bs[0] != b {
      AmongAll(bs[1..], b);
    }
  }

  lemma AllUpTo(s: Store, t: Store, bs: seq<Builtin>)
    requires SeededUpTo(s, t, bs, |bs|)
    ensures forall b :: b in bs ==> LiveRole(t, b.name)
  {
    forall b | b in bs
      ensures LiveRole(t, b.name)
    {
      AmongAll(bs, b);
    }
  }

  lemma SeededInitializes(s: Store, s1: Store, t: Store, org: Props)
    requires s1 == Apply(s, Create(TOrganization, org)) && |s1.ents| <= |t.ents|
    requires forall i :: 0 <= i < |s1.ents| ==> t.ents[i] == s1.ents[i]
    requires forall i :: |s1.ents| <= i < |t.ents| ==> IsBuiltin(t.ents[i]) && !t.ents[i].deleted
    requires forall b :: b in BUILTINS ==> LiveRole(t, b.name)
    ensures Initialized(s, t)
  {
    assert t.ents[|s.ents|] == s1.ents[|s.ents|];
    forall i | 0 <= i < |s.ents|
      ensures t.ents[i] == s.ents[i]
    {
      assert t.ents[i] == s1.ents[i];
    }
  }

  /** A built-in role of a sound store is one of the seeds, by name and display name. */
  lemma SeedOf(s: Store, bs: seq<Builtin>, i: Id) returns (b: Builtin)
    requires EntitiesSound(s) && i < |s.ents| && IsBuiltin(s.ents[i]) && bs == BUILTINS
    ensures b in bs && ShownAs(s, i, b.name, b.displayName)
  {
    assert EntitySound(s, s.ents[i]);
    b := SeedWith(s.ents[i].props, bs);
  }

  lemma SeedWith(p: Props, bs: seq<Builtin>) returns (b: Builtin)
    requires Seeds(p) && bs == BUILTINS
    ensures b in bs && Has(Entity(TRole, p, false), Name, Text(b.name)) && PropStr(p, DisplayName) == b.displayName
  {
    b :| b in bs && Name in p && p[Name] == Text(b.name) && DisplayName in p && p[DisplayName] == Text(b.displayName);
  }

  lemma BuiltinRoleNamed(s: Store, bs: seq<Builtin>, i: Id)
    requires EntitiesSound(s) && i < |s.ents| && IsBuiltin(s.ents[i]) && bs == BUILTINS
    ensures exists b :: b in bs && RoleNamed(s, i, b.name, true)
  {
    var b := SeedOf(s, bs, i);
  }

  /** In every reachable store a built-in role is live and one of the four, under its own display name. */
  lemma BuiltinsAreSeeds(agency: string, calls: seq<Call>, i: Id)
    requires ValidRun(agency, calls)
    requires i < |Run(agency, calls).ents| && IsBuiltin(Run(agency, calls).ents[i])
    ensures var s := Run(agency, calls);
      ShownAs(s, i, "super_admin", "Super Admin") || ShownAs(s, i, "admin", "Admin") ||
      ShownAs(s, i, "member", "Member") || ShownAs(s, i, "viewer", "Viewer")
  {
    RunKeepsInv(agency, calls);
    var bs := BUILTINS;
    var b := SeedOf(Run(agency, calls), bs, i);
    FourSeeds(bs);
    OneOfFour(bs, b);
  }

  lemma OneRolePerName(s: Store, i: Id, j: Id, name: string, x: bool, y: bool)
    requires UniqueKeys(s) && RoleNamed(s, i, name, x) && RoleNamed(s, j, name, y)
    ensures i == j
  {
    var f := Where(Name, Text(name));
    assert Key(TRole) == Some(Name) && AtMostOne(s, TRole, f);
    assert Hits(s, i, TRole, f) && Hits(s, j, TRole, f);
  }

  lemma BuiltinsWhenNoneCustom(s: Store, bs: seq<Builtin>)
    requires Inv(s) && bs == BUILTINS && forall b :: b in bs ==> LiveRole(s, b.name) && !CustomHolds(s, b.name)
    ensures ExactlyTheBuiltins(s)
  {
    forall b | b in bs
      ensures HasBuiltin(s, b.name, b.displayName)
    {
      NotCustomIsBuiltin(s, bs, b);
    }
    NamedOnce(s);
    forall i: Id | i < |s.ents| && IsBuiltin(s.ents[i])
      ensures exists b :: b in bs && RoleNamed(s, i, b.name, true)
    {
      BuiltinRoleNamed(s, bs, i);
    }
    CompleteInWords(s, bs);
  }

  lemma NamedOnce(s: Store)
    requires UniqueKeys(s)
    ensures BuiltinsOnce(s)
  {
    forall i: Id, j: Id, name | RoleNamed(s, i, name, true) && RoleNamed(s, j, name, true)
      ensures i == j
    {
      OneRolePerName(s, i, j, name, true, true);
    }
  }

  lemma NotCustomIsBuiltin(s: Store, bs: seq<Builtin>, b: Builtin)
    requires EntitiesSound(s) && bs == BUILTINS && b in bs && LiveRole(s, b.name) && !CustomHolds(s, b.name)
    ensures HasBuiltin(s, b.name, b.displayName)
  {
    var i := List(s.ents, TRole, Where(Name, Text(b.name)))[0];
    assert RoleNamed(s, i, b.name, IsBuiltin(s.ents[i]));
    var c := SeedOf(s, bs, i);
    SameSeed(bs, b, c);
  }

  lemma SameSeed(bs: seq<Builtin>, b: Builtin, c: Builtin)
    requires bs == BUILTINS && b in bs && c in bs && b.name == c.name
    ensures b == c
  {
    DistinctBuiltins(bs);
  }

  lemma CustomBefore(s: Store, t: Store, name: string)
    requires Initialized(s, t)
    ensures CustomHolds(t, name) <==> CustomHolds(s, name)
  {
    if CustomHolds(s, name) {
      var i: Id :| RoleNamed(s, i, name, false);
      assert RoleNamed(t, i, name, false);
    }
    if CustomHolds(t, name) {
      var i: Id :| RoleNamed(t, i, name, false);
      assert i < |s.ents| && RoleNamed(s, i, name, false);
    }
  }

  /** After a finished InitOrganization the four names are all live roles, and they are exactly the built-in
      roles if and only if no live custom role had one of the names before the call. */
  lemma SeedingSucceeds(agency: string, calls: seq<Call>, req: OrgRequest, now: int, done: nat)
    requires ValidRun(agency, calls) && Finished(Run(agency, calls), Call(InitOrganization(req, now), done))
    ensures var s, t := Run(agency, calls), Run(agency, calls + [Call(InitOrganization(req, now), done)]);
      LiveRole(t, "super_admin") && LiveRole(t, "admin") && LiveRole(t, "member") && LiveRole(t, "viewer") &&
      (ExactlyTheBuiltins(t) <==> NamesFree(s))
  {
    var c := Call(InitOrganization(req, now), done);
    var s, t := Run(agency, calls), Run(agency, calls + [c]);
    RunSnoc(agency, calls, c);
    RunKeepsInv(agency, calls + [c]);
    InitInitializes(s, req, now, done, t);
    InitializedLive(s, t, BUILTINS);
    InitializedBuiltins(s, t, BUILTINS);
  }

  lemma InitializedLive(s: Store, t: Store, bs: seq<Builtin>)
    requires Initialized(s, t) && bs == BUILTINS
    ensures LiveRole(t, "super_admin") && LiveRole(t, "admin") && LiveRole(t, "member") && LiveRole(t, "viewer")
  {
    FourSeeds(bs);
    assert bs[0] in bs && bs[1] in bs && bs[2] in bs && bs[3] in bs;
  }

  lemma InitializedBuiltins(s: Store, t: Store, bs: seq<Builtin>)
    requires Inv(t) && Initialized(s, t) && bs == BUILTINS
    ensures ExactlyTheBuiltins(t) <==> NamesFree(s)
  {
    FreeBefore(s, t);
    if NamesFree(t) {
      NamesFreeSeedwise(t, bs);
      BuiltinsWhenNoneCustom(t, bs);
    }
    if ExactlyTheBuiltins(t) {
      BuiltinsExcludeCustoms(t);
    }
  }

  lemma FreeBefore(s: Store, t: Store)
    requires Initialized(s, t)
    ensures NamesFree(t) <==> NamesFree(s)
  {
    CustomBefore(s, t, "super_admin");
    CustomBefore(s, t, "admin");
    CustomBefore(s, t, "member");
    CustomBefore(s, t, "viewer");
  }

  lemma BuiltinsExcludeCustoms(s: Store)
    requires UniqueKeys(s) && ExactlyTheBuiltins(s)
    ensures NamesFree(s)
  {
    BuiltinExcludesCustom(s, "super_admin");
    BuiltinExcludesCustom(s, "admin");
    BuiltinExcludesCustom(s, "member");
    BuiltinExcludesCustom(s, "viewer");
  }

  lemma BuiltinExcludesCustom(s: Store, name: string)
    requires UniqueKeys(s) && exists i: Id :: RoleNamed(s, i, name, true)
    ensures !CustomHolds(s, name)
  {
    var i: Id :| RoleNamed(s, i, name, true);
    forall j: Id
      ensures !RoleNamed(s, j, name, false)
    {
      if RoleNamed(s, j, name, false) {
        OneRolePerName(s, i, j, name, true, false);
      }
    }
  }

  lemma OneCustomRole(agency: string, req: RoleRequest, now: int)
    ensures var calls := [Call(CreateRole(req, now), 1)];
      ValidRun(agency, calls) && CustomHolds(Run(agency, calls), req.name) &&
      List(Run(agency, calls).ents, TOrganization, Any) == []
  {
    var w, c := Create(TRole, RoleProps(agency, req, now)), Call(CreateRole(req, now), 1);
    var t := Apply(EmptyStore(agency), w);
    assert ValidRun(agency, [c]) && Run(agency, [c]) == t by {
      RunSnoc(agency, [], c);
      assert [] + [c] == [c];
      assert Plan(EmptyStore(agency), c.op) == Writes([w]);
      assert Cut([w], 1) == [w] && ApplyAll(EmptyStore(agency), [w]) == t;
    }
    assert RoleNamed(t, 0, req.name, false) by {
      assert w.props[Name] == Text(req.name) && !PropBool(w.props, EntityGraph.Builtin);
    }
    ListEmpty(t.ents, TOrganization, Any);
  }

  /** A concrete run with fewer than four built-in roles: a custom role named "admin" was there first. */
  lemma CustomAdminExample(agency: string, req: OrgRequest, now: int, done: nat)
    requires var s := Run(agency, [Call(CreateRole(RoleRequest("admin", "", ""), 0), 1)]);
      Complete(InitOrganizationPlan(s, req, now), done)
    ensures var calls := [Call(CreateRole(RoleRequest("admin", "", ""), 0), 1)];
      ValidRun(agency, calls + [Call(InitOrganization(req, now), done)]) &&
      !ExactlyTheBuiltins(Run(agency, calls + [Call(InitOrganization(req, now), done)]))
  {
    var calls, c := [Call(CreateRole(RoleRequest("admin", "", ""), 0), 1)], Call(InitOrganization(req, now), done);
    OneCustomRole(agency, RoleRequest("admin", "", ""), 0);
    RunSnoc(agency, calls, c);
    SeedingSucceeds(agency, calls, req, now, done);
  }

  // ---------------------------------------------------------------- persistence and repair

  lemma BuiltinStays(s: Store, t: Store, i: Id, name: string)
    requires EntitiesSound(t) && Evolves(s, t) && RoleNamed(s, i, name, true)
    ensures RoleNamed(t, i, name, true)
  {
    assert EntityEvolves(s.ents[i], t.ents[i]) && EntitySound(t, t.ents[i]);
  }

  lemma BuiltinsStay(s: Store, t: Store, bs: seq<Builtin>)
    requires Inv(t) && Evolves(s, t) && ExactlyTheBuiltins(s) && bs == BUILTINS
    ensures ExactlyTheBuiltins(t)
  {
    WordsComplete(s, bs);
    forall b | b in bs
      ensures LiveRole(t, b.name) && !CustomHolds(t, b.name)
    {
      var i: Id :| ShownAs(s, i, b.name, b.displayName);
      BuiltinStays(s, t, i, b.name);
      assert i in List(t.ents, TRole, Where(Name, Text(b.name)));
      BuiltinExcludesCustom(t, b.name);
    }
    BuiltinsWhenNoneCustom(t, bs);
  }

  /** Once complete, the built-in roles stay exactly the four, whatever happens. */
  lemma BuiltinsPersist(agency: string, calls: seq<Call>, more: seq<Call>)
    requires ValidRun(agency, calls + more) && ExactlyTheBuiltins(Run(agency, calls))
    ensures ExactlyTheBuiltins(Run(agency, calls + more))
  {
    RunKeepsInv(agency, calls + more);
    RunEvolves(agency, calls, more);
    BuiltinsStay(Run(agency, calls), Run(agency, calls + more), BUILTINS);
  }

  /** InitOrganization cannot be retried: after a call that was cut short anywhere a retry is refused if and only
      if the organization itself was made, seeded or not. */
  lemma RetryIsRefused(s: Store, req: OrgRequest, now: int, done: nat, again: OrgRequest, later: int)
    requires InitOrganizationPlan(s, req, now).Writes?
    ensures var retry := InitOrganizationPlan(AfterCall(s, Call(InitOrganization(req, now), done)), again, later);
      (retry.Refused? <==> done >= 1) && (done >= 1 ==> retry == Refused(OrgAlreadyExists))
  {
    var ws := InitOrganizationPlan(s, req, now).ws;
    var t := ApplyAll(s, Cut(ws, done));
    if done == 0 {
      assert Cut(ws, 0) == [];
    } else {
      InitCreates(s, req, now);
      FirstCreate(s, ws, done, {TOrganization, TRole});
      assert |s.ents| in List(t.ents, TOrganization, Any);
    }
  }

  lemma DeleteClears(s: Store)
    requires UniqueKeys(s) && List(s.ents, TOrganization, Any) != []
    ensures var t := Apply(s, Delete(List(s.ents, TOrganization, Any)[0])); List(t.ents, TOrganization, Any) == []
  {
    DeletionRemoves(s, TOrganization, Any);
  }

  lemma AfterDelete(s: Store)
    requires List(s.ents, TOrganization, Any) != []
    ensures AfterCall(s, Call(DeleteOrganization, 1)) == Apply(s, Delete(List(s.ents, TOrganization, Any)[0]))
  {
    var w := Delete(List(s.ents, TOrganization, Any)[0]);
    assert Cut([w], 1) == [w];
    assert ApplyAll(s, [w]) == Apply(s, w);
  }

  /** Deleting the organization and initializing again without a failure repairs any seeding, however
      far it got: every name is live exactly once, and every role that was live before still is. */
  lemma DeleteThenInitRepairs(agency: string, calls: seq<Call>, req: OrgRequest, now: int, done: nat)
    requires ValidRun(agency, calls) && List(Run(agency, calls).ents, TOrganization, Any) != []
    ensures var deleted := calls + [Call(DeleteOrganization, 1)];
      ValidRun(agency, deleted + [Call(InitOrganization(req, now), done)]) &&
      InitOrganizationPlan(Run(agency, deleted), req, now).Writes? &&
      (Finished(Run(agency, deleted), Call(InitOrganization(req, now), done)) ==>
        Repaired(Run(agency, calls), Run(agency, deleted + [Call(InitOrganization(req, now), done)])))
  {
    var s, d, c := Run(agency, calls), Call(DeleteOrganization, 1), Call(InitOrganization(req, now), done);
    RunSnoc(agency, calls, d);
    RunSnoc(agency, calls + [d], c);
    RunKeepsInv(agency, calls);
    AfterDelete(s);
    DeleteClears(s);
    if Finished(Run(agency, calls + [d]), c) {
      InitInitializes(Run(agency, calls + [d]), req, now, done, Run(agency, calls + [d] + [c]));
      RunKeepsInv(agency, calls + [d] + [c]);
      RepairedBy(s, Run(agency, calls + [d]), Run(agency, calls + [d] + [c]));
    }
  }

  function RolesNamed(s: Store, name: string): seq<Id> {
    List(s.ents, TRole, Where(Name, Text(name)))
  }

  /** One live role for each of the four names, and the old roles are all still there. */
  ghost predicate Repaired(s: Store, t: Store) {
    |RolesNamed(t, "super_admin")| == 1 && |RolesNamed(t, "admin")| == 1 && |RolesNamed(t, "member")| == 1 &&
    |RolesNamed(t, "viewer")| == 1 && |List(t.ents, TOrganization, Any)| == 1 &&
    forall i: Id, name, builtin :: RoleNamed(s, i, name, builtin) ==> RoleNamed(t, i, name, builtin)
  }

  lemma ListedOnce(s: Store, t: TypeName, f: Filter)
    requires AtMostOne(s, t, f) && List(s.ents, t, f) != []
    ensures |List(s.ents, t, f)| == 1
  {
    var found := List(s.ents, t, f);
    if |found| > 1 {
      assert Hits(s, found[0], t, f) && Hits(s, found[1], t, f);
    }
  }

  lemma RepairedBy(s: Store, mid: Store, t: Store)
    requires List(s.ents, TOrganization, Any) != [] && mid == Apply(s, Delete(List(s.ents, TOrganization, Any)[0]))
    requires Initialized(mid, t) && UniqueKeys(t)
    ensures Repaired(s, t)
  {
    NamesOnce(mid, t);
    OneNewOrganization(mid, t);
    forall i: Id, name, builtin | RoleNamed(s, i, name, builtin)
      ensures RoleNamed(t, i, name, builtin)
    {
      RoleKept(s, List(s.ents, TOrganization, Any)[0], mid, t, i, name, builtin);
    }
  }

  lemma NamesOnce(mid: Store, t: Store)
    requires Initialized(mid, t) && UniqueKeys(t)
    ensures |RolesNamed(t, "super_admin")| == 1 && |RolesNamed(t, "admin")| == 1
    ensures |RolesNamed(t, "member")| == 1 && |RolesNamed(t, "viewer")| == 1
  {
    InitializedLive(mid, t, BUILTINS);
    LiveRoleOnce(t, "super_admin");
    LiveRoleOnce(t, "admin");
    LiveRoleOnce(t, "member");
    LiveRoleOnce(t, "viewer");
  }

  lemma LiveRoleOnce(s: Store, name: string)
    requires UniqueKeys(s) && LiveRole(s, name)
    ensures |RolesNamed(s, name)| == 1
  {
    assert Key(TRole) == Some(Name);
    ListedOnce(s, TRole, Where(Name, Text(name)));
  }

  lemma OneNewOrganization(mid: Store, t: Store)
    requires Initialized(mid, t) && UniqueKeys(t)
    ensures |List(t.ents, TOrganization, Any)| == 1
  {
    assert |mid.ents| in List(t.ents, TOrganization, Any);
    ListedOnce(t, TOrganization, Any);
  }

  lemma RoleKept(s: Store, org: Id, mid: Store, t: Store, i: Id, name: string, builtin: bool)
    requires org < |s.ents| && s.ents[org].typ == TOrganization && mid == Apply(s, Delete(org))
    requires Initialized(mid, t) && RoleNamed(s, i, name, builtin)
    ensures RoleNamed(t, i, name, builtin)
  {
    RoleOutlivesOrganization(s, org, i, name, builtin);
    OldStays(mid, t, i);
  }

  lemma RoleOutlivesOrganization(s: Store, org: Id, i: Id, name: string, builtin: bool)
    requires org < |s.ents| && s.ents[org].typ == TOrganization && RoleNamed(s, i, name, builtin)
    ensures i < |Apply(s, Delete(org)).ents| && Apply(s, Delete(org)).ents[i] == s.ents[i]
  {
  }

  lemma OldStays(s: Store, t: Store, i: Id)
    requires Initialized(s, t) && i < |s.ents|
    ensures t.ents[i] == s.ents[i]
  {
  }
}
