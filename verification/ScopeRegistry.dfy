/** The scopes of a run as what they stand for: a map from name to owner, description and dates. */
module ScopeRegistry {
  import opened Wrappers
  import opened EntityGraph
  import opened Helpers
  import opened ScopeGrammar
  import opened Operations
  import opened Invariants
  import opened PlansLegal
  import opened Footprints
  import opened ReadBack

  type Registry = map<string, Scope>

  // ---------------------------------------------------------------- the map

  function Get(reg: Registry, name: string): Option<Scope> {
    if name in reg then Some(reg[name]) else None
  }

  function RegisterVerdict(reg: Registry, req: ScopeRequest): Option<Error> {
    if !MatchScope(req.name) then Some(InvalidScope)
    else if Reserved(req) then Some(ScopeReserved)
    else if req.name in reg && reg[req.name].registeredBy != req.registeredBy then Some(ScopeNameCollision)
    else None
  }

  function Registered(reg: Registry, agency: string, next: Id, req: ScopeRequest, now: int): Registry {
    if RegisterVerdict(reg, req).Some? then reg
    else if req.name in reg
    then reg[req.name := reg[req.name].(description := req.description, updatedAt := now, deprecatedAt := None)]
    else reg[req.name := Scope(next, agency, req.name, req.registeredBy, req.description, now, now, None)]
  }

  function Deprecated(reg: Registry, id: Id, now: int): Registry {
    map name | name in reg ::
      if reg[name].id == id then reg[name].(updatedAt := now, deprecatedAt := Some(now)) else reg[name]
  }

  /** The registry after one more call. */
  function Step(reg: Registry, agency: string, next: Id, c: Call): Registry {
    if c.done == 0 then reg else
    match c.op
    case RegisterScope(req, now) => Registered(reg, agency, next, req, now)
    case DeprecateScope(id, now) => Deprecated(reg, id, now)
    case _ => reg
  }

  /** The registry after a run; the run itself only supplies the identifiers of new scopes. */
  function RegistryOf(agency: string, calls: seq<Call>): Registry {
    if |calls| == 0 then map[]
    else
      var before := calls[..|calls| - 1];
      Step(RegistryOf(agency, before), agency, |Run(agency, before).ents|, calls[|calls| - 1])
  }

  predicate SameIdentity(a: Scope, b: Scope) {
    a.id == b.id && a.agencyId == b.agencyId && a.name == b.name && a.registeredBy == b.registeredBy &&
    a.createdAt == b.createdAt
  }

  lemma StepKeepsIdentity(reg: Registry, agency: string, next: Id, c: Call, name: string)
    requires name in reg
    ensures name in Step(reg, agency, next, c) && SameIdentity(reg[name], Step(reg, agency, next, c)[name])
  {
  }

  // ---------------------------------------------------------------- the store as a registry

  function Named(s: Store, name: string): seq<Id> {
    List(s.ents, TScope, Where(Name, Text(name)))
  }

  /** What a lookup by name reads back. */
  function Lookup(s: Store, name: string): Option<Scope> {
    if Named(s, name) == [] then None else Some(ToScope(Record(Named(s, name)[0], s.ents[Named(s, name)[0]])))
  }

  ghost predicate Represents(s: Store, reg: Registry) {
    forall name :: Lookup(s, name) == Get(reg, name)
  }

  lemma VerdictAgrees(s: Store, reg: Registry, req: ScopeRequest, now: int)
    requires Represents(s, reg)
    ensures RegisterVerdict(reg, req) ==
            if RegisterScopePlan(s, req, now).Refused? then Some(RegisterScopePlan(s, req, now).error) else None
  {
    assert Lookup(s, req.name) == Get(reg, req.name);
    OwnerReadsBack(s, req.name);
    VerdictOnOwner(s, reg, req, now);
  }

  /** A name with one of the two reserved prefixes, asked for by another service than the organization's own. */
  ghost predicate NotTheirs(req: ScopeRequest) {
    req.registeredBy != "codevaldorg" &&
    exists action :: Spells(req.name, "org", action) || Spells(req.name, "audit", action)
  }

  lemma ReservedMeans(req: ScopeRequest)
    ensures MatchScope(req.name) && Reserved(req) <==> NotTheirs(req)
  {
    SpelledWith(req.name, "org");
    SpelledWith(req.name, "audit");
  }

  /** A registration is refused as reserved if and only if it is of a name of the grammar with prefix `org` or
      `audit` and not by `codevaldorg`, and as invalid if and only if the name is none of the grammar. */
  lemma ReservedExactly(s: Store, req: ScopeRequest, now: int)
    ensures RegisterScopePlan(s, req, now) == Refused(ScopeReserved) <==> NotTheirs(req)
    ensures RegisterScopePlan(s, req, now) == Refused(InvalidScope) <==>
            !exists prefix, action :: Spells(req.name, prefix, action)
  {
    MatchScopeExactly(req.name);
    ReservedMeans(req);
  }

  lemma OwnerReadsBack(s: Store, name: string)
    ensures Lookup(s, name).None? <==> Named(s, name) == []
    ensures Named(s, name) != [] ==>
      Lookup(s, name).value.registeredBy == PropStr(s.ents[Named(s, name)[0]].props, RegisteredBy)
  {
  }

  lemma VerdictOnOwner(s: Store, reg: Registry, req: ScopeRequest, now: int)
    requires req.name in reg <==> Named(s, req.name) != []
    requires req.name in reg ==>
             reg[req.name].registeredBy == PropStr(s.ents[Named(s, req.name)[0]].props, RegisteredBy)
    ensures RegisterVerdict(reg, req) ==
            if RegisterScopePlan(s, req, now).Refused? then Some(RegisterScopePlan(s, req, now).error) else None
  {
  }

  lemma SameLookup(s: Store, t: Store, name: string)
    requires Named(t, name) == Named(s, name)
    requires Named(s, name) != [] ==> t.ents[Named(s, name)[0]] == s.ents[Named(s, name)[0]]
    ensures Lookup(t, name) == Lookup(s, name)
  {
  }

  lemma NamedAfterCreate(s: Store, p: Props, own: string, name: string)
    requires Name in p && p[Name] == Text(own)
    ensures Named(Apply(s, Create(TScope, p)), name) == Named(s, name) + (if name == own then [|s.ents|] else [])
  {
    ListAfterCreate(s, TScope, p, TScope, Where(Name, Text(name)));
  }

  lemma CreatedScope(s: Store, p: Props, own: string, name: string)
    requires Name in p && p[Name] == Text(own) && Named(s, own) == []
    ensures Lookup(Apply(s, Create(TScope, p)), name) ==
            if name == own then Some(ToScope(Record(|s.ents|, Entity(TScope, p, false)))) else Lookup(s, name)
  {
    var t := Apply(s, Create(TScope, p));
    NamedAfterCreate(s, p, own, name);
    if name == own {
      assert Named(t, name) == [|s.ents|] && t.ents[|s.ents|] == Entity(TScope, p, false);
    } else {
      assert Named(t, name) == Named(s, name);
      SameLookup(s, t, name);
    }
  }

  lemma PatchKeepsMatch(e: Entity, patch: Props, typ: TypeName, f: Filter)
    requires f.Where? ==> f.prop !in patch
    ensures Matches(Merged(e, patch), typ, f) == Matches(e, typ, f)
  {
  }

  lemma ListAfterPatch(ents: seq<Entity>, i: Id, patch: Props, typ: TypeName, f: Filter)
    requires i < |ents| && (f.Where? ==> f.prop !in patch)
    ensures List(ents[i := Merged(ents[i], patch)], typ, f) == List(ents, typ, f)
  {
    PatchKeepsMatch(ents[i], patch, typ, f);
    ListSameMatches(ents, ents[i := Merged(ents[i], patch)], typ, f);
  }

  /** A patch without a name leaves every lookup but the patched scope's own. */
  lemma PatchedScope(s: Store, i: Id, patch: Props, name: string)
    requires i < |s.ents| && Name !in patch
    ensures Lookup(Apply(s, Update(i, patch)), name) ==
        if Named(s, name) != [] && Named(s, name)[0] == i
        then Some(ToScope(Record(i, Merged(s.ents[i], patch))))
        else Lookup(s, name)
  {
    var t := Apply(s, Update(i, patch));
    ListAfterPatch(s.ents, i, patch, TScope, Where(Name, Text(name)));
    assert Named(t, name) == Named(s, name);
    assert t.ents[i] == Merged(s.ents[i], patch);
    if Named(s, name) == [] || Named(s, name)[0] != i {
      SameLookup(s, t, name);
    }
  }

  lemma PatchNames(req: ScopeRequest, now: int)
    ensures Name !in ScopePatch(req, now) && Name !in DeprecationPatch(now)
  {
  }

  lemma NamedApart(s: Store, a: string, b: string)
    requires a != b && Named(s, a) != [] && Named(s, b) != []
    ensures Named(s, a)[0] != Named(s, b)[0]
  {
    assert Has(s.ents[Named(s, a)[0]], Name, Text(a)) && Has(s.ents[Named(s, b)[0]], Name, Text(b));
  }

  lemma GetRegistered(reg: Registry, agency: string, next: Id, req: ScopeRequest, now: int, name: string)
    requires RegisterVerdict(reg, req).None?
    ensures Get(Registered(reg, agency, next, req, now), name) ==
      if name != req.name then Get(reg, name)
      else if req.name !in reg then Some(Scope(next, agency, req.name, req.registeredBy, req.description,
                                               now, now, None))
      else Some(reg[req.name].(description := req.description, updatedAt := now, deprecatedAt := None))
  {
  }

  lemma GetDeprecated(reg: Registry, id: Id, now: int, name: string)
    ensures Get(Deprecated(reg, id, now), name) ==
      if name in reg && reg[name].id == id then Some(reg[name].(updatedAt := now, deprecatedAt := Some(now)))
      else Get(reg, name)
  {
  }

  lemma CreateRefinesName(s: Store, reg: Registry, req: ScopeRequest, now: int, name: string)
    requires Represents(s, reg) && Named(s, req.name) == [] && RegisterVerdict(reg, req).None?
    ensures var after := Registered(reg, s.agency, |s.ents|, req, now);
      Lookup(Apply(s, Create(TScope, ScopeProps(s.agency, req, now))), name) == Get(after, name)
  {
    var p := ScopeProps(s.agency, req, now);
    assert Lookup(Apply(s, Create(TScope, p)), name) ==
           if name == req.name then Some(ToScope(Record(|s.ents|, Entity(TScope, p, false)))) else Lookup(s, name) by {
      assert p[Name] == Text(req.name);
      CreatedScope(s, p, req.name, name);
    }
    NewScope(|s.ents|, s.agency, req, now);
    Unregistered(s, reg, req.name);
    assert Lookup(s, name) == Get(reg, name);
    GetRegistered(reg, s.agency, |s.ents|, req, now, name);
  }

  lemma Unregistered(s: Store, reg: Registry, name: string)
    requires Represents(s, reg)
    ensures Named(s, name) == [] <==> name !in reg
  {
    assert Lookup(s, name) == Get(reg, name);
  }

  lemma UpdateRefinesName(s: Store, reg: Registry, req: ScopeRequest, now: int, name: string)
    requires Represents(s, reg) && Named(s, req.name) != [] && RegisterVerdict(reg, req).None?
    ensures var after := Registered(reg, s.agency, |s.ents|, req, now);
      Lookup(Apply(s, Update(Named(s, req.name)[0], ScopePatch(req, now))), name) == Get(after, name)
  {
    var id := Named(s, req.name)[0];
    PatchNames(req, now);
    PatchedScope(s, id, ScopePatch(req, now), name);
    RefreshedScope(Record(id, s.ents[id]), req, now);
    assert Lookup(s, name) == Get(reg, name);
    assert Lookup(s, req.name) == Get(reg, req.name);
    GetRegistered(reg, s.agency, |s.ents|, req, now, name);
    if name != req.name && Named(s, name) != [] {
      NamedApart(s, name, req.name);
    }
  }

  lemma RegisterWrite(s: Store, req: ScopeRequest, now: int, w: Write)
    requires RegisterScopePlan(s, req, now) == Writes([w])
    ensures w == if Named(s, req.name) == [] then Create(TScope, ScopeProps(s.agency, req, now))
                 else Update(Named(s, req.name)[0], ScopePatch(req, now))
  {
    assert [w][0] == w;
  }

  lemma RegisterRefinesName(s: Store, reg: Registry, req: ScopeRequest, now: int, w: Write, name: string)
    requires Represents(s, reg) && RegisterVerdict(reg, req).None? && RegisterScopePlan(s, req, now) == Writes([w])
    ensures Lookup(Apply(s, w), name) == Get(Registered(reg, s.agency, |s.ents|, req, now), name)
  {
    RegisterWrite(s, req, now, w);
    if Named(s, req.name) == [] {
      CreateRefinesName(s, reg, req, now, name);
    } else {
      UpdateRefinesName(s, reg, req, now, name);
    }
  }

  lemma RegisterPlanWrites(s: Store, req: ScopeRequest, now: int)
    requires RegisterScopePlan(s, req, now).Writes?
    ensures RegisterScopePlan(s, req, now) == Writes([RegisterScopePlan(s, req, now).ws[0]])
  {
  }

  lemma RegisterRefines(s: Store, reg: Registry, req: ScopeRequest, now: int)
    requires Represents(s, reg)
    ensures Represents(ApplyAll(s, WritesOf(RegisterScopePlan(s, req, now))),
                       Registered(reg, s.agency, |s.ents|, req, now))
  {
    VerdictAgrees(s, reg, req, now);
    if RegisterScopePlan(s, req, now).Writes? {
      RegisterPlanWrites(s, req, now);
      RegisterWriteRefines(s, reg, req, now, RegisterScopePlan(s, req, now).ws[0]);
    }
  }

  lemma RegisterWriteRefines(s: Store, reg: Registry, req: ScopeRequest, now: int, w: Write)
    requires Represents(s, reg) && RegisterVerdict(reg, req).None? && RegisterScopePlan(s, req, now) == Writes([w])
    ensures Represents(ApplyAll(s, [w]), Registered(reg, s.agency, |s.ents|, req, now))
  {
    assert ApplyAll(s, [w]) == Apply(s, w);
    forall name {
      RegisterRefinesName(s, reg, req, now, w, name);
    }
  }

  lemma DeprecateRefinesName(s: Store, reg: Registry, id: Id, now: int, name: string)
    requires Represents(s, reg) && id < |s.ents|
    ensures var after := Deprecated(reg, id, now);
      Lookup(Apply(s, Update(id, DeprecationPatch(now))), name) == Get(after, name)
  {
    PatchNames(ScopeRequest("", "", ""), now);
    PatchedScope(s, id, DeprecationPatch(now), name);
    DeprecatedScope(Record(id, s.ents[id]), now);
    GetDeprecated(reg, id, now, name);
    assert Lookup(s, name) == Get(reg, name);
  }

  lemma DeprecateRefines(s: Store, reg: Registry, id: Id, now: int)
    requires Represents(s, reg)
    ensures Represents(ApplyAll(s, WritesOf(DeprecateScopePlan(s, id, now))), Deprecated(reg, id, now))
  {
    var after := Deprecated(reg, id, now);
    if id < |s.ents| {
      var t := Apply(s, Update(id, DeprecationPatch(now)));
      assert ApplyAll(s, [Update(id, DeprecationPatch(now))]) == t;
      forall name
        ensures Lookup(t, name) == Get(after, name)
      {
        DeprecateRefinesName(s, reg, id, now, name);
      }
    } else {
      UnknownScope(s, reg, id, now);
    }
  }

  lemma UnknownScope(s: Store, reg: Registry, id: Id, now: int)
    requires Represents(s, reg) && id >= |s.ents|
    ensures Deprecated(reg, id, now) == reg
  {
    forall name | name in reg
      ensures reg[name].id != id
    {
      assert Lookup(s, name) == Some(reg[name]);
    }
  }

  lemma OtherRefines(s: Store, t: Store, reg: Registry, types: set<TypeName>)
    requires Represents(s, reg) && Untouched(s, t, types) && TScope !in types
    ensures Represents(t, reg)
  {
    forall name
      ensures Lookup(t, name) == Lookup(s, name)
    {
      OtherLookup(s, t, types, name);
    }
  }

  lemma OtherLookup(s: Store, t: Store, types: set<TypeName>, name: string)
    requires Untouched(s, t, types) && TScope !in types
    ensures Lookup(t, name) == Lookup(s, name)
  {
    ListUntouched(s.ents, t.ents, TScope, Where(Name, Text(name)));
    assert Named(t, name) == Named(s, name);
    SameLookup(s, t, name);
  }

  // ---------------------------------------------------------------- runs

  lemma OnScopes(op: Op)
    requires TScope in Footprint(op)
    ensures op.RegisterScope? || op.DeprecateScope?
  {
  }

  lemma SingleCut(w: Write, s: Store, done: nat)
    ensures ApplyAll(s, Cut([w], done)) == if done == 0 then s else Apply(s, w)
  {
    assert Cut([w], done) == if done == 0 then [] else [w];
  }

  lemma AfterRegister(s: Store, req: ScopeRequest, now: int, done: nat)
    ensures AfterCall(s, Call(RegisterScope(req, now), done)) ==
            if done == 0 then s else ApplyAll(s, WritesOf(RegisterScopePlan(s, req, now)))
  {
    var plan := RegisterScopePlan(s, req, now);
    if plan.Writes? {
      assert plan.ws == [plan.ws[0]];
      SingleCut(plan.ws[0], s, done);
    }
  }

  lemma AfterDeprecate(s: Store, id: Id, now: int, done: nat)
    ensures AfterCall(s, Call(DeprecateScope(id, now), done)) ==
            if done == 0 then s else ApplyAll(s, WritesOf(DeprecateScopePlan(s, id, now)))
  {
    SingleCut(Update(id, DeprecationPatch(now)), s, done);
  }

  lemma RegisterCallRefines(s: Store, reg: Registry, req: ScopeRequest, now: int, done: nat)
    requires Represents(s, reg)
    ensures var c := Call(RegisterScope(req, now), done); Represents(AfterCall(s, c), Step(reg, s.agency, |s.ents|, c))
  {
    AfterRegister(s, req, now, done);
    RegisterRefines(s, reg, req, now);
  }

  lemma DeprecateCallRefines(s: Store, reg: Registry, id: Id, now: int, done: nat)
    requires Represents(s, reg)
    ensures var c := Call(DeprecateScope(id, now), done); Represents(AfterCall(s, c), Step(reg, s.agency, |s.ents|, c))
  {
    var c := Call(DeprecateScope(id, now), done);
    AfterDeprecate(s, id, now, done);
    DeprecateRefines(s, reg, id, now);
    assert Step(reg, s.agency, |s.ents|, c) == if done == 0 then reg else Deprecated(reg, id, now);
  }

  lemma OtherCallRefines(s: Store, reg: Registry, c: Call)
    requires Inv(s) && Admissible(s, c.op) && Represents(s, reg) && !c.op.RegisterScope? && !c.op.DeprecateScope?
    ensures Represents(AfterCall(s, c), reg)
  {
    var types := Footprint(c.op);
    if TScope in types {
      OnScopes(c.op);
    }
    CallUntouched(s, c);
    OtherRefines(s, AfterCall(s, c), reg, types);
  }

  lemma CallRefines(s: Store, reg: Registry, c: Call)
    requires Inv(s) && Admissible(s, c.op) && Represents(s, reg)
    ensures Represents(AfterCall(s, c), Step(reg, s.agency, |s.ents|, c))
  {
    match c.op
    case RegisterScope(req, now) => RegisterCallRefines(s, reg, req, now, c.done);
    case DeprecateScope(id, now) => DeprecateCallRefines(s, reg, id, now, c.done);
    case _ => OtherCallRefines(s, reg, c);
  }

  /** The scopes of every reachable store are the registry: all lookups, by any name, read back what the
      registrations and deprecations so far say - no other operation ever shows. */
  lemma {:induction false} RunRefinesRegistry(agency: string, calls: seq<Call>)
    requires ValidRun(agency, calls)
    ensures Represents(Run(agency, calls), RegistryOf(agency, calls))
  {
    if |calls| > 0 {
      var before, c := calls[..|calls| - 1], calls[|calls| - 1];
      RunRefinesRegistry(agency, before);
      RunAgency(agency, before);
      RunKeepsInv(agency, before);
      CallRefines(Run(agency, before), RegistryOf(agency, before), c);
    } else {
      EmptyRepresents(agency);
    }
  }

  lemma EmptyRepresents(agency: string)
    ensures Represents(EmptyStore(agency), map[])
  {
  }

  /** Who owns a name, under which identifier and since when, is fixed for the rest of the run. */
  lemma {:induction false} OwnershipIsForLife(agency: string, calls: seq<Call>, more: seq<Call>, name: string)
    requires ValidRun(agency, calls + more) && Lookup(Run(agency, calls), name).Some?
    ensures Lookup(Run(agency, calls + more), name).Some?
    ensures SameIdentity(Lookup(Run(agency, calls), name).value, Lookup(Run(agency, calls + more), name).value)
    decreases |more|
  {
    if |more| == 0 {
      assert calls + more == calls;
    } else {
      var before, c := calls + more[..|more| - 1], more[|more| - 1];
      SplitLast(calls, more);
      RunSnoc(agency, before, c);
      OwnershipIsForLife(agency, calls, more[..|more| - 1], name);
      OneMoreCall(agency, before, c, name);
    }
  }

  lemma RegistrySnoc(agency: string, calls: seq<Call>, c: Call)
    ensures RegistryOf(agency, calls + [c]) == Step(RegistryOf(agency, calls), agency, |Run(agency, calls).ents|, c)
  {
    assert (calls + [c])[..|calls|] == calls;
  }

  lemma LookupInRun(agency: string, calls: seq<Call>, name: string)
    requires ValidRun(agency, calls)
    ensures Lookup(Run(agency, calls), name) == Get(RegistryOf(agency, calls), name)
  {
    RunRefinesRegistry(agency, calls);
  }

  lemma OneMoreCall(agency: string, calls: seq<Call>, c: Call, name: string)
    requires ValidRun(agency, calls) && ValidRun(agency, calls + [c]) && Lookup(Run(agency, calls), name).Some?
    ensures Lookup(Run(agency, calls + [c]), name).Some?
    ensures SameIdentity(Lookup(Run(agency, calls), name).value, Lookup(Run(agency, calls + [c]), name).value)
  {
    LookupInRun(agency, calls, name);
    LookupInRun(agency, calls + [c], name);
    RegistrySnoc(agency, calls, c);
    StepKeepsIdentity(RegistryOf(agency, calls), agency, |Run(agency, calls).ents|, c, name);
  }

  /** A registration by its owner undoes a deprecation; doing it twice differs from doing it once in the time
      of the update, and no other name is affected. */
  lemma RegisteringTwice(agency: string, calls: seq<Call>, req: ScopeRequest, now: int, later: int, name: string)
    requires ValidRun(agency, calls) && RegisterScopePlan(Run(agency, calls), req, now).Writes?
    ensures var once := calls + [Call(RegisterScope(req, now), 1)];
      var twice := once + [Call(RegisterScope(req, later), 1)];
      ValidRun(agency, twice) && Lookup(Run(agency, once), req.name).Some? &&
      Lookup(Run(agency, once), req.name).value.deprecatedAt == None &&
      Lookup(Run(agency, twice), name) ==
        if name != req.name then Lookup(Run(agency, calls), name)
        else Some(Lookup(Run(agency, once), name).value.(updatedAt := later))
  {
    var c1, c2 := Call(RegisterScope(req, now), 1), Call(RegisterScope(req, later), 1);
    RunSnoc(agency, calls, c1);
    RunSnoc(agency, calls + [c1], c2);
    RegistrySnoc(agency, calls, c1);
    RegistrySnoc(agency, calls + [c1], c2);
    LookupInRun(agency, calls, name);
    LookupInRun(agency, calls + [c1], req.name);
    LookupInRun(agency, calls + [c1] + [c2], name);
    RunRefinesRegistry(agency, calls);
    VerdictAgrees(Run(agency, calls), RegistryOf(agency, calls), req, now);
    TwiceInRegistry(RegistryOf(agency, calls), agency, |Run(agency, calls).ents|, |Run(agency, calls + [c1]).ents|,
      req, now, later, name);
  }

  lemma TwiceInRegistry(reg: Registry, agency: string, first: Id, second: Id, req: ScopeRequest, now: int, later: int,
                        name: string)
    requires RegisterVerdict(reg, req).None?
    ensures var once := Step(reg, agency, first, Call(RegisterScope(req, now), 1));
      var twice := Step(once, agency, second, Call(RegisterScope(req, later), 1));
      req.name in once && once[req.name].deprecatedAt == None &&
      Get(twice, name) == if name != req.name then Get(reg, name) else Some(once[name].(updatedAt := later))
  {
  }

  /** A registration by anybody but the owner is refused, as long as the scope exists. */
  lemma ForeignersAreRefused(agency: string, calls: seq<Call>, req: ScopeRequest, now: int)
    requires ValidRun(agency, calls) && Lookup(Run(agency, calls), req.name).Some?
    requires Lookup(Run(agency, calls), req.name).value.registeredBy != req.registeredBy
    ensures RegisterScopePlan(Run(agency, calls), req, now) ==
            Refused(if Reserved(req) then ScopeReserved else ScopeNameCollision)
  {
    RunKeepsInv(agency, calls);
    ForeignRegistration(Run(agency, calls), req, now);
  }

  lemma ForeignRegistration(s: Store, req: ScopeRequest, now: int)
    requires EntitiesSound(s) && Named(s, req.name) != []
    requires PropStr(s.ents[Named(s, req.name)[0]].props, RegisteredBy) != req.registeredBy
    ensures RegisterScopePlan(s, req, now) == Refused(if Reserved(req) then ScopeReserved else ScopeNameCollision)
  {
    assert EntitySound(s, s.ents[Named(s, req.name)[0]]);
    assert ScopeAllowed(s.ents[Named(s, req.name)[0]].props);
  }

  /** Every scope that ever exists has a name of the grammar, and with the prefix `org` or `audit` it belongs to
      `codevaldorg`. */
  lemma ScopesAreWellNamed(agency: string, calls: seq<Call>, i: Id)
    requires ValidRun(agency, calls)
    requires i < |Run(agency, calls).ents| && Run(agency, calls).ents[i].typ == TScope
    ensures var p := Run(agency, calls).ents[i].props;
      (exists prefix, action :: Spells(PropStr(p, Name), prefix, action)) &&
      forall action :: Spells(PropStr(p, Name), "org", action) || Spells(PropStr(p, Name), "audit", action) ==>
        PropStr(p, RegisteredBy) == "codevaldorg"
  {
    RunKeepsInv(agency, calls);
    WellNamed(Run(agency, calls), i);
  }

  lemma WellNamed(s: Store, i: Id)
    requires EntitiesSound(s) && i < |s.ents| && s.ents[i].typ == TScope
    ensures var p := s.ents[i].props;
      (exists prefix, action :: Spells(PropStr(p, Name), prefix, action)) &&
      forall action :: Spells(PropStr(p, Name), "org", action) || Spells(PropStr(p, Name), "audit", action) ==>
        PropStr(p, RegisteredBy) == "codevaldorg"
  {
    var p := s.ents[i].props;
    assert EntitySound(s, s.ents[i]) && ScopeAllowed(p);
    MatchScopeExactly(PropStr(p, Name));
    ReservedMeans(ScopeRequest(PropStr(p, Name), PropStr(p, RegisteredBy), ""));
  }
}
