/** memberships.go: the in-place filter, and what the lists per user mean over whole runs. */
module Memberships {
  import opened Wrappers
  import opened EntityGraph
  import opened Helpers
  import opened Operations
  import opened Invariants
  import opened PlansLegal
  import opened Footprints

  // ---------------------------------------------------------------- the filter

  /** The records whose identifier is wanted, in order. */
  function Filtered(rs: seq<Record>, keep: set<Id>): (r: seq<Record>)
    ensures |r| <= |rs|
    ensures forall x :: x in r <==> x in rs && x.id in keep
  {
    if |rs| == 0 then []
    else
      var n := |rs| - 1;
      Filtered(rs[..n], keep) + (if rs[n].id in keep then [rs[n]] else [])
  }

  lemma FilteredNext(rs: seq<Record>, i: nat, keep: set<Id>)
    requires i < |rs|
    ensures Filtered(rs[..i + 1], keep) == Filtered(rs[..i], keep) + (if rs[i].id in keep then [rs[i]] else [])
  {
    assert rs[..i + 1][..i] == rs[..i];
  }

  /** Filtering while writing into the slots already read: no slot is overwritten before it is read. */
  method FilterInPlace(entities: array<Record>, keep: set<Id>) returns (kept: nat)
    modifies entities
    ensures kept <= entities.Length && entities[..kept] == Filtered(old(entities[..]), keep)
  {
    ghost var was := entities[..];
    kept := 0;
    var i := 0;
    while i < entities.Length
      invariant kept <= i <= entities.Length
      invariant forall k :: i <= k < entities.Length ==> entities[k] == was[k]
      invariant entities[..kept] == Filtered(was[..i], keep)
    {
      var e := entities[i];
      FilteredNext(was, i, keep);
      if e.id in keep {
        entities[kept] := e;
        kept := kept + 1;
        assert entities[..kept] == entities[..kept - 1] + [e];
      }
      i := i + 1;
    }
    assert was[..i] == was;
  }

  /** The set of memberships reached by edges, filled edge by edge. */
  method MembershipIds(rels: seq<Edge>) returns (ids: set<Id>)
    ensures ids == set e | e in rels :: e.to
  {
    ids := {};
    var i := 0;
    while i < |rels|
      invariant i <= |rels| && ids == set e | e in rels[..i] :: e.to
    {
      assert rels[..i + 1] == rels[..i] + [rels[i]];
      ids := ids + {rels[i].to};
      i := i + 1;
    }
    assert rels[..i] == rels;
  }

  // ---------------------------------------------------------------- what is listed

  /** ListMemberships, before conversion: all live memberships, or those a user has an edge to. */
  function MembershipsOf(s: Store, user: Option<Id>): seq<Record> {
    var all := Records(s, List(s.ents, TMembership, Any));
    if user.None? then all else Filtered(all, set e | e in SelectEdges(s.edges, HasMembership, user, None) :: e.to)
  }

  ghost predicate Converted(ms: seq<Record>, r: seq<Membership>) {
    |r| == |ms| && forall i :: 0 <= i < |ms| ==> r[i] == ToMembership(ms[i])
  }

  method ConvertAll(ms: seq<Record>) returns (r: seq<Membership>)
    ensures Converted(ms, r)
  {
    r := [];
    var i := 0;
    while i < |ms|
      invariant i <= |ms| && Converted(ms[..i], r)
    {
      r := r + [ToMembership(ms[i])];
      i := i + 1;
    }
    assert ms[..i] == ms;
  }

  lemma ListedForUser(s: Store, user: Id, r: Record)
    ensures r in MembershipsOf(s, Some(user)) <==>
            r in MembershipsOf(s, None) && Edge(HasMembership, user, r.id) in s.edges
  {
    var rels := SelectEdges(s.edges, HasMembership, Some(user), None);
    if Edge(HasMembership, user, r.id) in s.edges {
      assert Edge(HasMembership, user, r.id) in rels;
    }
    if e :| e in rels && e.to == r.id {
      assert e == Edge(HasMembership, user, r.id);
    }
  }

  lemma OneOwner(s: Store, m: Id, e: Edge)
    requires MembershipsSound(s) && m < |s.ents| && e in s.edges && e.name == HasMembership && e.to == m
    ensures EdgesInto(s, HasMembership, m) == [e]
  {
    assert |EdgesInto(s, HasMembership, m)| <= 1;
    assert e in EdgesInto(s, HasMembership, m);
  }

  /** In every reachable store the lists of two users share no membership, and a membership is in no
      user's list exactly when no edge leads to it. */
  lemma ListsPartition(agency: string, calls: seq<Call>, r: Record)
    requires ValidRun(agency, calls) && r in MembershipsOf(Run(agency, calls), None)
    ensures var s := Run(agency, calls);
      (forall u: Id, v: Id :: r in MembershipsOf(s, Some(u)) && r in MembershipsOf(s, Some(v)) ==> u == v) &&
      ((exists u: Id :: r in MembershipsOf(s, Some(u))) <==> EdgesInto(s, HasMembership, r.id) != [])
  {
    RunKeepsInv(agency, calls);
    StorePartition(Run(agency, calls), r);
  }

  lemma StorePartition(s: Store, r: Record)
    requires MembershipsSound(s) && r in MembershipsOf(s, None)
    ensures forall u: Id, v: Id :: r in MembershipsOf(s, Some(u)) && r in MembershipsOf(s, Some(v)) ==> u == v
    ensures (exists u: Id :: r in MembershipsOf(s, Some(u))) <==> EdgesInto(s, HasMembership, r.id) != []
  {
    forall u: Id, v: Id | r in MembershipsOf(s, Some(u)) && r in MembershipsOf(s, Some(v))
      ensures u == v
    {
      ListedForUser(s, u, r);
      ListedForUser(s, v, r);
      OneOwner(s, r.id, Edge(HasMembership, u, r.id));
      OneOwner(s, r.id, Edge(HasMembership, v, r.id));
    }
    if u: Id :| r in MembershipsOf(s, Some(u)) {
      ListedForUser(s, u, r);
      OneOwner(s, r.id, Edge(HasMembership, u, r.id));
    }
    var into := EdgesInto(s, HasMembership, r.id);
    if into != [] {
      assert into[0] in into && into[0] == Edge(HasMembership, into[0].from, r.id);
      ListedForUser(s, into[0].from, r);
    }
  }

  ghost predicate Increasing(rs: seq<Record>) {
    forall a, b :: 0 <= a < b < |rs| ==> rs[a].id < rs[b].id
  }

  lemma {:induction false} FilteredIncreasing(rs: seq<Record>, keep: set<Id>)
    requires Increasing(rs)
    ensures Increasing(Filtered(rs, keep))
  {
    if |rs| > 0 {
      var n := |rs| - 1;
      var f := Filtered(rs[..n], keep);
      FilteredIncreasing(rs[..n], keep);
      forall a | 0 <= a < |f|
        ensures f[a].id < rs[n].id
      {
        assert f[a] in f;
        var k :| 0 <= k < n && rs[k] == f[a];
      }
      assert Filtered(rs, keep) == f + (if rs[n].id in keep then [rs[n]] else []);
    }
  }

  /** Every list is in storage order and without repetition. */
  lemma StorageOrder(s: Store, user: Option<Id>)
    ensures Increasing(MembershipsOf(s, user))
  {
    var ids := List(s.ents, TMembership, Any);
    var all := Records(s, ids);
    assert Increasing(all) by {
      assert forall a :: 0 <= a < |all| ==> all[a].id == ids[a];
    }
    if user.Some? {
      FilteredIncreasing(all, set e | e in SelectEdges(s.edges, HasMembership, user, None) :: e.to);
    }
  }

  // ---------------------------------------------------------------- grants that failed

  lemma GrantEdges(s: Store, m: Id, user: Id, role: Id)
    requires forall e :: e in s.edges && e.name == HasMembership ==> e.to != m
    ensures var s2 := Apply(s, Link(Edge(HasMembership, user, m)));
      EdgesInto(s, HasMembership, m) == [] &&
      EdgesInto(s2, HasMembership, m) == [Edge(HasMembership, user, m)] &&
      EdgesInto(Apply(s2, Link(Edge(GrantsRole, m, role))), HasMembership, m) == [Edge(HasMembership, user, m)]
  {
    NoEdgesInto(s, HasMembership, m);
    EdgesIntoAfterLink(s, Edge(HasMembership, user, m), HasMembership, m);
    EdgesIntoAfterLink(Apply(s, Link(Edge(HasMembership, user, m))), Edge(GrantsRole, m, role), HasMembership, m);
  }

  lemma GrantWrites(s: Store, req: GrantRequest, now: int, done: nat)
    requires MembershipsSound(s) && done >= 1
    ensures var t := ApplyAll(s, Cut(GrantMembershipPlan(s, req, now).ws, done));
      |s.ents| < |t.ents| && t.ents[|s.ents|] == Entity(TMembership, MembershipProps(s.agency, req, now), false) &&
      EdgesInto(t, HasMembership, |s.ents|) == if done == 1 then [] else [Edge(HasMembership, req.user, |s.ents|)]
  {
    var m := |s.ents|;
    var w1 := Create(TMembership, MembershipProps(s.agency, req, now));
    GrantEdges(Apply(s, w1), m, req.user, req.role);
    ThreeWrites(s, w1, Link(Edge(HasMembership, req.user, m)), Link(Edge(GrantsRole, m, req.role)), done);
  }

  lemma ThreeWrites(s: Store, w1: Write, w2: Write, w3: Write, done: nat)
    requires done >= 1
    ensures ApplyAll(s, Cut([w1, w2, w3], done)) ==
      if done == 1 then Apply(s, w1) else if done == 2 then Apply(Apply(s, w1), w2)
      else Apply(Apply(Apply(s, w1), w2), w3)
  {
    var ws := [w1, w2, w3];
    assert ws[..1] == [w1] && ws[..2] == [w1] + [w2] && ws == [w1] + [w2] + [w3];
    assert ApplyAll(s, [w1]) == Apply(s, w1);
    ApplySnoc(s, [w1], w2);
    ApplySnoc(s, [w1] + [w2], w3);
    CutThree(ws, done);
  }

  lemma CutThree(ws: seq<Write>, done: nat)
    requires |ws| == 3 && done >= 1
    ensures Cut(ws, done) == if done == 1 then ws[..1] else if done == 2 then ws[..2] else ws
  {
  }

  lemma AfterGrant(s: Store, req: GrantRequest, now: int, done: nat)
    ensures AfterCall(s, Call(GrantMembership(req, now), done))
            == ApplyAll(s, Cut(GrantMembershipPlan(s, req, now).ws, done))
  {
  }

  lemma GrantLinksNew(s: Store, req: GrantRequest, now: int, m: Id)
    requires m < |s.ents|
    ensures forall w :: w in GrantMembershipPlan(s, req, now).ws && w.Link? ==>
            w.edge.name != HasMembership || w.edge.to != m
  {
  }

  lemma OtherLinkNames(op: Op)
    requires !op.GrantMembership?
    ensures HasMembership !in LinkNames(op)
  {
  }

  /** No call adds an edge to a membership that was there before. */
  lemma CallKeepsOwner(s: Store, c: Call, m: Id)
    requires m < |s.ents|
    ensures EdgesInto(AfterCall(s, c), HasMembership, m) == EdgesInto(s, HasMembership, m)
  {
    if c.op.GrantMembership? {
      AfterGrant(s, c.op.grant, c.op.now, c.done);
      GrantLinksNew(s, c.op.grant, c.op.now, m);
      EdgesIntoStay(s, Cut(GrantMembershipPlan(s, c.op.grant, c.op.now).ws, c.done), HasMembership, m);
    } else {
      PlanLinks(s, c.op);
      OtherLinkNames(c.op);
      EdgesIntoStay(s, Cut(WritesOf(Plan(s, c.op)), c.done), HasMembership, m);
    }
  }

  lemma {:induction false} OwnerForLife(agency: string, calls: seq<Call>, more: seq<Call>, m: Id)
    requires ValidRun(agency, calls + more) && m < |Run(agency, calls).ents|
    ensures EdgesInto(Run(agency, calls + more), HasMembership, m) == EdgesInto(Run(agency, calls), HasMembership, m)
    decreases |more|
  {
    if |more| == 0 {
      assert calls + more == calls;
    } else {
      var before, c := more[..|more| - 1], more[|more| - 1];
      SplitLast(calls, more);
      RunSnoc(agency, calls + before, c);
      OwnerForLife(agency, calls, before, m);
      RunEvolves(agency, calls, before);
      CallKeepsOwner(Run(agency, calls + before), c, m);
    }
  }

  lemma ListedForever(s: Store, t: Store, m: Id)
    requires EntitiesSound(t) && Evolves(s, t) && m < |s.ents| && s.ents[m].typ == TMembership
    ensures m < |t.ents| && Record(m, t.ents[m]) in MembershipsOf(t, None)
  {
    assert EntityEvolves(s.ents[m], t.ents[m]) && EntitySound(t, t.ents[m]);
    var ids := List(t.ents, TMembership, Any);
    assert m in ids;
    var j :| 0 <= j < |ids| && ids[j] == m;
    assert Records(t, ids)[j] == Record(m, t.ents[m]);
  }

  /** The membership of a grant stays in the unfiltered list for good. It is listed for the user it was
      granted to, and for nobody else, exactly when the grant got as far as its first edge - even when the
      grant failed on its second edge and returned an error. */
  lemma GrantedMembership(agency: string, calls: seq<Call>, req: GrantRequest, now: int, done: nat,
                          more: seq<Call>, user: Id)
    requires ValidRun(agency, calls + [Call(GrantMembership(req, now), done)] + more) && done >= 1
    ensures var s, m := Run(agency, calls + [Call(GrantMembership(req, now), done)] + more), |Run(agency, calls).ents|;
      m < |s.ents| && Record(m, s.ents[m]) in MembershipsOf(s, None) &&
      (Record(m, s.ents[m]) in MembershipsOf(s, Some(user)) <==> done >= 2 && user == req.user)
  {
    var c := Call(GrantMembership(req, now), done);
    var before, granted := Run(agency, calls), Run(agency, calls + [c]);
    var s, m := Run(agency, calls + [c] + more), |before.ents|;
    ValidPrefix(agency, calls + [c], more);
    RunSnoc(agency, calls, c);
    RunKeepsInv(agency, calls);
    AfterGrant(before, req, now, done);
    GrantWrites(before, req, now, done);
    OwnerForLife(agency, calls + [c], more, m);
    RunEvolves(agency, calls + [c], more);
    RunKeepsInv(agency, calls + [c] + more);
    ListedForever(granted, s, m);
    OwnersList(s, m, req.user, done >= 2, user);
  }

  lemma OwnersList(s: Store, m: Id, owner: Id, owned: bool, user: Id)
    requires m < |s.ents| && Record(m, s.ents[m]) in MembershipsOf(s, None)
    requires EdgesInto(s, HasMembership, m) == if owned then [Edge(HasMembership, owner, m)] else []
    ensures Record(m, s.ents[m]) in MembershipsOf(s, Some(user)) <==> owned && user == owner
  {
    ListedForUser(s, user, Record(m, s.ents[m]));
    var into := EdgesInto(s, HasMembership, m);
    assert Edge(HasMembership, user, m) in s.edges <==> Edge(HasMembership, user, m) in into;
  }
}
