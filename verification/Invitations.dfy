/** Invitations over whole runs: whom a token activates, when it stops working, and what a failed or
    repeated acceptance does. */
module Invitations {
  import opened Wrappers
  import opened Crypto
  import opened EntityGraph
  import opened Helpers
  import opened Operations
  import opened Invariants
  import opened PlansLegal
  import opened Footprints

  // ---------------------------------------------------------------- lifetime

  /** When an invitation made at `at` ends: after 72 hours, unless a positive lifetime was asked for. */
  function Ends(at: int, expiresIn: int): int {
    if expiresIn > 0 then at + expiresIn else at + 72 * 60 * 60 * 1_000_000_000
  }

  /** The whole second that an instant falls in, as an instant. */
  function Floor(nanos: int): int {
    nanos / 1_000_000_000 * 1_000_000_000
  }

  /** The expiry stored for an invitation is the second of its end, and an acceptance is in time if and only if
      its clock reading is no later than that second: storing whole seconds costs less than one second. */
  lemma InvitationWindow(at: int, expiresIn: int, checked: int)
    ensures Sec(at + TTL(expiresIn)) == Sec(Ends(at, expiresIn))
    ensures After(checked, Sec(at + TTL(expiresIn))) <==> checked > Floor(Ends(at, expiresIn))
    ensures Ends(at, expiresIn) - 1_000_000_000 < Floor(Ends(at, expiresIn)) <= Ends(at, expiresIn)
  {
  }

  /** An invitation can be accepted at the instant it was made, whatever the instant, exactly when no lifetime was
      asked for or one no shorter than a second less one nanosecond. */
  lemma AcceptableAtOnce(expiresIn: int)
    ensures (forall at :: at <= Floor(Ends(at, expiresIn))) <==> expiresIn <= 0 || expiresIn >= 999_999_999
  {
    if forall at :: at <= Floor(Ends(at, expiresIn)) {
      assert 1 <= Floor(Ends(1, expiresIn));
    }
    if expiresIn <= 0 || expiresIn >= 999_999_999 {
      forall at
        ensures at <= Floor(Ends(at, expiresIn))
      {
        WholeSecondReached(at, Ends(at, expiresIn));
      }
    }
  }

  /** Between an instant and one a second less one nanosecond later lies a whole second. */
  lemma WholeSecondReached(at: int, end: int)
    requires end >= at + 999_999_999
    ensures at <= Floor(end)
  {
  }

  /** Two's complement wrap-around of 64 bits. */
  function Wrap64(x: int): int {
    (x + 0x8000_0000_0000_0000) % 0x1_0000_0000_0000_0000 - 0x8000_0000_0000_0000
  }

  /** The service multiplies the requested seconds out to nanoseconds in 64 bits: the product is right
      exactly up to 9223372036 seconds, and then an invitation lasts exactly the positive number of seconds asked
      for, and is acceptable at once. */
  lemma RequestedSeconds(s: int)
    requires -0x8000_0000_0000_0000 <= s < 0x8000_0000_0000_0000
    ensures Wrap64(s * 1_000_000_000) == s * 1_000_000_000 <==> -9_223_372_036 <= s <= 9_223_372_036
    ensures 1 <= s <= 9_223_372_036 ==>
      forall at :: Sec(at + TTL(Wrap64(s * 1_000_000_000))) == Sec(at) + s &&
                   at <= Floor(Ends(at, Wrap64(s * 1_000_000_000)))
  {
    AcceptableAtOnce(Wrap64(s * 1_000_000_000));
  }

  // ---------------------------------------------------------------- what the store knows of an invitation

  ghost predicate Invites(s: Store, user: Id, inv: Id, email: string, hash: string, expires: int) {
    user < |s.ents| && s.ents[user].typ == TUser && Has(s.ents[user], Email, Text(email)) &&
    inv < |s.ents| && s.ents[inv].typ == TInvitation &&
    Has(s.ents[inv], TokenHash, Text(hash)) && Has(s.ents[inv], ExpiresAt, At(expires)) &&
    Edge(HasInvitation, user, inv) in s.edges
  }

  predicate IsAccepted(s: Store, inv: Id) {
    inv < |s.ents| && Has(s.ents[inv], Status, Word(Accepted))
  }

  lemma InvitesStays(s: Store, t: Store, user: Id, inv: Id, email: string, hash: string, expires: int)
    requires Invites(s, user, inv, email, hash, expires) && Evolves(s, t)
    ensures Invites(t, user, inv, email, hash, expires)
  {
    assert EntityEvolves(s.ents[user], t.ents[user]) && EntityEvolves(s.ents[inv], t.ents[inv]);
    var k :| 0 <= k < |s.edges| && s.edges[k] == Edge(HasInvitation, user, inv);
    assert t.edges[k] == s.edges[k];
  }

  lemma AfterNewPair(s: Store, user: Props, inv: Props)
    ensures ApplyAll(s, NewPair(|s.ents|, user, inv)) ==
            Store(s.agency, s.ents + [Entity(TUser, user, false), Entity(TInvitation, inv, false)],
                  s.edges + [Edge(HasInvitation, |s.ents|, |s.ents| + 1)])
  {
    ApplyThree(s, Create(TUser, user), Create(TInvitation, inv), Link(Edge(HasInvitation, |s.ents|, |s.ents| + 1)));
    assert s.ents + [Entity(TUser, user, false)] + [Entity(TInvitation, inv, false)]
           == s.ents + [Entity(TUser, user, false), Entity(TInvitation, inv, false)];
  }

  lemma PairIsInvitation(s: Store, t: Store, user: Props, inv: Props, email: string, hash: string, expires: int)
    requires t == Store(s.agency, s.ents + [Entity(TUser, user, false), Entity(TInvitation, inv, false)],
                        s.edges + [Edge(HasInvitation, |s.ents|, |s.ents| + 1)])
    requires Email in user && user[Email] == Text(email)
    requires TokenHash in inv && inv[TokenHash] == Text(hash) && ExpiresAt in inv && inv[ExpiresAt] == At(expires)
    requires Status in inv && inv[Status] == Word(Pending)
    ensures Invites(t, |s.ents|, |s.ents| + 1, email, hash, expires) && !IsAccepted(t, |s.ents| + 1)
  {
    assert t.edges[|s.edges|] == Edge(HasInvitation, |s.ents|, |s.ents| + 1);
  }

  lemma PairInvites(s: Store, req: InviteRequest, hash: string, expires: int, now: int)
    ensures var t := ApplyAll(s, NewPair(|s.ents|, UserProps(s.agency, req, now),
                                         InvitationProps(s.agency, hash, expires, now)));
      Invites(t, |s.ents|, |s.ents| + 1, req.email, hash, expires) && !IsAccepted(t, |s.ents| + 1)
  {
    var user, inv := UserProps(s.agency, req, now), InvitationProps(s.agency, hash, expires, now);
    var t := ApplyAll(s, NewPair(|s.ents|, user, inv));
    AfterNewPair(s, user, inv);
    PairIsInvitation(s, t, user, inv, req.email, hash, expires);
  }

  lemma ApplyThree(s: Store, w1: Write, w2: Write, w3: Write)
    ensures ApplyAll(s, [w1, w2, w3]) == Apply(Apply(Apply(s, w1), w2), w3)
  {
    assert [w1, w2, w3][1..] == [w2, w3] && [w2, w3][1..] == [w3];
    assert ApplyAll(Apply(Apply(s, w1), w2), [w3]) == Apply(Apply(Apply(s, w1), w2), w3);
  }

  predicate LinksOnly(ws: seq<Write>) {
    forall w :: w in ws ==> w.Link?
  }

  lemma {:induction false} LinksOnlyAddEdges(s: Store, ws: seq<Write>)
    requires LinksOnly(ws)
    ensures ApplyAll(s, ws).ents == s.ents && s.edges <= ApplyAll(s, ws).edges
    decreases |ws|
  {
    if |ws| > 0 {
      assert ws[0] in ws;
      LinksOnlyAddEdges(Apply(s, ws[0]), ws[1..]);
    }
  }

  lemma LinksKeepInvitation(s: Store, ws: seq<Write>, user: Id, inv: Id, email: string, hash: string, expires: int)
    requires LinksOnly(ws) && Invites(s, user, inv, email, hash, expires)
    ensures Invites(ApplyAll(s, ws), user, inv, email, hash, expires)
    ensures IsAccepted(ApplyAll(s, ws), inv) <==> IsAccepted(s, inv)
  {
    LinksOnlyAddEdges(s, ws);
  }

  lemma CutInvites(s: Store, pair: seq<Write>, links: seq<Write>, done: nat, t: Store, ws: seq<Write>,
                   user: Id, email: string, hash: string, expires: int)
    requires ws == pair + links && |pair| == 3 && LinksOnly(links) && done >= 3 && t == ApplyAll(s, Cut(ws, done))
    requires Invites(ApplyAll(s, pair), user, user + 1, email, hash, expires) &&
             !IsAccepted(ApplyAll(s, pair), user + 1)
    ensures Invites(t, user, user + 1, email, hash, expires) && !IsAccepted(t, user + 1)
  {
    var some := Cut(links, done - 3);
    CutAppend(pair, links, done);
    ApplyAppend(s, pair, some);
    var paired := ApplyAll(s, pair);
    assert t == ApplyAll(paired, some);
    LinksKeepInvitation(paired, some, user, user + 1, email, hash, expires);
  }

  lemma InviteLinksOnly(inv: Id, req: InviteRequest)
    ensures LinksOnly(InviteLinks(inv, req))
  {
  }

  lemma InvitePlanIs(s: Store, req: InviteRequest, hash: string, at: int)
    requires InviteUserPlan(s, req, hash, at).Writes?
    ensures InviteUserPlan(s, req, hash, at).ws ==
            NewPair(|s.ents|, UserProps(s.agency, req, Sec(at)),
                    InvitationProps(s.agency, hash, Sec(at + TTL(req.expiresIn)), Sec(at)))
            + InviteLinks(|s.ents| + 1, req)
  {
  }

  /** From the third write on the invitation is in place, and pending. */
  lemma InviteWrites(s: Store, ws: seq<Write>, req: InviteRequest, hash: string, at: int, done: nat)
    requires InviteUserPlan(s, req, hash, at) == Writes(ws) && done >= 3
    ensures var t := ApplyAll(s, Cut(ws, done));
      Invites(t, |s.ents|, |s.ents| + 1, req.email, hash, Sec(at + TTL(req.expiresIn))) && !IsAccepted(t, |s.ents| + 1)
  {
    var expires := Sec(at + TTL(req.expiresIn));
    var pair := NewPair(|s.ents|, UserProps(s.agency, req, Sec(at)), InvitationProps(s.agency, hash, expires, Sec(at)));
    var links := InviteLinks(|s.ents| + 1, req);
    assert ws == pair + links by {
      InvitePlanIs(s, req, hash, at);
    }
    PairInvites(s, req, hash, expires, Sec(at));
    InviteLinksOnly(|s.ents| + 1, req);
    CutInvites(s, pair, links, done, ApplyAll(s, Cut(ws, done)), ws, |s.ents|, req.email, hash, expires);
  }

  lemma InviteCallInvites(s: Store, req: InviteRequest, hash: string, at: int, done: nat)
    requires InviteUserPlan(s, req, hash, at).Writes? && done >= 3
    ensures var t := AfterCall(s, Call(InviteUser(req, hash, at), done));
      Invites(t, |s.ents|, |s.ents| + 1, req.email, hash, Sec(at + TTL(req.expiresIn))) && !IsAccepted(t, |s.ents| + 1)
  {
    InviteWrites(s, InviteUserPlan(s, req, hash, at).ws, req, hash, at, done);
    AfterInvite(s, req, hash, at, done);
  }

  lemma AfterInvite(s: Store, req: InviteRequest, hash: string, at: int, done: nat)
    ensures AfterCall(s, Call(InviteUser(req, hash, at), done))
            == ApplyAll(s, Cut(WritesOf(InviteUserPlan(s, req, hash, at)), done))
  {
  }

  lemma TheOnlyHit(s: Store, t: TypeName, f: Filter, i: Id)
    requires AtMostOne(s, t, f) && i < |s.ents| && Matches(s.ents[i], t, f)
    ensures List(s.ents, t, f) != [] && List(s.ents, t, f)[0] == i
  {
    var found := List(s.ents, t, f);
    assert i in found;
    assert Hits(s, i, t, f) && Hits(s, found[0], t, f);
  }

  lemma TheInvitation(s: Store, user: Id, inv: Id, email: string, hash: string, expires: int)
    requires Inv(s) && Invites(s, user, inv, email, hash, expires)
    ensures List(s.ents, TInvitation, Where(TokenHash, Text(hash))) != []
    ensures List(s.ents, TInvitation, Where(TokenHash, Text(hash)))[0] == inv
    ensures EdgesInto(s, HasInvitation, inv) == [Edge(HasInvitation, user, inv)]
    ensures InvitationSound(s, inv)
  {
    var f := Where(TokenHash, Text(hash));
    assert Matches(s.ents[inv], TInvitation, f) by {
      assert EntitySound(s, s.ents[inv]);
    }
    assert AtMostOne(s, TInvitation, f) by {
      assert Key(TInvitation) == Some(TokenHash);
    }
    TheOnlyHit(s, TInvitation, f, inv);
    assert InvitationSound(s, inv);
    assert Edge(HasInvitation, user, inv) in EdgesInto(s, HasInvitation, inv);
  }

  /** What accepting the token does in a sound store. */
  lemma AcceptAnswers(s: Store, user: Id, inv: Id, email: string, hash: string, expires: int, checked: int, now: int)
    requires Inv(s) && Invites(s, user, inv, email, hash, expires)
    ensures AcceptInvitationPlan(s, hash, checked, now) ==
            if IsAccepted(s, inv) then Refused(InvitationAlreadyAccepted)
            else if After(checked, expires) then Refused(InvitationExpired)
            else Writes([Update(user, ActivatePatch(now)), Update(inv, AcceptPatch(now))])
  {
    TheInvitation(s, user, inv, email, hash, expires);
  }

  // ---------------------------------------------------------------- when an invitation becomes accepted

  ghost predicate Accepts(s: Store, c: Call, hash: string) {
    c.op.AcceptInvitation? && c.op.hash == hash && Finished(s, c)
  }

  /** Some call of `more` accepted the invitation with this hash. */
  ghost predicate AcceptedDuring(agency: string, calls: seq<Call>, more: seq<Call>, hash: string)
    decreases |more|
  {
    |more| > 0 &&
    (var n := |more| - 1;
     AcceptedDuring(agency, calls, more[..n], hash) || Accepts(Run(agency, calls + more[..n]), more[n], hash))
  }

  lemma InviteKeeps(s: Store, req: InviteRequest, hash: string, at: int, done: nat, i: Id)
    requires i < |s.ents|
    ensures var t := AfterCall(s, Call(InviteUser(req, hash, at), done)); i < |t.ents| && t.ents[i] == s.ents[i]
  {
    AfterInvite(s, req, hash, at, done);
    InviteCreates(s, req, hash, at);
    CreatesKeep(s, Cut(WritesOf(InviteUserPlan(s, req, hash, at)), done), {TUser, TInvitation});
  }

  /** The two updates of an acceptance, as far as the call got. */
  lemma TwoWrites(s: Store, w1: Write, w2: Write, done: nat)
    ensures ApplyAll(s, Cut([w1, w2], done)) ==
      if done == 0 then s else if done == 1 then Apply(s, w1) else Apply(Apply(s, w1), w2)
  {
    var ws := [w1, w2];
    assert ws[..0] == [] && ws[..1] == [w1] && ws[..2] == ws && ws[1..] == [w2];
    assert ApplyAll(s, [w1]) == Apply(s, w1);
    assert ApplyAll(Apply(s, w1), [w2]) == Apply(Apply(s, w1), w2);
  }

  lemma AfterAccept(s: Store, c: Call)
    requires c.op.AcceptInvitation?
    ensures AfterCall(s, c)
            == ApplyAll(s, Cut(WritesOf(AcceptInvitationPlan(s, c.op.hash, c.op.checked, c.op.now)), c.done))
    ensures Finished(s, c) <==>
      AcceptInvitationPlan(s, c.op.hash, c.op.checked, c.op.now).Writes? &&
      c.done >= |AcceptInvitationPlan(s, c.op.hash, c.op.checked, c.op.now).ws|
  {
  }

  lemma AcceptChanges(s: Store, user: Id, inv: Id, now: int, done: nat)
    requires user < |s.ents| && inv < |s.ents| && user != inv
    ensures var t := ApplyAll(s, Cut([Update(user, ActivatePatch(now)), Update(inv, AcceptPatch(now))], done));
      |t.ents| == |s.ents| && (IsAccepted(t, inv) <==> IsAccepted(s, inv) || done >= 2) &&
      forall i: Id :: i < |s.ents| && i != user && i != inv ==> t.ents[i] == s.ents[i]
  {
    TwoWrites(s, Update(user, ActivatePatch(now)), Update(inv, AcceptPatch(now)), done);
  }

  lemma OwnAcceptStatus(s: Store, c: Call, user: Id, inv: Id, email: string, hash: string, expires: int)
    requires Inv(s) && Invites(s, user, inv, email, hash, expires)
    requires c.op.AcceptInvitation? && c.op.hash == hash
    ensures IsAccepted(AfterCall(s, c), inv) <==> IsAccepted(s, inv) || Accepts(s, c, hash)
  {
    AfterAccept(s, c);
    AcceptAnswers(s, user, inv, email, hash, expires, c.op.checked, c.op.now);
    AcceptChanges(s, user, inv, c.op.now, c.done);
  }

  lemma OtherAcceptWrites(s: Store, other: string, checked: int, now: int, done: nat, inv: Id, hash: string)
    requires InvitationsSound(s) && inv < |s.ents| && s.ents[inv].typ == TInvitation
    requires Has(s.ents[inv], TokenHash, Text(hash)) && other != hash
    ensures var t := ApplyAll(s, Cut(WritesOf(AcceptInvitationPlan(s, other, checked, now)), done));
      inv < |t.ents| && t.ents[inv] == s.ents[inv]
  {
    if AcceptInvitationPlan(s, other, checked, now).Writes? {
      var found := List(s.ents, TInvitation, Where(TokenHash, Text(other)))[0];
      var rels := EdgesInto(s, HasInvitation, found);
      assert rels[0] in rels;
      AcceptChanges(s, rels[0].from, found, now, done);
    }
  }

  lemma OtherAcceptKeeps(s: Store, c: Call, inv: Id, hash: string)
    requires InvitationsSound(s) && inv < |s.ents| && s.ents[inv].typ == TInvitation &&
             Has(s.ents[inv], TokenHash, Text(hash))
    requires c.op.AcceptInvitation? && c.op.hash != hash
    ensures inv < |AfterCall(s, c).ents| && AfterCall(s, c).ents[inv] == s.ents[inv]
  {
    AfterAccept(s, c);
    OtherAcceptWrites(s, c.op.hash, c.op.checked, c.op.now, c.done, inv, hash);
  }

  lemma InvitationFootprint(op: Op)
    requires TInvitation in Footprint(op)
    ensures op.InviteUser? || op.AcceptInvitation?
  {
  }

  lemma OtherCallKeeps(s: Store, c: Call, inv: Id)
    requires Inv(s) && Admissible(s, c.op) && !c.op.InviteUser? && !c.op.AcceptInvitation?
    requires inv < |s.ents| && s.ents[inv].typ == TInvitation
    ensures inv < |AfterCall(s, c).ents| && AfterCall(s, c).ents[inv] == s.ents[inv]
  {
    CallUntouched(s, c);
    if TInvitation in Footprint(c.op) {
      InvitationFootprint(c.op);
    }
  }

  /** Only a finished acceptance of its own token changes whether an invitation is accepted. */
  lemma StatusAfterCall(s: Store, c: Call, user: Id, inv: Id, email: string, hash: string, expires: int)
    requires Inv(s) && Admissible(s, c.op) && Invites(s, user, inv, email, hash, expires)
    ensures IsAccepted(AfterCall(s, c), inv) <==> IsAccepted(s, inv) || Accepts(s, c, hash)
  {
    if c.op.AcceptInvitation? && c.op.hash == hash {
      OwnAcceptStatus(s, c, user, inv, email, hash, expires);
    } else if c.op.AcceptInvitation? {
      OtherAcceptKeeps(s, c, inv, hash);
    } else if c.op.InviteUser? {
      InviteKeeps(s, c.op.invite, c.op.hash, c.op.at, c.done, inv);
    } else {
      OtherCallKeeps(s, c, inv);
    }
  }

  lemma AcceptedSnoc(agency: string, calls: seq<Call>, before: seq<Call>, c: Call, hash: string)
    ensures AcceptedDuring(agency, calls, before + [c], hash) <==>
            AcceptedDuring(agency, calls, before, hash) || Accepts(Run(agency, calls + before), c, hash)
  {
    assert (before + [c])[..|before|] == before;
  }

  lemma AcceptedStep(agency: string, calls: seq<Call>, before: seq<Call>, c: Call,
                     user: Id, inv: Id, email: string, hash: string, expires: int)
    requires ValidRun(agency, calls + before + [c]) && Invites(Run(agency, calls), user, inv, email, hash, expires)
    ensures IsAccepted(Run(agency, calls + before + [c]), inv) <==>
            IsAccepted(Run(agency, calls + before), inv) || Accepts(Run(agency, calls + before), c, hash)
  {
    RunSnoc(agency, calls + before, c);
    RunKeepsInv(agency, calls + before);
    RunEvolves(agency, calls, before);
    InvitesStays(Run(agency, calls), Run(agency, calls + before), user, inv, email, hash, expires);
    StatusAfterCall(Run(agency, calls + before), c, user, inv, email, hash, expires);
  }

  lemma {:induction false} AcceptedExactly(agency: string, calls: seq<Call>, more: seq<Call>,
                                           user: Id, inv: Id, email: string, hash: string, expires: int)
    requires ValidRun(agency, calls + more) && Invites(Run(agency, calls), user, inv, email, hash, expires)
    requires !IsAccepted(Run(agency, calls), inv)
    ensures IsAccepted(Run(agency, calls + more), inv) <==> AcceptedDuring(agency, calls, more, hash)
    decreases |more|
  {
    if |more| == 0 {
      assert calls + more == calls;
    } else {
      var before, c := more[..|more| - 1], more[|more| - 1];
      SplitLast(calls, more);
      RunSnoc(agency, calls + before, c);
      AcceptedExactly(agency, calls, before, user, inv, email, hash, expires);
      AcceptedSnoc(agency, calls, before, c, hash);
      AcceptedStep(agency, calls, before, c, user, inv, email, hash, expires);
    }
  }

  // ---------------------------------------------------------------- main results

  /** What becomes of a token whose invitation exists. */
  function Verdict(accepted: bool, late: bool, ws: seq<Write>): Outcome {
    if accepted then Refused(InvitationAlreadyAccepted) else if late then Refused(InvitationExpired) else Writes(ws)
  }

  /** The token of an invitation, after any further calls: it activates the user created for the invited
      email and no other; it works until the last instant of its lifetime, however many attempts were cut
      short before; and after one finished acceptance it is refused, whatever else happened. */
  lemma InvitationIdentity(agency: string, calls: seq<Call>, sha: Sha256, random: Digest, req: InviteRequest, at: int,
                           done: nat, more: seq<Call>, checked: int, now: int)
    requires var hash := GenerateToken(sha, "cv_iv_", random).1;
      InviteUserPlan(Run(agency, calls), req, hash, at).Writes? && done >= 3 &&
      ValidRun(agency, calls + [Call(InviteUser(req, hash, at), done)] + more)
    ensures var (token, hash) := GenerateToken(sha, "cv_iv_", random);
      var invited := calls + [Call(InviteUser(req, hash, at), done)];
      var s, user := Run(agency, invited + more), |Run(agency, calls).ents|;
      MadeFor(s, user, req, at) &&
      AcceptInvitationPlan(s, HashSHA256(sha, token), checked, now) ==
        Verdict(AcceptedDuring(agency, invited, more, hash), checked > Floor(Ends(at, req.expiresIn)),
                [Update(user, ActivatePatch(now)), Update(user + 1, AcceptPatch(now))])
  {
    var hash := GenerateToken(sha, "cv_iv_", random).1;
    TokenIdentity(agency, calls, Call(InviteUser(req, hash, at), done), more, checked, now);
  }

  /** The same for the hash of any call that made an invitation. */
  lemma TokenIdentity(agency: string, calls: seq<Call>, c: Call, more: seq<Call>, checked: int, now: int)
    requires ValidRun(agency, calls + [c] + more) && MakesInvitation(Run(agency, calls), c)
    ensures var s, user := Run(agency, calls + [c] + more), |Run(agency, calls).ents|;
      MadeFor(s, user, c.op.invite, c.op.at) &&
      AcceptInvitationPlan(s, c.op.hash, checked, now) ==
        Verdict(AcceptedDuring(agency, calls + [c], more, c.op.hash),
                checked > Floor(Ends(c.op.at, c.op.invite.expiresIn)),
                [Update(user, ActivatePatch(now)), Update(user + 1, AcceptPatch(now))])
  {
    var late, expires := Lateness(c.op.at, c.op.invite.expiresIn, checked);
    TokenAnswers(agency, calls, c, more, expires, checked, now, late);
    InvitedUserLasts(agency, calls, c, more);
  }

  lemma Lateness(at: int, expiresIn: int, checked: int) returns (late: bool, expires: int)
    ensures expires == Sec(at + TTL(expiresIn)) && late == After(checked, expires)
    ensures late == (checked > Floor(Ends(at, expiresIn)))
  {
    expires := Sec(at + TTL(expiresIn));
    late := After(checked, expires);
    InvitationWindow(at, expiresIn, checked);
  }

  /** The call made an invitation: a user, an invitation with the hash, and the edge. */
  predicate MakesInvitation(s: Store, c: Call) {
    c.op.InviteUser? && c.done >= 3 && InviteUserPlan(s, c.op.invite, c.op.hash, c.op.at).Writes?
  }

  lemma InvitationLasts(agency: string, calls: seq<Call>, c: Call, more: seq<Call>, expires: int)
    requires ValidRun(agency, calls + [c] + more) && MakesInvitation(Run(agency, calls), c)
    requires expires == Sec(c.op.at + TTL(c.op.invite.expiresIn))
    ensures var user := |Run(agency, calls).ents|;
      Invites(Run(agency, calls + [c]), user, user + 1, c.op.invite.email, c.op.hash, expires) &&
      !IsAccepted(Run(agency, calls + [c]), user + 1) &&
      Invites(Run(agency, calls + [c] + more), user, user + 1, c.op.invite.email, c.op.hash, expires)
  {
    var s, t, u := Run(agency, calls), Run(agency, calls + [c]), Run(agency, calls + [c] + more);
    assert t == AfterCall(s, c) by {
      RunSnoc(agency, calls, c);
    }
    InvitationMade(s, t, c, expires);
    assert Evolves(t, u) by {
      RunEvolves(agency, calls + [c], more);
    }
    InvitesStays(t, u, |s.ents|, |s.ents| + 1, c.op.invite.email, c.op.hash, expires);
  }

  lemma InvitationMade(s: Store, t: Store, c: Call, expires: int)
    requires MakesInvitation(s, c) && t == AfterCall(s, c) && expires == Sec(c.op.at + TTL(c.op.invite.expiresIn))
    ensures Invites(t, |s.ents|, |s.ents| + 1, c.op.invite.email, c.op.hash, expires) && !IsAccepted(t, |s.ents| + 1)
  {
    InviteCallInvites(s, c.op.invite, c.op.hash, c.op.at, c.done);
  }

  lemma TokenAnswers(agency: string, calls: seq<Call>, c: Call, more: seq<Call>, expires: int, checked: int, now: int,
                     late: bool)
    requires ValidRun(agency, calls + [c] + more) && MakesInvitation(Run(agency, calls), c)
    requires expires == Sec(c.op.at + TTL(c.op.invite.expiresIn)) && late == After(checked, expires)
    ensures var user := |Run(agency, calls).ents|;
      AcceptInvitationPlan(Run(agency, calls + [c] + more), c.op.hash, checked, now) ==
        Verdict(AcceptedDuring(agency, calls + [c], more, c.op.hash), late,
                [Update(user, ActivatePatch(now)), Update(user + 1, AcceptPatch(now))])
  {
    var user, email, hash := |Run(agency, calls).ents|, c.op.invite.email, c.op.hash;
    InvitationLasts(agency, calls, c, more, expires);
    AcceptedExactly(agency, calls + [c], more, user, user + 1, email, hash, expires);
    RunKeepsInv(agency, calls + [c] + more);
    AcceptAnswers(Run(agency, calls + [c] + more), user, user + 1, email, hash, expires, checked, now);
  }

  /** The user made for an invitation: email, display name and creation time are those of the request. */
  predicate MadeFor(s: Store, user: Id, req: InviteRequest, at: int) {
    user < |s.ents| && s.ents[user].typ == TUser && Has(s.ents[user], AgencyId, Text(s.agency)) &&
    Has(s.ents[user], Email, Text(req.email)) && Has(s.ents[user], DisplayName, Text(req.displayName)) &&
    Has(s.ents[user], CreatedAt, At(Sec(at)))
  }

  lemma MadeForStays(s: Store, t: Store, user: Id, req: InviteRequest, at: int)
    requires Evolves(s, t) && MadeFor(s, user, req, at)
    ensures MadeFor(t, user, req, at)
  {
    assert EntityEvolves(s.ents[user], t.ents[user]);
  }

  lemma NewUserMadeFor(s: Store, t: Store, req: InviteRequest, at: int)
    requires |s.ents| < |t.ents| && t.agency == s.agency
    requires t.ents[|s.ents|] == Entity(TUser, UserProps(s.agency, req, Sec(at)), false)
    ensures MadeFor(t, |s.ents|, req, at)
  {
  }

  lemma InvitedUserLasts(agency: string, calls: seq<Call>, c: Call, more: seq<Call>)
    requires ValidRun(agency, calls + [c] + more) && MakesInvitation(Run(agency, calls), c)
    ensures MadeFor(Run(agency, calls + [c] + more), |Run(agency, calls).ents|, c.op.invite, c.op.at)
  {
    var s, t, u := Run(agency, calls), Run(agency, calls + [c]), Run(agency, calls + [c] + more);
    assert t == AfterCall(s, c) by {
      RunSnoc(agency, calls, c);
    }
    assert MadeFor(t, |s.ents|, c.op.invite, c.op.at) by {
      JustMadeFor(s, t, c);
    }
    assert Evolves(t, u) by {
      RunEvolves(agency, calls + [c], more);
    }
    MadeForStays(t, u, |s.ents|, c.op.invite, c.op.at);
  }

  lemma JustMadeFor(s: Store, t: Store, c: Call)
    requires MakesInvitation(s, c) && t == AfterCall(s, c)
    ensures MadeFor(t, |s.ents|, c.op.invite, c.op.at)
  {
    AfterInvite(s, c.op.invite, c.op.hash, c.op.at, c.done);
    InvitedUserStored(s, t, c.op.invite, c.op.hash, c.op.at, c.done);
    AgencyStays(s, Cut(WritesOf(InviteUserPlan(s, c.op.invite, c.op.hash, c.op.at)), c.done));
    NewUserMadeFor(s, t, c.op.invite, c.op.at);
  }

  /** The call `c`, made after the calls `before` of a run, made an invitation with this hash. */
  ghost predicate MadeInvitation(agency: string, calls: seq<Call>, before: seq<Call>, c: Call, hash: string) {
    before + [c] <= calls && MakesInvitation(Run(agency, before), c) && c.op.hash == hash
  }

  /** The user at the other end of the first listed invitation with this token hash. */
  function InvitedUser(s: Store, hash: string): Option<Id> {
    var found := List(s.ents, TInvitation, Where(TokenHash, Text(hash)));
    if found == [] || EdgesInto(s, HasInvitation, found[0]) == [] then None
    else Some(EdgesInto(s, HasInvitation, found[0])[0].from)
  }

  /** In every reachable store the hash of an invitation that was made leads to the user made for it, who still has
      the email, the display name and the creation time of the request. */
  lemma InvitedIsFound(agency: string, calls: seq<Call>, before: seq<Call>, c: Call, hash: string)
    requires ValidRun(agency, calls) && MadeInvitation(agency, calls, before, c, hash)
    ensures var s, user := Run(agency, calls), |Run(agency, before).ents|;
      InvitedUser(s, hash) == Some(user) && MadeFor(s, user, c.op.invite, c.op.at)
  {
    var more := RestOf(calls, before + [c]);
    MadeAndFound(agency, calls, before, c, more);
  }

  lemma RestOf<T>(all: seq<T>, some: seq<T>) returns (rest: seq<T>)
    requires some <= all
    ensures all == some + rest
  {
    rest := all[|some|..];
  }

  lemma MadeAndFound(agency: string, calls: seq<Call>, before: seq<Call>, c: Call, more: seq<Call>)
    requires calls == before + [c] + more && ValidRun(agency, calls) && MakesInvitation(Run(agency, before), c)
    ensures InvitedUser(Run(agency, calls), c.op.hash) == Some(|Run(agency, before).ents|)
    ensures MadeFor(Run(agency, calls), |Run(agency, before).ents|, c.op.invite, c.op.at)
  {
    FoundLater(agency, before, c, more);
    InvitedUserLasts(agency, before, c, more);
  }

  lemma FoundLater(agency: string, calls: seq<Call>, c: Call, more: seq<Call>)
    requires ValidRun(agency, calls + [c] + more) && MakesInvitation(Run(agency, calls), c)
    ensures InvitedUser(Run(agency, calls + [c] + more), c.op.hash) == Some(|Run(agency, calls).ents|)
  {
    var expires := Sec(c.op.at + TTL(c.op.invite.expiresIn));
    InvitationLasts(agency, calls, c, more, expires);
    RunKeepsInv(agency, calls + [c] + more);
    FoundUser(Run(agency, calls + [c] + more), |Run(agency, calls).ents|, c.op.invite.email, c.op.hash, expires);
  }

  lemma FoundUser(s: Store, user: Id, email: string, hash: string, expires: int)
    requires Inv(s) && Invites(s, user, user + 1, email, hash, expires)
    ensures InvitedUser(s, hash) == Some(user)
  {
    TheInvitation(s, user, user + 1, email, hash, expires);
  }

  lemma AcceptedBoth(s: Store, user: Id, inv: Id, now: int)
    requires user < |s.ents| && inv < |s.ents| && user != inv
    ensures var t := ApplyAll(s, [Update(user, ActivatePatch(now)), Update(inv, AcceptPatch(now))]);
      |t.ents| == |s.ents| && Has(t.ents[user], Status, Word(Active)) && IsAccepted(t, inv)
  {
    var w1, w2 := Update(user, ActivatePatch(now)), Update(inv, AcceptPatch(now));
    TwoWrites(s, w1, w2, 2);
    assert Cut([w1, w2], 2) == [w1, w2];
  }

  lemma JustInvited(agency: string, calls: seq<Call>, s: Store, t: Store, req: InviteRequest, hash: string,
                    at: int, done: nat, expires: int)
    requires ValidRun(agency, calls) && s == Run(agency, calls)
    requires t == Run(agency, calls + [Call(InviteUser(req, hash, at), done)])
    requires InviteUserPlan(s, req, hash, at).Writes? && done >= 3 && expires == Sec(at + TTL(req.expiresIn))
    requires List(s.ents, TInvitation, Where(TokenHash, Text(hash))) == []
    ensures ValidRun(agency, calls + [Call(InviteUser(req, hash, at), done)])
    ensures Invites(t, |s.ents|, |s.ents| + 1, req.email, hash, expires) && !IsAccepted(t, |s.ents| + 1)
  {
    RunSnoc(agency, calls, Call(InviteUser(req, hash, at), done));
    InviteCallInvites(s, req, hash, at, done);
  }

  /** From every reachable store `s` an unclaimed email can be invited, and the invitation accepted until it
      expires: both calls go through, and in the store `final` they lead to the user is active and the
      invitation accepted. */
  lemma InviteThenAccept(agency: string, calls: seq<Call>, s: Store, req: InviteRequest, hash: string,
                         at: int, done: nat, invited: seq<Call>, checked: int, now: int, final: Store)
    requires ValidRun(agency, calls) && s == Run(agency, calls) &&
             invited == calls + [Call(InviteUser(req, hash, at), done)]
    requires List(s.ents, TUser, Where(Email, Text(req.email))) == []
    requires List(s.ents, TInvitation, Where(TokenHash, Text(hash))) == []
    requires done >= 3 && checked <= Floor(Ends(at, req.expiresIn))
    requires final == Run(agency, invited + [Call(AcceptInvitation(hash, checked, now), 2)])
    ensures ValidRun(agency, invited + [Call(AcceptInvitation(hash, checked, now), 2)]) && |s.ents| + 1 < |final.ents|
    ensures Has(final.ents[|s.ents|], Status, Word(Active)) && IsAccepted(final, |s.ents| + 1)
  {
    var expires := ExpiryInTime(at, req.expiresIn, checked);
    InTimeIsAccepted(agency, calls, s, req, hash, at, done, invited, expires, checked, now, final);
  }

  lemma ExpiryInTime(at: int, expiresIn: int, checked: int) returns (expires: int)
    requires checked <= Floor(Ends(at, expiresIn))
    ensures expires == Sec(at + TTL(expiresIn)) && !After(checked, expires)
  {
    expires := Sec(at + TTL(expiresIn));
  }

  lemma InTimeIsAccepted(agency: string, calls: seq<Call>, s: Store, req: InviteRequest, hash: string, at: int,
                         done: nat, invited: seq<Call>, expires: int, checked: int, now: int, final: Store)
    requires ValidRun(agency, calls) && s == Run(agency, calls) &&
             invited == calls + [Call(InviteUser(req, hash, at), done)]
    requires List(s.ents, TUser, Where(Email, Text(req.email))) == []
    requires List(s.ents, TInvitation, Where(TokenHash, Text(hash))) == []
    requires done >= 3 && expires == Sec(at + TTL(req.expiresIn)) && !After(checked, expires)
    requires final == Run(agency, invited + [Call(AcceptInvitation(hash, checked, now), 2)])
    ensures ValidRun(agency, invited + [Call(AcceptInvitation(hash, checked, now), 2)]) && |s.ents| + 1 < |final.ents|
    ensures Has(final.ents[|s.ents|], Status, Word(Active)) && IsAccepted(final, |s.ents| + 1)
  {
    var t, user := Run(agency, invited), |s.ents|;
    JustInvited(agency, calls, s, t, req, hash, at, done, expires);
    OpenIsAccepted(agency, invited, t, user, req.email, hash, expires, checked, now, final);
  }

  lemma OpenIsAccepted(agency: string, calls: seq<Call>, s: Store, user: Id, email: string, hash: string, expires: int,
                       checked: int, now: int, final: Store)
    requires ValidRun(agency, calls) && s == Run(agency, calls)
    requires Invites(s, user, user + 1, email, hash, expires) && !IsAccepted(s, user + 1) && !After(checked, expires)
    requires final == Run(agency, calls + [Call(AcceptInvitation(hash, checked, now), 2)])
    ensures ValidRun(agency, calls + [Call(AcceptInvitation(hash, checked, now), 2)])
    ensures user + 1 < |final.ents| && Has(final.ents[user], Status, Word(Active)) && IsAccepted(final, user + 1)
  {
    var c := Call(AcceptInvitation(hash, checked, now), 2);
    assert ValidRun(agency, calls + [c]) && final == AfterCall(s, c) by {
      RunSnoc(agency, calls, c);
    }
    assert AcceptInvitationPlan(s, hash, checked, now) ==
           Writes([Update(user, ActivatePatch(now)), Update(user + 1, AcceptPatch(now))]) by {
      RunKeepsInv(agency, calls);
      OpenPlan(s, user, email, hash, expires, checked, now);
    }
    assert user + 1 < |s.ents|;
    AcceptNow(s, final, user, hash, checked, now);
  }

  lemma OpenPlan(s: Store, user: Id, email: string, hash: string, expires: int, checked: int, now: int)
    requires Inv(s)
    requires Invites(s, user, user + 1, email, hash, expires) && !IsAccepted(s, user + 1) && !After(checked, expires)
    ensures AcceptInvitationPlan(s, hash, checked, now) ==
            Writes([Update(user, ActivatePatch(now)), Update(user + 1, AcceptPatch(now))])
  {
    AcceptAnswers(s, user, user + 1, email, hash, expires, checked, now);
  }

  lemma AcceptNow(s: Store, t: Store, user: Id, hash: string, checked: int, now: int)
    requires user + 1 < |s.ents| && t == AfterCall(s, Call(AcceptInvitation(hash, checked, now), 2))
    requires AcceptInvitationPlan(s, hash, checked, now) ==
             Writes([Update(user, ActivatePatch(now)), Update(user + 1, AcceptPatch(now))])
    ensures |t.ents| == |s.ents| && Has(t.ents[user], Status, Word(Active)) && IsAccepted(t, user + 1)
  {
    var ws := [Update(user, ActivatePatch(now)), Update(user + 1, AcceptPatch(now))];
    assert t == ApplyAll(s, ws) by {
      AfterAccept(s, Call(AcceptInvitation(hash, checked, now), 2));
      CutAll(ws, 2);
    }
    AcceptedBoth(s, user, user + 1, now);
  }

  lemma AcceptedHasUser(s: Store, inv: Id)
    requires InvitationsSound(s) && IsAccepted(s, inv) && s.ents[inv].typ == TInvitation
    ensures exists user: Id ::
      EdgesInto(s, HasInvitation, inv) == [Edge(HasInvitation, user, inv)] && user < |s.ents| &&
      s.ents[user].typ == TUser && !Has(s.ents[user], Status, Word(Invited))
  {
    assert InvitationSound(s, inv);
    var into := EdgesInto(s, HasInvitation, inv);
    assert into[0] in into;
    assert into == [Edge(HasInvitation, into[0].from, inv)];
  }

  /** In every reachable store an accepted invitation has exactly one `has_invitation` edge, and the user
      it comes from is no longer in status `invited`. */
  lemma AcceptedMeansActivated(agency: string, calls: seq<Call>, inv: Id)
    requires ValidRun(agency, calls)
    requires IsAccepted(Run(agency, calls), inv) && Run(agency, calls).ents[inv].typ == TInvitation
    ensures var s := Run(agency, calls);
      exists user: Id ::
        EdgesInto(s, HasInvitation, inv) == [Edge(HasInvitation, user, inv)] && user < |s.ents| &&
        s.ents[user].typ == TUser && !Has(s.ents[user], Status, Word(Invited))
  {
    RunKeepsInv(agency, calls);
    AcceptedHasUser(Run(agency, calls), inv);
  }

  predicate SameValue(a: Entity, b: Entity, p: Prop) {
    p in a.props && Has(b, p, a.props[p])
  }

  lemma EmailKept(a: Entity, b: Entity)
    requires EntityEvolves(a, b) && a.typ == TUser && Email in a.props
    ensures b.typ == TUser && SameValue(a, b, Email)
  {
  }

  lemma ClaimedEmail(s: Store, user: Id, req: InviteRequest, hash: string, at: int)
    requires EntitiesSound(s) && user < |s.ents| && s.ents[user].typ == TUser &&
             Has(s.ents[user], Email, Text(req.email))
    ensures InviteUserPlan(s, req, hash, at) == Refused(UserAlreadyExists)
  {
    assert EntitySound(s, s.ents[user]);
    assert user in List(s.ents, TUser, Where(Email, Text(req.email)));
  }

  /** Once a user exists for an email, deleted or not and invited successfully or not, the email can never
      be invited again. */
  lemma EmailStaysClaimed(agency: string, calls: seq<Call>, more: seq<Call>, user: Id, req: InviteRequest,
                          hash: string, at: int)
    requires ValidRun(agency, calls + more)
    requires var s := Run(agency, calls);
      user < |s.ents| && s.ents[user].typ == TUser && Has(s.ents[user], Email, Text(req.email))
    ensures InviteUserPlan(Run(agency, calls + more), req, hash, at) == Refused(UserAlreadyExists)
  {
    var s, t := Run(agency, calls), Run(agency, calls + more);
    RunEvolves(agency, calls, more);
    RunKeepsInv(agency, calls + more);
    EmailKept(s.ents[user], t.ents[user]);
    ClaimedEmail(t, user, req, hash, at);
  }

  lemma InvitedUserStored(s: Store, t: Store, req: InviteRequest, hash: string, at: int, done: nat)
    requires InviteUserPlan(s, req, hash, at).Writes? && done >= 1
    requires t == ApplyAll(s, Cut(InviteUserPlan(s, req, hash, at).ws, done))
    ensures |s.ents| < |t.ents| && t.ents[|s.ents|] == Entity(TUser, UserProps(s.agency, req, Sec(at)), false)
  {
    var ws := InviteUserPlan(s, req, hash, at).ws;
    InviteCreates(s, req, hash, at);
    InvitePlanIs(s, req, hash, at);
    FirstCreate(s, ws, done, {TUser, TInvitation});
  }

  predicate EmailTaken(s: Store, email: string) {
    List(s.ents, TUser, Where(Email, Text(email))) != []
  }

  lemma RefusedWhenTaken(s: Store, req: InviteRequest, hash: string, at: int)
    ensures InviteUserPlan(s, req, hash, at).Refused? <==> EmailTaken(s, req.email)
    ensures EmailTaken(s, req.email) ==> InviteUserPlan(s, req, hash, at) == Refused(UserAlreadyExists)
  {
  }

  lemma UserTakesEmail(s: Store, i: Id, email: string)
    requires i < |s.ents| && Matches(s.ents[i], TUser, Where(Email, Text(email)))
    ensures EmailTaken(s, email)
  {
  }

  lemma TakenByInvitation(s: Store, t: Store, ws: seq<Write>, req: InviteRequest, hash: string, at: int, done: nat)
    requires InviteUserPlan(s, req, hash, at) == Writes(ws) && t == ApplyAll(s, Cut(ws, done))
    ensures EmailTaken(t, req.email) <==> done >= 1
  {
    if done == 0 {
      assert Cut(ws, 0) == [];
    } else {
      InvitedUserStored(s, t, req, hash, at, done);
      UserTakesEmail(t, |s.ents|, req.email);
    }
  }

  /** An invitation that was cut short anywhere strands its email, so that another invitation of it is refused,
      if and only if the user was made. */
  lemma StrandedEmail(s: Store, t: Store, req: InviteRequest, hash: string, at: int, done: nat,
                      again: InviteRequest, newHash: string, later: int)
    requires InviteUserPlan(s, req, hash, at).Writes? && t == AfterCall(s, Call(InviteUser(req, hash, at), done))
    requires again.email == req.email
    ensures InviteUserPlan(t, again, newHash, later).Refused? <==> done >= 1
    ensures done >= 1 ==> InviteUserPlan(t, again, newHash, later) == Refused(UserAlreadyExists)
  {
    TakenByInvitation(s, t, WritesOf(Plan(s, InviteUser(req, hash, at))), req, hash, at, done);
    RefusedWhenTaken(t, again, newHash, later);
  }

  lemma StrandedUser(agency: string, calls: seq<Call>, s: Store, c: Call, t: Store)
    requires s == Run(agency, calls) && t == Run(agency, calls + [c]) && c.op.InviteUser? && c.done >= 1
    requires Plan(s, c.op).Writes?
    ensures |s.ents| < |t.ents| && t.ents[|s.ents|].typ == TUser &&
            Has(t.ents[|s.ents|], Email, Text(c.op.invite.email))
  {
    RunSnoc(agency, calls, c);
    InvitedUserStored(s, t, c.op.invite, c.op.hash, c.op.at, c.done);
  }

  /** And it stays stranded for the rest of the run. */
  lemma StrandedForLife(agency: string, calls: seq<Call>, c: Call, more: seq<Call>,
                        again: InviteRequest, newHash: string, later: int)
    requires ValidRun(agency, calls + [c] + more) && c.op.InviteUser? && again.email == c.op.invite.email
    requires Plan(Run(agency, calls), c.op).Writes? && c.done >= 1
    ensures InviteUserPlan(Run(agency, calls + [c] + more), again, newHash, later) == Refused(UserAlreadyExists)
  {
    var s := Run(agency, calls);
    StrandedUser(agency, calls, s, c, Run(agency, calls + [c]));
    EmailStaysClaimed(agency, calls + [c], more, |s.ents|, again, newHash, later);
  }

  /** Two entities that must not both exist. Deleted users still count. */
  predicate Clash(a: Entity, b: Entity) {
    a.typ == b.typ &&
    match a.typ
    case TOrganization => !a.deleted && !b.deleted
    case TUser => SameValue(a, b, Email)
    case TRole => !a.deleted && !b.deleted && SameValue(a, b, Name)
    case TScope => SameValue(a, b, Name)
    case TInvitation => SameValue(a, b, TokenHash)
    case TOAuthClient => !a.deleted && !b.deleted && SameValue(a, b, ClientId)
    case _ => false
  }

  lemma NoClash(s: Store, i: Id, j: Id, f: Filter)
    requires i < |s.ents| && j < |s.ents| && AtMostOne(s, s.ents[i].typ, f) && s.ents[i].typ == s.ents[j].typ
    requires Matches(s.ents[i], s.ents[i].typ, f) && Matches(s.ents[j], s.ents[i].typ, f)
    ensures i == j
  {
    assert Hits(s, i, s.ents[i].typ, f) && Hits(s, j, s.ents[i].typ, f);
  }

  lemma ClashFilter(a: Entity, b: Entity)
    requires Clash(a, b) && (a.deleted ==> MayDelete(a)) && (b.deleted ==> MayDelete(b))
    ensures Key(a.typ).Some? ==>
      Key(a.typ).value in a.props &&
      var f := Where(Key(a.typ).value, a.props[Key(a.typ).value]); Matches(a, a.typ, f) && Matches(b, a.typ, f)
    ensures Key(a.typ).None? ==> a.typ == TOrganization && Matches(a, a.typ, Any) && Matches(b, a.typ, Any)
  {
  }

  /** In every reachable store: at most one live organization, one user per email (deleted users
      included), and one live role, scope, invitation and client per name, token hash or client id. */
  lemma UniqueLiveKeys(agency: string, calls: seq<Call>, i: Id, j: Id)
    requires ValidRun(agency, calls)
    requires i < |Run(agency, calls).ents| && j < |Run(agency, calls).ents|
    requires Clash(Run(agency, calls).ents[i], Run(agency, calls).ents[j])
    ensures i == j
  {
    var s := Run(agency, calls);
    RunKeepsInv(agency, calls);
    assert EntitySound(s, s.ents[i]) && EntitySound(s, s.ents[j]);
    ClashFilter(s.ents[i], s.ents[j]);
    var t := s.ents[i].typ;
    if Key(t).Some? {
      NoClash(s, i, j, Where(Key(t).value, s.ents[i].props[Key(t).value]));
    } else {
      NoClash(s, i, j, Any);
    }
  }
}
