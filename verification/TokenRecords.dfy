/** token_ops.go over whole runs: introspection against a ledger that knows nothing of storage, purging
    or failures. */
module TokenRecords {
  import opened Wrappers
  import opened EntityGraph
  import opened Helpers
  import opened Operations
  import opened Invariants
  import opened PlansLegal
  import opened Footprints

  // ---------------------------------------------------------------- introspection, call by call

  datatype Introspection = Inactive | ActiveToken(exp: int, iat: int)

  function RevocationsOf(s: Store, hash: string): seq<Id> {
    List(s.ents, TTokenRevocation, Where(TokenHash, Text(hash)))
  }

  function AccessTokensOf(s: Store, hash: string): seq<Id> {
    List(s.ents, TAccessToken, Where(TokenHash, Text(hash)))
  }

  /** The answer from a token's properties: a zero expiry never expires. */
  function JudgeToken(p: Props, nanos: int): Introspection {
    var exp := PropTime(p, ExpiresAt);
    if exp != ZERO_TIME && After(nanos, exp) then Inactive else ActiveToken(exp, PropTime(p, CreatedAt))
  }

  /** Introspect: any lookup may fail, and then the token is reported inactive. */
  function Introspect(s: Store, hash: string, revocationsFail: bool, tokensFail: bool, nanos: int): Introspection {
    if revocationsFail || RevocationsOf(s, hash) != [] then Inactive
    else if tokensFail || AccessTokensOf(s, hash) == [] then Inactive
    else JudgeToken(s.ents[AccessTokensOf(s, hash)[0]].props, nanos)
  }

  /** What a revocation records as expiry when its search found a token: the token's, or the second of the revocation
      for a token that has none. */
  lemma RecordedExpiryOf(p: Props, agency: string, hash: string, reason: string, now: int, expires: int)
    ensures ExpiresAt in p && p[ExpiresAt] == At(expires) ==>
      Has(Entity(TTokenRevocation, RevocationProps(agency, hash, Some(StoredExpiry(p)), reason, now), false),
          ExpiresAt, At(expires))
    ensures ExpiresAt !in p ==>
      Has(Entity(TTokenRevocation, RevocationProps(agency, hash, Some(StoredExpiry(p)), reason, now), false),
          ExpiresAt, At(now))
  {
  }

  // ---------------------------------------------------------------- the ledger

  /** Which access tokens were ever minted, with expiry and issue time, and which hashes were revoked. */
  datatype Ledger = Ledger(minted: map<string, (int, int)>, revoked: set<string>)

  function Note(l: Ledger, c: Call): Ledger {
    if c.done == 0 then l else
    match c.op
    case Mint(false, hash, expires, now) => l.(minted := l.minted[hash := (expires, now)])
    case Revoke(hash, _, _, _, _) => l.(revoked := l.revoked + {hash})
    case _ => l
  }

  function LedgerOf(calls: seq<Call>): Ledger {
    if |calls| == 0 then Ledger(map[], {})
    else Note(LedgerOf(calls[..|calls| - 1]), calls[|calls| - 1])
  }

  /** The simple rule: minted, not past its expiry, never revoked. */
  function Rule(l: Ledger, hash: string, nanos: int): Introspection {
    if hash in l.minted && hash !in l.revoked && !After(nanos, l.minted[hash].0)
    then ActiveToken(l.minted[hash].0, l.minted[hash].1) else Inactive
  }

  /** Every purge happened no later than `nanos`. */
  ghost predicate PurgedBy(calls: seq<Call>, nanos: int) {
    forall c :: c in calls && c.op.Purge? ==> c.op.at <= nanos
  }

  // ---------------------------------------------------------------- what the store knows

  predicate IsToken(e: Entity) {
    e.typ == TAccessToken || e.typ == TRefreshToken
  }

  function HashOf(e: Entity): Value {
    if TokenHash in e.props then e.props[TokenHash] else Text("")
  }

  predicate WellTimed(e: Entity) {
    ExpiresAt in e.props && e.props[ExpiresAt].At? && e.props[ExpiresAt].sec != ZERO_TIME
  }

  ghost predicate TokensSound(s: Store) {
    (forall i :: 0 <= i < |s.ents| && IsToken(s.ents[i]) ==> WellTimed(s.ents[i]) && TokenHash in s.ents[i].props) &&
    (forall i, j ::
      (0 <= i < |s.ents| && 0 <= j < |s.ents| && IsToken(s.ents[i]) && IsToken(s.ents[j]) &&
       HashOf(s.ents[i]) == HashOf(s.ents[j])) ==> i == j)
  }

  ghost predicate AccessRecord(s: Store, i: Id, hash: string) {
    i < |s.ents| && s.ents[i].typ == TAccessToken && Has(s.ents[i], TokenHash, Text(hash))
  }

  ghost predicate RevocationRecord(s: Store, i: Id, hash: string) {
    i < |s.ents| && s.ents[i].typ == TTokenRevocation && Has(s.ents[i], TokenHash, Text(hash))
  }

  /** The ledger's tokens are the access token records, purged or not. */
  ghost predicate MintedMatches(s: Store, l: Ledger) {
    (forall h :: h in l.minted ==> exists i: Id :: AccessRecord(s, i, h)) &&
    (forall i: Id, h :: AccessRecord(s, i, h) ==>
       h in l.minted && Has(s.ents[i], ExpiresAt, At(l.minted[h].0)) && Has(s.ents[i], CreatedAt, At(l.minted[h].1)))
  }

  ghost predicate RevokedMatches(s: Store, l: Ledger) {
    forall h :: h in l.revoked <==> exists i: Id :: RevocationRecord(s, i, h)
  }

  /** A purged record was past its expiry. */
  ghost predicate PurgedExpired(s: Store, nanos: int) {
    forall i :: 0 <= i < |s.ents| && s.ents[i].typ in ARTIFACTS && s.ents[i].deleted ==>
      ExpiresAt in s.ents[i].props && s.ents[i].props[ExpiresAt].At? && After(nanos, s.ents[i].props[ExpiresAt].sec)
  }

  /** Some token record carries the hash and this very expiry. */
  ghost predicate TokenWithExpiry(s: Store, hash: Value, expiry: Value) {
    exists t :: 0 <= t < |s.ents| && IsToken(s.ents[t]) && HashOf(s.ents[t]) == hash &&
      Has(s.ents[t], ExpiresAt, expiry)
  }

  ghost predicate Tracks(s: Store, l: Ledger, nanos: int) {
    TokensSound(s) && MintedMatches(s, l) && RevokedMatches(s, l) && PurgedExpired(s, nanos)
  }

  /** The revocation `r` expires no earlier than the token `i`. */
  predicate Outlasts(s: Store, r: Id, i: Id) {
    r < |s.ents| && i < |s.ents| && WellTimed(s.ents[i]) && ExpiresAt in s.ents[r].props &&
    s.ents[r].props[ExpiresAt].At? &&
    s.ents[i].props[ExpiresAt].sec <= s.ents[r].props[ExpiresAt].sec
  }

  /** The token is past its expiry, or some revocation of its hash, purged or not, outlasts it. */
  ghost predicate Guarded(s: Store, hash: string, i: Id, nanos: int) {
    i < |s.ents| && WellTimed(s.ents[i]) &&
    (After(nanos, s.ents[i].props[ExpiresAt].sec) || exists r: Id :: RevocationRecord(s, r, hash) && Outlasts(s, r, i))
  }

  /** A token with this hash that was revoked is guarded. */
  ghost predicate Upheld(s: Store, l: Ledger, hash: string, nanos: int) {
    hash in l.revoked ==> forall i: Id :: AccessRecord(s, i, hash) ==> Guarded(s, hash, i, nanos)
  }

  // ---------------------------------------------------------------- the rule is what introspection answers

  lemma FirstAccessToken(s: Store, hash: string, i: Id)
    requires TokensSound(s) && AccessRecord(s, i, hash) && !s.ents[i].deleted
    ensures AccessTokensOf(s, hash) != [] && AccessTokensOf(s, hash)[0] == i
  {
    var found := AccessTokensOf(s, hash);
    assert i in found;
    assert IsToken(s.ents[found[0]]) && HashOf(s.ents[found[0]]) == HashOf(s.ents[i]);
  }

  /** A revocation that outlasts a token not yet past its expiry cannot have been purged. */
  lemma OutlastingIsListed(s: Store, hash: string, i: Id, r: Id, nanos: int)
    requires PurgedExpired(s, nanos) && RevocationRecord(s, r, hash) && Outlasts(s, r, i)
    requires !After(nanos, s.ents[i].props[ExpiresAt].sec)
    ensures RevocationsOf(s, hash) != []
  {
    assert s.ents[r].typ in ARTIFACTS && !s.ents[r].deleted;
    assert r in RevocationsOf(s, hash);
  }

  /** A revoked and guarded token that is not past its expiry has a revocation still listed. */
  lemma RevocationOutlivesToken(s: Store, l: Ledger, hash: string, nanos: int)
    requires Tracks(s, l, nanos) && Upheld(s, l, hash, nanos)
    requires hash in l.minted && hash in l.revoked && !After(nanos, l.minted[hash].0)
    ensures RevocationsOf(s, hash) != []
  {
    var i: Id :| AccessRecord(s, i, hash);
    assert Guarded(s, hash, i, nanos) && !After(nanos, s.ents[i].props[ExpiresAt].sec);
    var r: Id :| RevocationRecord(s, r, hash) && Outlasts(s, r, i);
    OutlastingIsListed(s, hash, i, r, nanos);
  }

  lemma NoneListed(s: Store, hash: string)
    ensures (forall i: Id :: !AccessRecord(s, i, hash)) ==> AccessTokensOf(s, hash) == []
    ensures (forall i: Id :: !RevocationRecord(s, i, hash)) ==> RevocationsOf(s, hash) == []
  {
    if forall i: Id :: !AccessRecord(s, i, hash) {
      forall i | 0 <= i < |s.ents|
        ensures !Matches(s.ents[i], TAccessToken, Where(TokenHash, Text(hash)))
      {
        assert !AccessRecord(s, i, hash);
      }
      ListEmpty(s.ents, TAccessToken, Where(TokenHash, Text(hash)));
    }
    if forall i: Id :: !RevocationRecord(s, i, hash) {
      forall i | 0 <= i < |s.ents|
        ensures !Matches(s.ents[i], TTokenRevocation, Where(TokenHash, Text(hash)))
      {
        assert !RevocationRecord(s, i, hash);
      }
      ListEmpty(s.ents, TTokenRevocation, Where(TokenHash, Text(hash)));
    }
  }

  lemma ExpiredIsInactive(s: Store, l: Ledger, hash: string, nanos: int)
    requires Tracks(s, l, nanos) && (hash in l.minted ==> After(nanos, l.minted[hash].0))
    ensures Introspect(s, hash, false, false, nanos) == Inactive
  {
    NoneListed(s, hash);
    if AccessTokensOf(s, hash) != [] {
      var a := AccessTokensOf(s, hash)[0];
      assert AccessRecord(s, a, hash);
      assert IsToken(s.ents[a]);
    }
  }

  lemma CurrentFollowsRevocations(s: Store, l: Ledger, hash: string, nanos: int)
    requires Tracks(s, l, nanos) && Upheld(s, l, hash, nanos) && hash in l.minted && !After(nanos, l.minted[hash].0)
    ensures Introspect(s, hash, false, false, nanos) == Rule(l, hash, nanos)
  {
    if hash in l.revoked {
      RevocationOutlivesToken(s, l, hash, nanos);
    } else {
      assert forall r: Id :: !RevocationRecord(s, r, hash);
      NoneListed(s, hash);
      CurrentIsActive(s, l, hash, nanos);
    }
  }

  lemma CurrentIsActive(s: Store, l: Ledger, hash: string, nanos: int)
    requires TokensSound(s) && MintedMatches(s, l) && PurgedExpired(s, nanos) && RevocationsOf(s, hash) == []
    requires hash in l.minted && !After(nanos, l.minted[hash].0)
    ensures Introspect(s, hash, false, false, nanos) == ActiveToken(l.minted[hash].0, l.minted[hash].1)
  {
    var i: Id :| AccessRecord(s, i, hash);
    assert IsToken(s.ents[i]) && !s.ents[i].deleted;
    FirstAccessToken(s, hash, i);
  }

  /** Without failures the answer is the rule's; with failures it is inactive. */
  lemma IntrospectIsRule(s: Store, l: Ledger, hash: string, revocationsFail: bool, tokensFail: bool, nanos: int)
    requires Tracks(s, l, nanos) && Upheld(s, l, hash, nanos)
    ensures Introspect(s, hash, revocationsFail, tokensFail, nanos)
            == if revocationsFail || tokensFail then Inactive else Rule(l, hash, nanos)
  {
    if !revocationsFail && !tokensFail {
      if hash in l.minted && !After(nanos, l.minted[hash].0) {
        CurrentFollowsRevocations(s, l, hash, nanos);
      } else {
        ExpiredIsInactive(s, l, hash, nanos);
      }
    }
  }

  // ---------------------------------------------------------------- every call keeps the ledger in step

  /** Writes that touch no token and no revocation. */
  predicate Unrelated(s: Store, w: Write) {
    match w
    case Create(t, _) => t !in ARTIFACTS
    case Update(id, patch) => id < |s.ents| && s.ents[id].typ in ARTIFACTS ==> patch == map[]
    case Delete(id) => id < |s.ents| ==> s.ents[id].typ !in ARTIFACTS
    case Link(_) => true
  }

  predicate UnrelatedAll(s: Store, ws: seq<Write>)
    decreases |ws|
  {
    |ws| == 0 || (Unrelated(s, ws[0]) && UnrelatedAll(Apply(s, ws[0]), ws[1..]))
  }

  /** From `s` to `t` artifacts keep their type and properties, and only expired ones are hidden. */
  ghost predicate Kept(s: Store, t: Store, nanos: int) {
    |s.ents| <= |t.ents| &&
    forall i :: 0 <= i < |s.ents| ==> KeptEntity(s.ents[i], t.ents[i], nanos)
  }

  predicate KeptEntity(a: Entity, b: Entity, nanos: int) {
    a.typ == b.typ &&
    (a.typ in ARTIFACTS ==>
      a.props == b.props &&
      (b.deleted && !a.deleted ==>
        ExpiresAt in a.props && a.props[ExpiresAt].At? && After(nanos, a.props[ExpiresAt].sec)))
  }

  lemma TokensSoundKept(s: Store, t: Store, nanos: int)
    requires TokensSound(s) && Kept(s, t, nanos)
    requires forall i :: |s.ents| <= i < |t.ents| ==> i == |s.ents| || !IsToken(t.ents[i])
    requires |s.ents| < |t.ents| && IsToken(t.ents[|s.ents|]) ==>
      WellTimed(t.ents[|s.ents|]) && TokenHash in t.ents[|s.ents|].props &&
      forall j :: 0 <= j < |s.ents| && IsToken(s.ents[j]) ==> HashOf(s.ents[j]) != HashOf(t.ents[|s.ents|])
    ensures TokensSound(t)
  {
    assert forall i :: 0 <= i < |s.ents| ==> KeptEntity(s.ents[i], t.ents[i], nanos);
  }

  lemma PurgedExpiredKept(s: Store, t: Store, nanos: int)
    requires PurgedExpired(s, nanos) && Kept(s, t, nanos)
    requires forall i :: |s.ents| <= i < |t.ents| && t.ents[i].typ in ARTIFACTS ==> !t.ents[i].deleted
    ensures PurgedExpired(t, nanos)
  {
    assert forall i :: 0 <= i < |s.ents| ==> KeptEntity(s.ents[i], t.ents[i], nanos);
  }

  lemma TokenStays(s: Store, t: Store, nanos: int, hash: Value, expiry: Value)
    requires TokenWithExpiry(s, hash, expiry) && Kept(s, t, nanos)
    ensures TokenWithExpiry(t, hash, expiry)
  {
    var i :| 0 <= i < |s.ents| && IsToken(s.ents[i]) && HashOf(s.ents[i]) == hash && Has(s.ents[i], ExpiresAt, expiry);
    assert KeptEntity(s.ents[i], t.ents[i], nanos);
  }

  lemma RecordsKept(s: Store, t: Store, nanos: int)
    requires Kept(s, t, nanos)
    ensures forall i: Id, h :: i < |s.ents| ==> (AccessRecord(t, i, h) <==> AccessRecord(s, i, h))
    ensures forall i: Id, h :: i < |s.ents| ==> (RevocationRecord(t, i, h) <==> RevocationRecord(s, i, h))
  {
    assert forall i :: 0 <= i < |s.ents| ==> KeptEntity(s.ents[i], t.ents[i], nanos);
  }

  lemma MintedKept(s: Store, t: Store, l: Ledger, nanos: int)
    requires MintedMatches(s, l) && Kept(s, t, nanos)
    requires forall i :: |s.ents| <= i < |t.ents| ==> t.ents[i].typ != TAccessToken
    ensures MintedMatches(t, l)
  {
    RecordsKept(s, t, nanos);
    forall h | h in l.minted
      ensures exists i: Id :: AccessRecord(t, i, h)
    {
      var i: Id :| AccessRecord(s, i, h);
      assert AccessRecord(t, i, h);
    }
    forall i: Id, h | AccessRecord(t, i, h)
      ensures h in l.minted && Has(t.ents[i], ExpiresAt, At(l.minted[h].0)) &&
              Has(t.ents[i], CreatedAt, At(l.minted[h].1))
    {
      assert AccessRecord(s, i, h) && KeptEntity(s.ents[i], t.ents[i], nanos);
    }
  }

  lemma RevokedKept(s: Store, t: Store, l: Ledger, nanos: int)
    requires RevokedMatches(s, l) && Kept(s, t, nanos)
    requires forall i :: |s.ents| <= i < |t.ents| ==> t.ents[i].typ != TTokenRevocation
    ensures RevokedMatches(t, l)
  {
    RecordsKept(s, t, nanos);
    forall h
      ensures h in l.revoked <==> exists i: Id :: RevocationRecord(t, i, h)
    {
      if i: Id :| RevocationRecord(s, i, h) {
        assert RevocationRecord(t, i, h);
      }
    }
  }

  /** Nothing new among the artifacts. */
  lemma TracksKept(s: Store, t: Store, l: Ledger, nanos: int)
    requires Tracks(s, l, nanos) && Kept(s, t, nanos)
    requires forall i :: |s.ents| <= i < |t.ents| ==> t.ents[i].typ !in ARTIFACTS
    ensures Tracks(t, l, nanos)
  {
    TokensSoundKept(s, t, nanos);
    PurgedExpiredKept(s, t, nanos);
    MintedKept(s, t, l, nanos);
    RevokedKept(s, t, l, nanos);
  }

  lemma TracksUnrelated(s: Store, w: Write, l: Ledger, nanos: int)
    requires Tracks(s, l, nanos) && Unrelated(s, w)
    ensures Tracks(Apply(s, w), l, nanos)
  {
    if w.Update? && w.id < |s.ents| && s.ents[w.id].typ in ARTIFACTS {
      assert s.ents[w.id].props + map[] == s.ents[w.id].props;
    }
    TracksKept(s, Apply(s, w), l, nanos);
  }

  lemma {:induction false} TracksUnrelatedAll(s: Store, ws: seq<Write>, l: Ledger, nanos: int)
    requires Tracks(s, l, nanos) && UnrelatedAll(s, ws)
    ensures Tracks(ApplyAll(s, ws), l, nanos)
    decreases |ws|
  {
    if |ws| > 0 {
      TracksUnrelated(s, ws[0], l, nanos);
      TracksUnrelatedAll(Apply(s, ws[0]), ws[1..], l, nanos);
    }
  }

  lemma {:induction false} TouchOnlyUnrelated(s: Store, ws: seq<Write>, types: set<TypeName>)
    requires TouchOnly(s, ws, types) && types !! ARTIFACTS
    ensures UnrelatedAll(s, ws)
    decreases |ws|
  {
    if |ws| > 0 {
      TouchOnlyUnrelated(Apply(s, ws[0]), ws[1..], types);
    }
  }

  /** Only Revoke, Mint and Purge reach tokens and revocations. */
  predicate OnTokens(op: Op) {
    op.Revoke? || op.Mint? || op.Purge?
  }

  lemma FootprintApart(op: Op)
    requires !OnTokens(op)
    ensures Footprint(op) !! ARTIFACTS
  {
  }

  lemma PlanUnrelated(s: Store, op: Op)
    requires Inv(s) && Admissible(s, op) && !OnTokens(op)
    ensures UnrelatedAll(s, WritesOf(Plan(s, op)))
  {
    var ws, types := WritesOf(Plan(s, op)), Footprint(op);
    assert TouchOnly(s, ws, types) by {
      PlanTouches(s, op);
    }
    assert types !! ARTIFACTS by {
      FootprintApart(op);
    }
    TouchOnlyUnrelated(s, ws, types);
  }

  lemma {:induction false} UnrelatedCut(s: Store, ws: seq<Write>, k: nat)
    requires UnrelatedAll(s, ws)
    ensures UnrelatedAll(s, Cut(ws, k))
    decreases |ws|
  {
    if 0 < k <= |ws| {
      assert ws[..k][0] == ws[0] && ws[..k][1..] == ws[1..][..k - 1];
      UnrelatedCut(Apply(s, ws[0]), ws[1..], k - 1);
    }
  }

  lemma TracksMint(s: Store, l: Ledger, refresh: bool, hash: string, expires: int, now: int, nanos: int)
    requires Tracks(s, l, nanos) && FreshToken(s, hash) && expires != ZERO_TIME
    ensures Tracks(Apply(s, Create(if refresh then TRefreshToken else TAccessToken,
                                   TokenProps(s.agency, hash, expires, now))),
                   if refresh then l else l.(minted := l.minted[hash := (expires, now)]), nanos)
  {
    var p := TokenProps(s.agency, hash, expires, now);
    var t := Apply(s, Create(if refresh then TRefreshToken else TAccessToken, p));
    var n := |s.ents|;
    assert p[TokenHash] == Text(hash) && p[ExpiresAt] == At(expires) && p[CreatedAt] == At(now);
    assert forall i :: 0 <= i < n && IsToken(s.ents[i]) ==> !Has(s.ents[i], TokenHash, Text(hash));
    TokensSoundKept(s, t, nanos);
    PurgedExpiredKept(s, t, nanos);
    RevokedKept(s, t, l, nanos);
    if refresh {
      MintedKept(s, t, l, nanos);
    } else {
      MintedGrows(s, t, l, hash, expires, now, nanos);
    }
  }

  lemma MintedGrows(s: Store, t: Store, l: Ledger, hash: string, expires: int, now: int, nanos: int)
    requires MintedMatches(s, l) && Kept(s, t, nanos) && |t.ents| == |s.ents| + 1
    requires AccessRecord(t, |s.ents|, hash)
    requires Has(t.ents[|s.ents|], ExpiresAt, At(expires)) && Has(t.ents[|s.ents|], CreatedAt, At(now))
    requires forall i: Id :: !AccessRecord(s, i, hash)
    ensures MintedMatches(t, l.(minted := l.minted[hash := (expires, now)]))
  {
    var l' := l.(minted := l.minted[hash := (expires, now)]);
    forall h | h in l'.minted
      ensures exists i: Id :: AccessRecord(t, i, h)
    {
      if h != hash {
        RecordStays(s, t, h, nanos);
      }
    }
    forall i: Id, h | AccessRecord(t, i, h)
      ensures h in l'.minted && Has(t.ents[i], ExpiresAt, At(l'.minted[h].0)) &&
              Has(t.ents[i], CreatedAt, At(l'.minted[h].1))
    {
      if i < |s.ents| {
        assert KeptEntity(s.ents[i], t.ents[i], nanos);
        assert AccessRecord(s, i, h) && h != hash;
      }
    }
  }

  lemma RecordStays(s: Store, t: Store, hash: string, nanos: int)
    requires Kept(s, t, nanos) && exists i: Id :: AccessRecord(s, i, hash)
    ensures exists i: Id :: AccessRecord(t, i, hash)
  {
    var i: Id :| AccessRecord(s, i, hash);
    assert KeptEntity(s.ents[i], t.ents[i], nanos);
    assert AccessRecord(t, i, hash);
  }

  /** A search that found something found a token with this hash and copied its expiry. */
  lemma FoundExpiry(s: Store, hash: string, sawAccess: bool, sawRefresh: bool)
    requires TokensSound(s) && SearchExpiry(s, hash, sawAccess, sawRefresh).Some?
    ensures var v := SearchExpiry(s, hash, sawAccess, sawRefresh).value;
            v.At? && TokenWithExpiry(s, Text(hash), v)
  {
    var f := Where(TokenHash, Text(hash));
    var typ := if sawAccess && ExpiryFrom(s, TAccessToken, hash).Some? then TAccessToken else TRefreshToken;
    var i := List(s.ents, typ, f)[0];
    assert Matches(s.ents[i], typ, f) && IsToken(s.ents[i]) && WellTimed(s.ents[i]);
    assert HashOf(s.ents[i]) == Text(hash);
  }

  lemma TracksRevoke(s: Store, l: Ledger, hash: string, expiry: Option<Value>, reason: string, now: int, nanos: int)
    requires Tracks(s, l, nanos)
    ensures Tracks(Apply(s, Create(TTokenRevocation, RevocationProps(s.agency, hash, expiry, reason, now))),
                   l.(revoked := l.revoked + {hash}), nanos)
  {
    var p := RevocationProps(s.agency, hash, expiry, reason, now);
    var t := Apply(s, Create(TTokenRevocation, p));
    assert p[TokenHash] == Text(hash);
    TokensSoundKept(s, t, nanos);
    PurgedExpiredKept(s, t, nanos);
    MintedKept(s, t, l, nanos);
    RevokedGrows(s, t, l, hash, nanos);
  }

  lemma RevokedGrows(s: Store, t: Store, l: Ledger, hash: string, nanos: int)
    requires RevokedMatches(s, l) && Kept(s, t, nanos) && |t.ents| == |s.ents| + 1
    requires RevocationRecord(t, |s.ents|, hash)
    ensures RevokedMatches(t, l.(revoked := l.revoked + {hash}))
  {
    RecordsKept(s, t, nanos);
    forall h
      ensures h in l.revoked + {hash} <==> exists i: Id :: RevocationRecord(t, i, h)
    {
      if i: Id :| RevocationRecord(s, i, h) {
        assert RevocationRecord(t, i, h);
      } else if i: Id :| RevocationRecord(t, i, h) {
        assert i == |s.ents| && h == hash;
      }
    }
  }

  lemma TracksTokenCall(s: Store, l: Ledger, op: Op, nanos: int)
    requires Tracks(s, l, nanos) && Admissible(s, op) && OnTokens(op)
    requires op.Purge? ==> op.at <= nanos
    ensures Plan(s, op).Writes? && |Plan(s, op).ws| == 1
    ensures Tracks(Apply(s, Plan(s, op).ws[0]), Note(l, Call(op, 1)), nanos)
  {
    match op
    case Mint(refresh, hash, expires, now) => TracksMint(s, l, refresh, hash, expires, now, nanos);
    case Revoke(hash, sawAccess, sawRefresh, reason, now) =>
      TracksRevoke(s, l, hash, SearchExpiry(s, hash, sawAccess, sawRefresh), reason, now, nanos);
    case Purge(id, at) => TracksKept(s, Apply(s, Delete(id)), l, nanos);
  }

  lemma TracksOtherCall(s: Store, l: Ledger, c: Call, nanos: int)
    requires Inv(s) && Tracks(s, l, nanos) && Admissible(s, c.op) && !OnTokens(c.op)
    ensures Tracks(AfterCall(s, c), l, nanos)
  {
    var ws := WritesOf(Plan(s, c.op));
    PlanUnrelated(s, c.op);
    UnrelatedCut(s, ws, c.done);
    TracksUnrelatedAll(s, Cut(ws, c.done), l, nanos);
  }

  /** A call on tokens makes one write or none. */
  lemma SingleWriteCall(s: Store, c: Call)
    requires Plan(s, c.op).Writes? && |Plan(s, c.op).ws| == 1
    ensures AfterCall(s, c) == if c.done == 0 then s else Apply(s, Plan(s, c.op).ws[0])
  {
    var ws := Plan(s, c.op).ws;
    if c.done == 0 {
      assert ws[..0] == [];
    } else if c.done == 1 {
      assert ws[..1] == ws;
    }
    assert ApplyAll(s, ws) == Apply(s, ws[0]);
  }

  lemma TracksCall(s: Store, l: Ledger, c: Call, nanos: int)
    requires Inv(s) && Tracks(s, l, nanos) && Admissible(s, c.op)
    requires c.op.Purge? ==> c.op.at <= nanos
    ensures Tracks(AfterCall(s, c), Note(l, c), nanos)
  {
    if !OnTokens(c.op) {
      TracksOtherCall(s, l, c, nanos);
    } else if c.done == 0 {
      SingleWriteCall(s, c);
    } else {
      TracksTokenCall(s, l, c.op, nanos);
      SingleWriteCall(s, c);
    }
  }

  lemma {:induction false} RunTracks(agency: string, calls: seq<Call>, nanos: int)
    requires ValidRun(agency, calls) && PurgedBy(calls, nanos)
    ensures Tracks(Run(agency, calls), LedgerOf(calls), nanos)
  {
    if |calls| > 0 {
      var before, c := calls[..|calls| - 1], calls[|calls| - 1];
      assert c in calls && forall d :: d in before ==> d in calls;
      RunTracks(agency, before, nanos);
      RunKeepsInv(agency, before);
      TracksCall(Run(agency, before), LedgerOf(before), c, nanos);
    }
  }
}
