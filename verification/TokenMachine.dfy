/** token_ops.go under concurrency: any number of Introspect and Revoke callers whose storage calls
    interleave with each other, with minting, purging, the clock and all other writes. */
module TokenMachine {
  import opened Wrappers
  import opened EntityGraph
  import opened Helpers
  import opened Operations
  import opened TokenRecords
  import opened Purging

  /** Where a caller stands: each state is followed by one storage call or one clock reading. */
  datatype Caller =
    | IntrospectBegin(hash: string)
    | IntrospectTokens(hash: string)
    | IntrospectClock(hash: string, token: Props)
    | IntrospectDone(hash: string, answer: Introspection)
    | RevokeBegin(hash: string, reason: string)
    | RevokeSearch(hash: string, reason: string, now: int, types: seq<TypeName>)
    | RevokeRecord(hash: string, reason: string, now: int, expiry: Option<Value>)
    | RevokeDone(hash: string, ok: bool, now: int, expiry: Option<Value>)

  /** One step of a caller; `fail` says whether its storage call fails. */
  function CallerStep(s: Store, c: Caller, clock: int, fail: bool): (Caller, Option<Write>) {
    match c
    case IntrospectBegin(h) =>
      (if fail || RevocationsOf(s, h) != [] then IntrospectDone(h, Inactive) else IntrospectTokens(h), None)
    case IntrospectTokens(h) =>
      (if fail || AccessTokensOf(s, h) == [] then IntrospectDone(h, Inactive)
       else IntrospectClock(h, s.ents[AccessTokensOf(s, h)[0]].props), None)
    case IntrospectClock(h, token) => (IntrospectDone(h, JudgeToken(token, clock)), None)
    case RevokeBegin(h, reason) => (RevokeSearch(h, reason, Sec(clock), [TAccessToken, TRefreshToken]), None)
    case RevokeSearch(h, reason, now, types) =>
      (if |types| == 0 then RevokeRecord(h, reason, now, None)
       else if !fail && ExpiryFrom(s, types[0], h).Some? then RevokeRecord(h, reason, now, ExpiryFrom(s, types[0], h))
       else RevokeSearch(h, reason, now, types[1..]), None)
    case RevokeRecord(h, reason, now, expiry) =>
      if fail then (RevokeDone(h, false, now, expiry), None)
      else (RevokeDone(h, true, now, expiry),
            Some(Create(TTokenRevocation, RevocationProps(s.agency, h, expiry, reason, now))))
    case IntrospectDone(_, _) => (c, None)
    case RevokeDone(_, _, _, _) => (c, None)
  }

  datatype System = System(store: Store, clock: int, callers: map<nat, Caller>)

  datatype Event =
    | Arrive(id: nat, caller: Caller)
    | Act(id: nat, fail: bool)
    | Tick(passed: nat)
    | MintToken(refresh: bool, hash: string, expires: int, created: int)
    | PurgeRecord(record: Id)
    | OtherWrite(write: Write)

  function Initial(agency: string, clock: int): System {
    System(EmptyStore(agency), clock, map[])
  }

  ghost predicate Enabled(y: System, e: Event) {
    match e
    case Arrive(id, c) => id !in y.callers && (c.IntrospectBegin? || c.RevokeBegin?)
    case Act(id, _) => id in y.callers
    case Tick(_) => true
    case MintToken(_, hash, expires, _) => FreshToken(y.store, hash) && expires != ZERO_TIME
    case PurgeRecord(record) => Purgeable(y.store, record, y.clock)
    case OtherWrite(w) => Unrelated(y.store, w)
  }

  function WriteOf(y: System, e: Event): Option<Write> {
    match e
    case Act(id, fail) => if id in y.callers then CallerStep(y.store, y.callers[id], y.clock, fail).1 else None
    case MintToken(refresh, hash, expires, created) =>
      Some(Create(if refresh then TRefreshToken else TAccessToken, TokenProps(y.store.agency, hash, expires, created)))
    case PurgeRecord(record) => Some(Delete(record))
    case OtherWrite(w) => Some(w)
    case _ => None
  }

  function Next(y: System, e: Event): System {
    System(
      if WriteOf(y, e).Some? then Apply(y.store, WriteOf(y, e).value) else y.store,
      if e.Tick? then y.clock + e.passed else y.clock,
      match e
      case Arrive(id, c) => y.callers[id := c]
      case Act(id, fail) =>
        if id in y.callers then y.callers[id := CallerStep(y.store, y.callers[id], y.clock, fail).0] else y.callers
      case _ => y.callers)
  }

  function Exec(y: System, es: seq<Event>): System
    decreases |es|
  {
    if |es| == 0 then y else Exec(Next(y, es[0]), es[1..])
  }

  ghost predicate Possible(y: System, es: seq<Event>)
    decreases |es|
  {
    |es| == 0 || (Enabled(y, es[0]) && Possible(Next(y, es[0]), es[1..]))
  }

  // ---------------------------------------------------------------- invariants

  /** A listed revocation of the hash that expires no earlier than the given second. */
  ghost predicate RevokedUntil(s: Store, hash: string, sec: int) {
    exists r: Id :: RevocationRecord(s, r, hash) && !s.ents[r].deleted &&
      ExpiresAt in s.ents[r].props && s.ents[r].props[ExpiresAt].At? && sec <= s.ents[r].props[ExpiresAt].sec
  }

  /** Some token or revocation carries the hash, so it cannot be minted any more, and every listed access
      token with it is past its expiry or covered by a listed revocation that expires no earlier. */
  ghost predicate Covered(s: Store, clock: int, hash: string) {
    !FreshToken(s, hash) &&
    forall i: Id :: AccessRecord(s, i, hash) && !s.ents[i].deleted ==>
      WellTimed(s.ents[i]) &&
      (After(clock, s.ents[i].props[ExpiresAt].sec) || RevokedUntil(s, hash, s.ents[i].props[ExpiresAt].sec))
  }

  ghost predicate CallerSound(s: Store, clock: int, c: Caller) {
    match c
    case IntrospectClock(h, token) => exists i: Id :: AccessRecord(s, i, h) && s.ents[i].props == token
    case IntrospectDone(h, ActiveToken(exp, iat)) =>
      exists i: Id :: AccessRecord(s, i, h) && PropTime(s.ents[i].props, ExpiresAt) == exp &&
                      PropTime(s.ents[i].props, CreatedAt) == iat
    case RevokeRecord(h, _, _, Some(v)) => v.At? && TokenWithExpiry(s, Text(h), v)
    case RevokeDone(h, true, now, expiry) => Recorded(s, clock, h, now, expiry)
    case _ => true
  }

  /** What a finished revocation leaves behind: it covers its hash if its search found a token, and otherwise is
      listed up to the second it was made in. */
  ghost predicate Recorded(s: Store, clock: int, hash: string, now: int, expiry: Option<Value>) {
    !FreshToken(s, hash) &&
    (if expiry.Some? then Covered(s, clock, hash) else RevokedUntil(s, hash, now) || After(clock, now))
  }

  ghost predicate SearchTypes(c: Caller) {
    c.RevokeSearch? ==> forall k :: 0 <= k < |c.types| ==> c.types[k] == TAccessToken || c.types[k] == TRefreshToken
  }

  /** Every revocation has an expiry. */
  ghost predicate RevocationsTimed(s: Store) {
    forall r :: 0 <= r < |s.ents| && s.ents[r].typ == TTokenRevocation ==>
      ExpiresAt in s.ents[r].props && s.ents[r].props[ExpiresAt].At?
  }

  ghost predicate SystemSound(y: System) {
    TokensSound(y.store) && RevocationsTimed(y.store) &&
    forall id :: id in y.callers ==> CallerSound(y.store, y.clock, y.callers[id]) && SearchTypes(y.callers[id])
  }

  /** The store of the next state: artifacts keep what they are, nothing comes back from deletion, and a
      new token has a new hash. */
  ghost predicate Moves(s: Store, t: Store, clock: int) {
    Kept(s, t, clock) && TokensSound(t) &&
    (forall i :: 0 <= i < |s.ents| && s.ents[i].deleted ==> t.ents[i].deleted) &&
    (forall i, h :: |s.ents| <= i < |t.ents| && IsToken(t.ents[i]) && Has(t.ents[i], TokenHash, Text(h)) ==>
      FreshToken(s, h))
  }

  lemma CreateMoves(s: Store, t: TypeName, p: Props, clock: int)
    requires TokensSound(s)
    requires t in ARTIFACTS
    requires t != TTokenRevocation ==>
      TokenHash in p && p[TokenHash].Text? && FreshToken(s, p[TokenHash].text) &&
      ExpiresAt in p && p[ExpiresAt].At? && p[ExpiresAt].sec != ZERO_TIME
    ensures Moves(s, Apply(s, Create(t, p)), clock)
  {
    if t != TTokenRevocation {
      assert forall j :: 0 <= j < |s.ents| && IsToken(s.ents[j]) ==> !Has(s.ents[j], TokenHash, p[TokenHash]);
    }
    TokensSoundKept(s, Apply(s, Create(t, p)), clock);
  }

  lemma UnrelatedMoves(s: Store, w: Write, clock: int)
    requires TokensSound(s) && Unrelated(s, w)
    ensures Moves(s, Apply(s, w), clock)
  {
    if w.Update? && w.id < |s.ents| && s.ents[w.id].typ in ARTIFACTS {
      assert s.ents[w.id].props + map[] == s.ents[w.id].props;
    }
    TokensSoundKept(s, Apply(s, w), clock);
  }

  lemma PurgeMoves(s: Store, id: Id, clock: int)
    requires TokensSound(s) && Purgeable(s, id, clock)
    ensures Moves(s, Apply(s, Delete(id)), clock)
  {
    TokensSoundKept(s, Apply(s, Delete(id)), clock);
  }

  lemma CallerMoves(s: Store, c: Caller, clock: int, fail: bool)
    requires TokensSound(s)
    ensures var w := CallerStep(s, c, clock, fail).1;
      w.Some? ==> w.value.Create? && w.value.typ == TTokenRevocation && Moves(s, Apply(s, w.value), clock)
  {
    if c.RevokeRecord? && !fail {
      CreateMoves(s, TTokenRevocation, RevocationProps(s.agency, c.hash, c.expiry, c.reason, c.now), clock);
    }
  }

  lemma StepMoves(y: System, e: Event)
    requires TokensSound(y.store) && Enabled(y, e)
    ensures Moves(y.store, Next(y, e).store, Next(y, e).clock)
  {
    match e
    case Act(id, fail) => CallerMoves(y.store, y.callers[id], y.clock, fail);
    case MintToken(refresh, hash, expires, created) =>
      var p := TokenProps(y.store.agency, hash, expires, created);
      assert p[TokenHash] == Text(hash) && p[ExpiresAt] == At(expires);
      CreateMoves(y.store, if refresh then TRefreshToken else TAccessToken, p, y.clock);
    case PurgeRecord(record) => PurgeMoves(y.store, record, y.clock);
    case OtherWrite(w) => UnrelatedMoves(y.store, w, y.clock);
    case _ =>
  }

  lemma TimedStays(s: Store, t: Store, clock: int)
    requires RevocationsTimed(s) && Kept(s, t, clock)
    requires forall r :: |s.ents| <= r < |t.ents| && t.ents[r].typ == TTokenRevocation ==>
      ExpiresAt in t.ents[r].props && t.ents[r].props[ExpiresAt].At?
    ensures RevocationsTimed(t)
  {
    assert forall i :: 0 <= i < |s.ents| ==> KeptEntity(s.ents[i], t.ents[i], clock);
  }

  lemma StepTimed(y: System, e: Event)
    requires SystemSound(y) && Enabled(y, e) && Moves(y.store, Next(y, e).store, Next(y, e).clock)
    ensures RevocationsTimed(Next(y, e).store)
  {
    if e.Act? {
      assert CallerSound(y.store, y.clock, y.callers[e.id]);
    }
    TimedStays(y.store, Next(y, e).store, Next(y, e).clock);
  }

  lemma UsedStays(s: Store, t: Store, clock: int, hash: string)
    requires !FreshToken(s, hash) && Kept(s, t, clock)
    ensures !FreshToken(t, hash)
  {
    var i :| 0 <= i < |s.ents| && s.ents[i].typ in ARTIFACTS && Has(s.ents[i], TokenHash, Text(hash));
    assert KeptEntity(s.ents[i], t.ents[i], clock);
  }

  lemma RevokedUntilStays(s: Store, t: Store, clock: int, hash: string, sec: int)
    requires RevokedUntil(s, hash, sec) && Kept(s, t, clock)
    ensures RevokedUntil(t, hash, sec) || After(clock, sec)
  {
    var r: Id :| RevocationRecord(s, r, hash) && !s.ents[r].deleted &&
      ExpiresAt in s.ents[r].props && s.ents[r].props[ExpiresAt].At? && sec <= s.ents[r].props[ExpiresAt].sec;
    assert KeptEntity(s.ents[r], t.ents[r], clock);
    if !t.ents[r].deleted {
      assert RevocationRecord(t, r, hash);
    }
  }

  /** A token with a used hash is an old one. */
  lemma OldToken(s: Store, t: Store, clock: int, hash: string, i: Id)
    requires Moves(s, t, clock) && !FreshToken(s, hash) && AccessRecord(t, i, hash)
    ensures AccessRecord(s, i, hash) && s.ents[i].props == t.ents[i].props
    ensures !t.ents[i].deleted ==> !s.ents[i].deleted
  {
    assert IsToken(t.ents[i]) && Has(t.ents[i], TokenHash, Text(hash));
    assert i < |s.ents|;
    assert KeptEntity(s.ents[i], t.ents[i], clock);
  }

  lemma CoveredStays(s: Store, t: Store, before: int, clock: int, hash: string)
    requires Covered(s, before, hash) && Moves(s, t, clock) && before <= clock
    ensures Covered(t, clock, hash)
  {
    UsedStays(s, t, clock, hash);
    forall i: Id | AccessRecord(t, i, hash) && !t.ents[i].deleted
      ensures WellTimed(t.ents[i])
      ensures After(clock, t.ents[i].props[ExpiresAt].sec) || RevokedUntil(t, hash, t.ents[i].props[ExpiresAt].sec)
    {
      OldToken(s, t, clock, hash, i);
      var sec := t.ents[i].props[ExpiresAt].sec;
      if RevokedUntil(s, hash, sec) {
        RevokedUntilStays(s, t, clock, hash, sec);
      }
    }
  }

  lemma RecordedStays(s: Store, t: Store, before: int, clock: int, hash: string, now: int, expiry: Option<Value>)
    requires Recorded(s, before, hash, now, expiry) && Moves(s, t, clock) && before <= clock
    ensures Recorded(t, clock, hash, now, expiry)
  {
    UsedStays(s, t, clock, hash);
    if expiry.Some? {
      CoveredStays(s, t, before, clock, hash);
    } else if RevokedUntil(s, hash, now) {
      RevokedUntilStays(s, t, clock, hash, now);
    }
  }

  lemma AccessRecordStays(s: Store, t: Store, clock: int, hash: string, i: Id)
    requires AccessRecord(s, i, hash) && Kept(s, t, clock)
    ensures AccessRecord(t, i, hash) && t.ents[i].props == s.ents[i].props
  {
    assert KeptEntity(s.ents[i], t.ents[i], clock);
  }

  lemma CallerSoundStays(s: Store, t: Store, before: int, clock: int, c: Caller)
    requires CallerSound(s, before, c) && Moves(s, t, clock) && before <= clock
    ensures CallerSound(t, clock, c)
  {
    match c
    case IntrospectClock(h, token) =>
      var i: Id :| AccessRecord(s, i, h) && s.ents[i].props == token;
      AccessRecordStays(s, t, clock, h, i);
    case IntrospectDone(h, ActiveToken(exp, iat)) =>
      var i: Id :| AccessRecord(s, i, h) && PropTime(s.ents[i].props, ExpiresAt) == exp &&
                   PropTime(s.ents[i].props, CreatedAt) == iat;
      AccessRecordStays(s, t, clock, h, i);
    case RevokeRecord(h, _, _, Some(v)) => TokenStays(s, t, clock, Text(h), v);
    case RevokeDone(h, true, now, expiry) => RecordedStays(s, t, before, clock, h, now, expiry);
    case _ =>
  }

  /** Recording a revocation with the token's own expiry covers the hash. */
  lemma RecordingCovers(s: Store, hash: string, reason: string, now: int, v: Value, clock: int)
    requires TokensSound(s) && v.At? && TokenWithExpiry(s, Text(hash), v)
    ensures Covered(Apply(s, Create(TTokenRevocation, RevocationProps(s.agency, hash, Some(v), reason, now))),
                    clock, hash)
  {
    var p := RevocationProps(s.agency, hash, Some(v), reason, now);
    var t := Apply(s, Create(TTokenRevocation, p));
    assert p[TokenHash] == Text(hash) && p[ExpiresAt] == v;
    var k :| 0 <= k < |s.ents| && IsToken(s.ents[k]) && HashOf(s.ents[k]) == Text(hash) && Has(s.ents[k], ExpiresAt, v);
    assert t.ents[k] == s.ents[k];
    assert RevocationRecord(t, |s.ents|, hash);
    forall i: Id | AccessRecord(t, i, hash) && !t.ents[i].deleted
      ensures WellTimed(t.ents[i]) && RevokedUntil(t, hash, t.ents[i].props[ExpiresAt].sec)
    {
      assert i < |s.ents| && t.ents[i] == s.ents[i] && IsToken(s.ents[i]) && HashOf(s.ents[i]) == Text(hash);
      assert i == k;
    }
  }

  /** Without a token found the revocation is listed with the second of its clock reading. */
  lemma RecordingLists(s: Store, hash: string, reason: string, now: int, clock: int)
    ensures Recorded(Apply(s, Create(TTokenRevocation, RevocationProps(s.agency, hash, None, reason, now))),
                     clock, hash, now, None)
  {
    var p := RevocationProps(s.agency, hash, None, reason, now);
    var t := Apply(s, Create(TTokenRevocation, p));
    assert p[TokenHash] == Text(hash) && p[ExpiresAt] == At(now);
    assert t.ents[|s.ents|] == Entity(TTokenRevocation, p, false) && RevocationRecord(t, |s.ents|, hash);
  }

  lemma SearchFinds(s: Store, typ: TypeName, hash: string)
    requires TokensSound(s) && (typ == TAccessToken || typ == TRefreshToken) && ExpiryFrom(s, typ, hash).Some?
    ensures ExpiryFrom(s, typ, hash).value.At? && TokenWithExpiry(s, Text(hash), ExpiryFrom(s, typ, hash).value)
  {
    var f := Where(TokenHash, Text(hash));
    var i := List(s.ents, typ, f)[0];
    assert Matches(s.ents[i], typ, f) && IsToken(s.ents[i]) && HashOf(s.ents[i]) == Text(hash);
  }

  lemma TokensStepSound(s: Store, c: Caller, clock: int, fail: bool)
    requires c.IntrospectTokens? || c.IntrospectClock?
    requires CallerSound(s, clock, c)
    ensures CallerSound(s, clock, CallerStep(s, c, clock, fail).0)
  {
    if c.IntrospectTokens? && AccessTokensOf(s, c.hash) != [] {
      assert AccessRecord(s, AccessTokensOf(s, c.hash)[0], c.hash);
    }
  }

  lemma SearchStepSound(s: Store, c: Caller, clock: int, fail: bool)
    requires TokensSound(s) && c.RevokeSearch? && SearchTypes(c)
    ensures CallerSound(s, clock, CallerStep(s, c, clock, fail).0) && SearchTypes(CallerStep(s, c, clock, fail).0)
  {
    if |c.types| > 0 && ExpiryFrom(s, c.types[0], c.hash).Some? {
      SearchFinds(s, c.types[0], c.hash);
    }
  }

  /** The state a caller moves to is sound in the store it leaves behind. */
  lemma CallerStepSound(s: Store, c: Caller, clock: int, fail: bool)
    requires TokensSound(s) && CallerSound(s, clock, c) && SearchTypes(c)
    ensures var (d, w) := CallerStep(s, c, clock, fail);
      CallerSound(if w.Some? then Apply(s, w.value) else s, clock, d) && SearchTypes(d)
  {
    match c
    case IntrospectTokens(_) => TokensStepSound(s, c, clock, fail);
    case IntrospectClock(_, _) => TokensStepSound(s, c, clock, fail);
    case RevokeSearch(_, _, _, _) => SearchStepSound(s, c, clock, fail);
    case RevokeRecord(h, reason, now, Some(v)) => RecordingCovers(s, h, reason, now, v, clock);
    case RevokeRecord(h, reason, now, None) => RecordingLists(s, h, reason, now, clock);
    case _ =>
  }

  lemma StepSound(y: System, e: Event)
    requires SystemSound(y) && Enabled(y, e)
    ensures SystemSound(Next(y, e))
  {
    var z := Next(y, e);
    StepMoves(y, e);
    StepTimed(y, e);
    forall id | id in z.callers
      ensures CallerSound(z.store, z.clock, z.callers[id]) && SearchTypes(z.callers[id])
    {
      if e.Act? && id == e.id {
        CallerStepSound(y.store, y.callers[id], y.clock, e.fail);
      } else if id in y.callers && z.callers[id] == y.callers[id] {
        CallerSoundStays(y.store, z.store, y.clock, z.clock, y.callers[id]);
      }
    }
  }

  lemma {:induction false} ExecSound(y: System, es: seq<Event>)
    requires SystemSound(y) && Possible(y, es)
    ensures SystemSound(Exec(y, es))
    decreases |es|
  {
    if |es| > 0 {
      StepSound(y, es[0]);
      ExecSound(Next(y, es[0]), es[1..]);
    }
  }

  // ---------------------------------------------------------------- revoked stays inactive

  /** An introspection of a covered hash that can no longer answer active. */
  ghost predicate Doomed(s: Store, clock: int, c: Caller) {
    match c
    case IntrospectTokens(h) =>
      forall i: Id :: AccessRecord(s, i, h) && !s.ents[i].deleted ==>
        WellTimed(s.ents[i]) && After(clock, s.ents[i].props[ExpiresAt].sec)
    case IntrospectClock(_, token) =>
      PropTime(token, ExpiresAt) != ZERO_TIME && After(clock, PropTime(token, ExpiresAt))
    case IntrospectDone(_, answer) => answer == Inactive
    case _ => true
  }

  lemma DoomedStays(s: Store, t: Store, before: int, clock: int, c: Caller)
    requires Covered(s, before, c.hash) && Doomed(s, before, c) && Moves(s, t, clock) && before <= clock
    ensures Doomed(t, clock, c)
  {
    if c.IntrospectTokens? {
      forall i: Id | AccessRecord(t, i, c.hash) && !t.ents[i].deleted
        ensures WellTimed(t.ents[i]) && After(clock, t.ents[i].props[ExpiresAt].sec)
      {
        OldToken(s, t, clock, c.hash, i);
      }
    }
  }

  /** Covered and with no revocation listed, every listed token is past its expiry. */
  lemma DoomedStep(s: Store, c: Caller, clock: int, fail: bool)
    requires Covered(s, clock, c.hash) && Doomed(s, clock, c)
    ensures Doomed(s, clock, CallerStep(s, c, clock, fail).0) && CallerStep(s, c, clock, fail).0.hash == c.hash
  {
    match c
    case IntrospectBegin(h) =>
      forall i: Id | AccessRecord(s, i, h) && !s.ents[i].deleted && RevocationsOf(s, h) == []
        ensures WellTimed(s.ents[i]) && After(clock, s.ents[i].props[ExpiresAt].sec)
      {
        if RevokedUntil(s, h, s.ents[i].props[ExpiresAt].sec) {
          RevokedIsListed(s, h, s.ents[i].props[ExpiresAt].sec);
        }
      }
    case IntrospectTokens(h) =>
      if AccessTokensOf(s, h) != [] {
        assert AccessRecord(s, AccessTokensOf(s, h)[0], h);
      }
    case _ =>
  }

  lemma RevokedIsListed(s: Store, hash: string, sec: int)
    requires RevokedUntil(s, hash, sec)
    ensures RevocationsOf(s, hash) != []
  {
    var r: Id :| RevocationRecord(s, r, hash) && !s.ents[r].deleted;
    assert r in RevocationsOf(s, hash);
  }

  /** Caller `i` is not there yet, or is introspecting or revoking without a chance of an active answer
      for the hash. */
  ghost predicate NoHope(y: System, i: nat, hash: string) {
    i in y.callers && y.callers[i].hash == hash ==> Doomed(y.store, y.clock, y.callers[i])
  }

  lemma NoHopeStep(y: System, e: Event, i: nat, hash: string)
    requires SystemSound(y) && Enabled(y, e) && Covered(y.store, y.clock, hash) && NoHope(y, i, hash)
    ensures Covered(Next(y, e).store, Next(y, e).clock, hash) && NoHope(Next(y, e), i, hash)
  {
    var z := Next(y, e);
    StepMoves(y, e);
    CoveredStays(y.store, z.store, y.clock, z.clock, hash);
    if i in z.callers && z.callers[i].hash == hash {
      if e.Act? && i == e.id {
        CallerHashStays(y.store, y.callers[i], y.clock, e.fail);
        DoomedStep(y.store, y.callers[i], y.clock, e.fail);
        DoomedStays(y.store, z.store, y.clock, z.clock, z.callers[i]);
      } else if i in y.callers && z.callers[i] == y.callers[i] {
        DoomedStays(y.store, z.store, y.clock, z.clock, y.callers[i]);
      }
    }
  }

  lemma CallerHashStays(s: Store, c: Caller, clock: int, fail: bool)
    ensures CallerStep(s, c, clock, fail).0.hash == c.hash
  {
  }

  lemma {:induction false} NoHopeForever(y: System, es: seq<Event>, i: nat, hash: string)
    requires SystemSound(y) && Possible(y, es) && Covered(y.store, y.clock, hash) && NoHope(y, i, hash)
    ensures NoHope(Exec(y, es), i, hash)
    decreases |es|
  {
    if |es| > 0 {
      NoHopeStep(y, es[0], i, hash);
      StepSound(y, es[0]);
      NoHopeForever(Next(y, es[0]), es[1..], i, hash);
    }
  }

  /** An introspection of the hash that arrives later and ends, ends inactive. */
  ghost predicate EndsInactive(y: System, i: nat, hash: string) {
    i in y.callers && y.callers[i].IntrospectDone? && y.callers[i].hash == hash ==> y.callers[i].answer == Inactive
  }

  /** However the system goes on, no Introspect that arrives from now on calls the hash active. */
  ghost predicate NeverActiveLater(z: System, hash: string) {
    forall es, i :: Possible(z, es) && i !in z.callers ==> EndsInactive(Exec(z, es), i, hash)
  }

  lemma CoveredNeverActive(z: System, hash: string)
    requires SystemSound(z) && Covered(z.store, z.clock, hash)
    ensures NeverActiveLater(z, hash)
  {
    forall es, i | Possible(z, es) && i !in z.callers
      ensures EndsInactive(Exec(z, es), i, hash)
    {
      NoHopeForever(z, es, i, hash);
    }
  }

  // ---------------------------------------------------------------- how a revocation is lost

  lemma {:induction false} ExecAppend(y: System, a: seq<Event>, b: seq<Event>)
    ensures Exec(y, a + b) == Exec(Exec(y, a), b)
    ensures Possible(y, a + b) <==> Possible(y, a) && Possible(Exec(y, a), b)
    decreases |a|
  {
    if |a| == 0 {
      assert a + b == b;
    } else {
      assert (a + b)[0] == a[0] && (a + b)[1..] == a[1..] + b;
      ExecAppend(Next(y, a[0]), a[1..], b);
    }
  }

  lemma ExecOne(y: System, e: Event)
    ensures Exec(y, [e]) == Next(y, e) && (Possible(y, [e]) <==> Enabled(y, e))
  {
    assert [e][1..] == [];
    assert Exec(Next(y, e), []) == Next(y, e) && Possible(Next(y, e), []);
  }

  lemma ExecSnoc(y: System, es: seq<Event>, e: Event)
    ensures Exec(y, es + [e]) == Next(Exec(y, es), e)
    ensures Possible(y, es + [e]) <==> Possible(y, es) && Enabled(Exec(y, es), e)
  {
    ExecAppend(y, es, [e]);
    ExecOne(Exec(y, es), e);
  }

  lemma {:induction false} Above(ids: set<nat>) returns (n: nat)
    ensures forall i :: i in ids ==> i < n
    decreases |ids|
  {
    if ids == {} {
      n := 0;
    } else {
      var i :| i in ids;
      n := Above(ids - {i});
      assert forall j :: j in ids ==> j == i || j in ids - {i};
      n := if i < n then n else i + 1;
    }
  }

  /** The events are possible one after the other and lead from `y` to `z`. */
  ghost predicate Leads(y: System, es: seq<Event>, z: System) {
    Possible(y, es) && Exec(y, es) == z
  }

  lemma LeadsOn(y: System, es: seq<Event>, m: System, e: Event, z: System)
    requires Leads(y, es, m) && Enabled(m, e) && Next(m, e) == z
    ensures Leads(y, es + [e], z)
  {
    ExecSnoc(y, es, e);
  }

  /** The system with one caller in another state. */
  function With(y: System, i: nat, c: Caller): System {
    y.(callers := y.callers[i := c])
  }

  lemma ActOf(y: System, i: nat, c: Caller)
    requires CallerStep(y.store, c, y.clock, false).1.None?
    ensures Enabled(With(y, i, c), Act(i, false))
    ensures Next(With(y, i, c), Act(i, false)) == With(y, i, CallerStep(y.store, c, y.clock, false).0)
  {
    assert With(y, i, c).callers[i := CallerStep(y.store, c, y.clock, false).0]
           == y.callers[i := CallerStep(y.store, c, y.clock, false).0];
  }

  lemma LeadsThrough(y: System, es: seq<Event>, i: nat, c: Caller, d: Caller)
    requires Leads(y, es, With(y, i, c)) && CallerStep(y.store, c, y.clock, false) == (d, None)
    ensures Leads(y, es + [Act(i, false)], With(y, i, d))
  {
    ActOf(y, i, c);
    LeadsOn(y, es, With(y, i, c), Act(i, false), With(y, i, d));
  }

  lemma LeadsIn(y: System, i: nat, c: Caller)
    requires Enabled(y, Arrive(i, c))
    ensures Leads(y, [Arrive(i, c)], With(y, i, c))
  {
    ExecOne(y, Arrive(i, c));
  }

  /** A caller that introspects without interruption or failure gives the sequential answer. */
  lemma IntrospectNow(y: System, i: nat, hash: string, es: seq<Event>)
    requires i !in y.callers && es == [Arrive(i, IntrospectBegin(hash)), Act(i, false), Act(i, false), Act(i, false)]
    ensures Leads(y, es, With(y, i, IntrospectDone(hash, Introspect(y.store, hash, false, false, y.clock))))
  {
    var c0 := IntrospectBegin(hash);
    var c1 := CallerStep(y.store, c0, y.clock, false).0;
    var c2 := CallerStep(y.store, c1, y.clock, false).0;
    var c3 := CallerStep(y.store, c2, y.clock, false).0;
    assert c3 == IntrospectDone(hash, Introspect(y.store, hash, false, false, y.clock)) by {
      AloneThree(y.store, c0, y.clock, false, false, false);
      AloneIntrospects(y.store, hash, false, false, y.clock);
    }
    var e0, act := Arrive(i, c0), Act(i, false);
    LeadsIn(y, i, c0);
    LeadsThrough(y, [e0], i, c0, c1);
    LeadsThrough(y, [e0] + [act], i, c1, c2);
    LeadsThrough(y, [e0] + [act] + [act], i, c2, c3);
    assert es == [e0] + [act] + [act] + [act];
  }

  /** `es` are purges that hide the revocations of the hash among the first `k` records. */
  ghost predicate Clears(y: System, es: seq<Event>, hash: string, k: nat) {
    Possible(y, es) && Exec(y, es).clock == y.clock && Exec(y, es).callers == y.callers &&
    SameButPurged(y.store, Exec(y, es).store, hash, k)
  }

  lemma ClearOne(y: System, es: seq<Event>, z: System, hash: string, r: Id)
    requires Clears(y, es, hash, r) && z == Exec(y, es) && AllPurgeable(y.store, hash, y.clock)
    requires RevocationRecord(z.store, r, hash) && !z.store.ents[r].deleted
    ensures Clears(y, es + [PurgeRecord(r)], hash, r + 1)
  {
    assert SameEntity(y.store.ents[r], z.store.ents[r], hash);
    assert RevocationRecord(y.store, r, hash);
    ExecSnoc(y, es, PurgeRecord(r));
    OneMorePurged(y.store, z.store, hash, r);
  }

  lemma ClearNext(y: System, fewer: seq<Event>, hash: string, r: Id) returns (es: seq<Event>)
    requires Clears(y, fewer, hash, r) && AllPurgeable(y.store, hash, y.clock) && r < |y.store.ents|
    ensures Clears(y, es, hash, r + 1)
  {
    var z := Exec(y, fewer);
    if RevocationRecord(z.store, r, hash) && !z.store.ents[r].deleted {
      es := fewer + [PurgeRecord(r)];
      ClearOne(y, fewer, z, hash, r);
    } else {
      es := fewer;
      OneLessListed(y.store, z.store, hash, r);
    }
  }

  lemma {:induction false} ClearAll(y: System, hash: string, k: nat) returns (es: seq<Event>)
    requires AllPurgeable(y.store, hash, y.clock) && k <= |y.store.ents|
    ensures Clears(y, es, hash, k)
    decreases k
  {
    if k == 0 {
      es := [];
    } else {
      es := ClearAll(y, hash, k - 1);
      es := ClearNext(y, es, hash, k - 1);
    }
  }

  lemma NotRevokedUntil(s: Store, hash: string, sec: int)
    requires RevocationsTimed(s) && !RevokedUntil(s, hash, sec)
    ensures AllPurgeable(s, hash, StartOf(sec))
  {
    forall r: Id | RevocationRecord(s, r, hash) && !s.ents[r].deleted
      ensures Purgeable(s, r, StartOf(sec))
    {
      assert s.ents[r].props[ExpiresAt].sec < sec;
    }
  }

  /** With its revocations hidden a current token is active. */
  lemma UncoveredIsActive(s: Store, t: Store, hash: string, i: Id, nanos: int)
    requires TokensSound(t) && SameButPurged(s, t, hash, |s.ents|)
    requires AccessRecord(s, i, hash) && !s.ents[i].deleted && WellTimed(s.ents[i])
    requires !After(nanos, s.ents[i].props[ExpiresAt].sec)
    ensures Introspect(t, hash, false, false, nanos).ActiveToken?
  {
    assert SameEntity(s.ents[i], t.ents[i], hash);
    AllHidden(s, t, hash);
    FirstAccessToken(t, hash, i);
  }

  lemma ActiveNow(x: System, hash: string)
    requires Introspect(x.store, hash, false, false, x.clock).ActiveToken?
    ensures !NeverActiveLater(x, hash)
  {
    var n := Above(x.callers.Keys);
    assert n !in x.callers;
    var asks := [Arrive(n, IntrospectBegin(hash)), Act(n, false), Act(n, false), Act(n, false)];
    IntrospectNow(x, n, hash, asks);
    assert !EndsInactive(Exec(x, asks), n, hash);
  }

  lemma NeverAfterwards(z: System, es: seq<Event>, x: System, hash: string)
    requires Possible(z, es) && x == Exec(z, es) && x.callers == z.callers && NeverActiveLater(z, hash)
    ensures NeverActiveLater(x, hash)
  {
    forall more, i | Possible(x, more) && i !in x.callers
      ensures EndsInactive(Exec(x, more), i, hash)
    {
      ExecAppend(z, es, more);
    }
  }

  /** Purge the token's revocations in its last instant and introspect. */
  lemma UncoveredReturns(y: System, hash: string, i: Id)
    requires SystemSound(y) && AccessRecord(y.store, i, hash) && !y.store.ents[i].deleted && WellTimed(y.store.ents[i])
    requires y.clock == StartOf(y.store.ents[i].props[ExpiresAt].sec) && AllPurgeable(y.store, hash, y.clock)
    ensures !NeverActiveLater(y, hash)
  {
    var purges := ClearAll(y, hash, |y.store.ents|);
    var x := Exec(y, purges);
    ExecSound(y, purges);
    UncoveredIsActive(y.store, x.store, hash, i, x.clock);
    ActiveNow(x, hash);
    if NeverActiveLater(y, hash) {
      NeverAfterwards(y, purges, x, hash);
    }
  }

  /** Wait for that instant. */
  lemma UncoveredReturnsLater(z: System, hash: string, i: Id, sec: int)
    requires SystemSound(z) && AccessRecord(z.store, i, hash) && !z.store.ents[i].deleted && WellTimed(z.store.ents[i])
    requires sec == z.store.ents[i].props[ExpiresAt].sec && !After(z.clock, sec) && !RevokedUntil(z.store, hash, sec)
    ensures !NeverActiveLater(z, hash)
  {
    var tick := Tick(StartOf(sec) - z.clock);
    ExecOne(z, tick);
    StepSound(z, tick);
    NotRevokedUntil(z.store, hash, sec);
    UncoveredReturns(Next(z, tick), hash, i);
    if NeverActiveLater(z, hash) {
      NeverAfterwards(z, [tick], Next(z, tick), hash);
    }
  }

  /** In every reachable state, for every hash that some token or revocation carries: no later Introspect calls
      it active if and only if every listed access token with it is past its expiry or covered by a listed
      revocation that expires no earlier. */
  lemma NeverActiveExactly(agency: string, start: int, before: seq<Event>, z: System, hash: string)
    requires Possible(Initial(agency, start), before) && z == Exec(Initial(agency, start), before)
    requires !FreshToken(z.store, hash)
    ensures NeverActiveLater(z, hash) <==> Covered(z.store, z.clock, hash)
  {
    ExecSound(Initial(agency, start), before);
    if Covered(z.store, z.clock, hash) {
      CoveredNeverActive(z, hash);
    } else {
      var i: Id :| AccessRecord(z.store, i, hash) && !z.store.ents[i].deleted &&
        !(WellTimed(z.store.ents[i]) &&
          (After(z.clock, z.store.ents[i].props[ExpiresAt].sec) ||
           RevokedUntil(z.store, hash, z.store.ents[i].props[ExpiresAt].sec)));
      assert IsToken(z.store.ents[i]);
      UncoveredReturnsLater(z, hash, i, z.store.ents[i].props[ExpiresAt].sec);
    }
  }

  /** The second at which a revocation about to be recorded will expire. */
  function RecordedExpiry(expiry: Option<Value>, now: int): int {
    if expiry.Some? && expiry.value.At? then expiry.value.sec else now
  }

  /** No listed access token of the hash, unless past its expiry, lasts beyond the second or lacks a listed
      revocation of its own. */
  ghost predicate NoneOutlives(s: Store, clock: int, hash: string, sec: int) {
    forall i: Id :: AccessRecord(s, i, hash) && !s.ents[i].deleted ==>
      WellTimed(s.ents[i]) &&
      (After(clock, s.ents[i].props[ExpiresAt].sec) || s.ents[i].props[ExpiresAt].sec <= sec ||
       RevokedUntil(s, hash, s.ents[i].props[ExpiresAt].sec))
  }

  lemma RecordedUntil(s: Store, t: Store, e: Entity, hash: string, sec: int)
    requires t.ents == s.ents + [e] && e.typ == TTokenRevocation && Has(e, TokenHash, Text(hash)) && !e.deleted
    requires ExpiresAt in e.props && e.props[ExpiresAt].At?
    ensures RevokedUntil(t, hash, sec) <==> RevokedUntil(s, hash, sec) || sec <= e.props[ExpiresAt].sec
  {
    assert t.ents[|s.ents|] == e && RevocationRecord(t, |s.ents|, hash);
    if RevokedUntil(s, hash, sec) {
      var r: Id :| RevocationRecord(s, r, hash) && !s.ents[r].deleted &&
        ExpiresAt in s.ents[r].props && s.ents[r].props[ExpiresAt].At? && sec <= s.ents[r].props[ExpiresAt].sec;
      assert t.ents[r] == s.ents[r] && RevocationRecord(t, r, hash);
    }
    if RevokedUntil(t, hash, sec) {
      var r: Id :| RevocationRecord(t, r, hash) && !t.ents[r].deleted &&
        ExpiresAt in t.ents[r].props && t.ents[r].props[ExpiresAt].At? && sec <= t.ents[r].props[ExpiresAt].sec;
      if r < |s.ents| {
        assert RevocationRecord(s, r, hash);
      }
    }
  }

  lemma RecordedCovers(s: Store, t: Store, e: Entity, clock: int, hash: string)
    requires t.ents == s.ents + [e] && e.typ == TTokenRevocation && Has(e, TokenHash, Text(hash)) && !e.deleted
    requires ExpiresAt in e.props && e.props[ExpiresAt].At?
    ensures !FreshToken(t, hash)
    ensures Covered(t, clock, hash) <==> NoneOutlives(s, clock, hash, e.props[ExpiresAt].sec)
  {
    assert t.ents[|s.ents|] == e;
    assert !FreshToken(t, hash);
    forall i: Id, sec
      ensures AccessRecord(t, i, hash) <==> AccessRecord(s, i, hash)
      ensures RevokedUntil(t, hash, sec) <==> RevokedUntil(s, hash, sec) || sec <= e.props[ExpiresAt].sec
    {
      RecordedUntil(s, t, e, hash, sec);
    }
    assert forall i: Id :: AccessRecord(s, i, hash) ==> t.ents[i] == s.ents[i];
  }

  /** Recording a revocation makes its hash inactive for good if and only if no listed access token of the hash
      outlives what is recorded - not even one minted while the search was on its way. */
  lemma RecordingExactly(agency: string, start: int, before: seq<Event>, y: System, j: nat)
    requires Possible(Initial(agency, start), before) && y == Exec(Initial(agency, start), before)
    requires j in y.callers && y.callers[j].RevokeRecord?
    ensures var c, z := y.callers[j], Next(y, Act(j, false));
      z.callers[j] == RevokeDone(c.hash, true, c.now, c.expiry) &&
      (NeverActiveLater(z, c.hash) <==> NoneOutlives(y.store, y.clock, c.hash, RecordedExpiry(c.expiry, c.now)))
  {
    var c, z := y.callers[j], Next(y, Act(j, false));
    ExecSound(Initial(agency, start), before);
    assert CallerSound(y.store, y.clock, c);
    var p := RevocationProps(y.store.agency, c.hash, c.expiry, c.reason, c.now);
    assert p[TokenHash] == Text(c.hash) && p[ExpiresAt] == At(RecordedExpiry(c.expiry, c.now));
    var e := Entity(TTokenRevocation, p, false);
    RecordedCovers(y.store, z.store, e, y.clock, c.hash);
    ExecSnoc(Initial(agency, start), before, Act(j, false));
    NeverActiveExactly(agency, start, before + [Act(j, false)], z, c.hash);
  }

  lemma SearchedInVain(agency: string, es: seq<Event>)
    requires es == [Arrive(0, RevokeBegin("hash", "")), Act(0, false), Act(0, false), Act(0, false), Act(0, false)]
    ensures Leads(Initial(agency, 0), es, With(Initial(agency, 0), 0, RevokeRecord("hash", "", 0, None)))
  {
    var y, e0, act := Initial(agency, 0), Arrive(0, RevokeBegin("hash", "")), Act(0, false);
    var types := [TAccessToken, TRefreshToken];
    assert types[1..] == [TRefreshToken] && [TRefreshToken][1..] == [];
    LeadsIn(y, 0, RevokeBegin("hash", ""));
    LeadsThrough(y, [e0], 0, RevokeBegin("hash", ""), RevokeSearch("hash", "", 0, types));
    LeadsThrough(y, [e0] + [act], 0, RevokeSearch("hash", "", 0, types), RevokeSearch("hash", "", 0, [TRefreshToken]));
    LeadsThrough(y, [e0] + [act] + [act], 0,
                 RevokeSearch("hash", "", 0, [TRefreshToken]), RevokeSearch("hash", "", 0, []));
    LeadsThrough(y, [e0] + [act] + [act] + [act], 0,
                 RevokeSearch("hash", "", 0, []), RevokeRecord("hash", "", 0, None));
    assert es == [e0] + [act] + [act] + [act] + [act];
  }

  /** A schedule that loses a revocation though no call fails: both lookups come up empty, then the token is
      minted, then the revocation is recorded, with the second of its clock reading for an expiry. It takes a Revoke
      of a token that nobody can have been given yet. */
  lemma LosingSchedule(agency: string, search: seq<Event>, mint: Event)
    requires search == [Arrive(0, RevokeBegin("hash", "")), Act(0, false), Act(0, false), Act(0, false), Act(0, false)]
    requires mint == MintToken(false, "hash", 100, 0)
    ensures var es := search + [mint] + [Act(0, false)];
      var z := Exec(Initial(agency, 0), es);
      Possible(Initial(agency, 0), es) && 0 in z.callers && z.callers[0] == RevokeDone("hash", true, 0, None) &&
      !NeverActiveLater(z, "hash")
  {
    SearchedInVain(agency, search);
    ExecSnoc(Initial(agency, 0), search, mint);
    ExecSnoc(Initial(agency, 0), search + [mint], Act(0, false));
    var y := Exec(Initial(agency, 0), search + [mint]);
    var p := TokenProps(agency, "hash", 100, 0);
    assert p[TokenHash] == Text("hash") && p[ExpiresAt] == At(100);
    assert y.store.ents == [Entity(TAccessToken, p, false)];
    assert AccessRecord(y.store, 0, "hash") && !RevokedUntil(y.store, "hash", 100);
    RecordingExactly(agency, 0, search + [mint], y, 0);
  }

  // ---------------------------------------------------------------- what callers can rely on

  lemma OutlivedExactly(s: Store, clock: int, hash: string, now: int)
    requires Recorded(s, clock, hash, now, None)
    ensures Covered(s, clock, hash) <==> NoneOutlives(s, clock, hash, now)
  {
    forall i: Id | AccessRecord(s, i, hash) && WellTimed(s.ents[i]) && s.ents[i].props[ExpiresAt].sec <= now
      ensures After(clock, s.ents[i].props[ExpiresAt].sec) || RevokedUntil(s, hash, s.ents[i].props[ExpiresAt].sec)
    {
      if RevokedUntil(s, hash, now) {
        RevokedLonger(s, hash, now, s.ents[i].props[ExpiresAt].sec);
      }
    }
  }

  lemma RevokedLonger(s: Store, hash: string, sec: int, earlier: int)
    requires RevokedUntil(s, hash, sec) && earlier <= sec
    ensures RevokedUntil(s, hash, earlier)
  {
  }

  /** Under every interleaving: once some Revoke of a hash has succeeded, an Introspect of that hash that arrives
      later never answers active - before purging and after - if and only if the search of the Revoke found a
      token, or no listed access token of the hash lasts beyond the second of the Revoke, unless it is past its
      expiry or another listed revocation covers it. */
  lemma RevokedStaysInactive(agency: string, start: int, before: seq<Event>, y: System, j: nat)
    requires Possible(Initial(agency, start), before) && y == Exec(Initial(agency, start), before)
    requires j in y.callers && y.callers[j].RevokeDone? && y.callers[j].ok
    ensures var c := y.callers[j];
      NeverActiveLater(y, c.hash) <==> c.expiry.Some? || NoneOutlives(y.store, y.clock, c.hash, c.now)
  {
    var c := y.callers[j];
    ExecSound(Initial(agency, start), before);
    assert CallerSound(y.store, y.clock, c);
    NeverActiveExactly(agency, start, before, y, c.hash);
    if c.expiry.None? {
      OutlivedExactly(y.store, y.clock, c.hash, c.now);
    }
  }

  // ---------------------------------------------------------------- active answers were right

  /** An access token with the hash and these properties is listed, and no revocation of the hash is. */
  ghost predicate Vouches(s: Store, hash: string, token: Props) {
    RevocationsOf(s, hash) == [] &&
    exists t: Id :: AccessRecord(s, t, hash) && !s.ents[t].deleted && s.ents[t].props == token
  }

  /** The instant before event `k`, at which the caller's state is `c`, is that of its first lookup, or follows a
      minting between its two lookups. */
  predicate Instant(es: seq<Event>, k: nat, i: nat, hash: string, c: Caller) {
    (c == IntrospectBegin(hash) && k < |es| && es[k] == Act(i, false)) ||
    (c == IntrospectTokens(hash) && 0 < k <= |es| &&
     es[k - 1].MintToken? && !es[k - 1].refresh && es[k - 1].hash == hash)
  }

  /** At the instant before event `k` caller `i` has come just so far, and the store vouches for the token. */
  ghost predicate SeenAt(y: System, es: seq<Event>, k: nat, i: nat, hash: string, token: Props) {
    k <= |es| &&
    var x := Exec(y, es[..k]);
    i in x.callers && Instant(es, k, i, hash, x.callers[i]) && Vouches(x.store, hash, token)
  }

  ghost predicate Seen(y: System, es: seq<Event>, i: nat, hash: string, token: Props) {
    exists k: nat :: SeenAt(y, es, k, i, hash, token)
  }

  /** As `Seen`, with the clock at that instant not past the token's expiry. */
  ghost predicate SeenCurrent(y: System, es: seq<Event>, i: nat, hash: string, exp: int, iat: int) {
    exists k: nat, token: Props :: SeenAt(y, es, k, i, hash, token) &&
      PropTime(token, ExpiresAt) == exp && PropTime(token, CreatedAt) == iat && !After(Exec(y, es[..k]).clock, exp)
  }

  /** What a caller knows goes back to an instant of its own call. */
  ghost predicate Traced(y: System, es: seq<Event>, s: Store, i: nat, c: Caller) {
    match c
    case IntrospectTokens(h) =>
      forall t: Id :: AccessRecord(s, t, h) && !s.ents[t].deleted ==> Seen(y, es, i, h, s.ents[t].props)
    case IntrospectClock(h, token) => Seen(y, es, i, h, token)
    case IntrospectDone(h, ActiveToken(exp, iat)) => SeenCurrent(y, es, i, h, exp, iat)
    case _ => true
  }

  lemma SeenAtStays(y: System, es: seq<Event>, e: Event, k: nat, i: nat, hash: string, token: Props)
    requires SeenAt(y, es, k, i, hash, token)
    ensures SeenAt(y, es + [e], k, i, hash, token) && (es + [e])[..k] == es[..k]
  {
    assert (es + [e])[..k] == es[..k];
  }

  lemma SeenStays(y: System, es: seq<Event>, e: Event, i: nat, hash: string, token: Props)
    requires Seen(y, es, i, hash, token)
    ensures Seen(y, es + [e], i, hash, token)
  {
    var k: nat :| SeenAt(y, es, k, i, hash, token);
    SeenAtStays(y, es, e, k, i, hash, token);
  }

  lemma SeenCurrentStays(y: System, es: seq<Event>, e: Event, i: nat, hash: string, exp: int, iat: int)
    requires SeenCurrent(y, es, i, hash, exp, iat)
    ensures SeenCurrent(y, es + [e], i, hash, exp, iat)
  {
    var k: nat, token: Props :| SeenAt(y, es, k, i, hash, token) &&
      PropTime(token, ExpiresAt) == exp && PropTime(token, CreatedAt) == iat && !After(Exec(y, es[..k]).clock, exp);
    SeenAtStays(y, es, e, k, i, hash, token);
  }

  /** The first lookup finds no revocation: the tokens listed then are vouched for. */
  lemma SeenAtLookup(y: System, es: seq<Event>, x: System, i: nat, t: Id)
    requires x == Exec(y, es) && i in x.callers && x.callers[i].IntrospectBegin?
    requires var h := x.callers[i].hash;
      RevocationsOf(x.store, h) == [] && AccessRecord(x.store, t, h) && !x.store.ents[t].deleted
    ensures Seen(y, es + [Act(i, false)], i, x.callers[i].hash, x.store.ents[t].props)
  {
    var longer := es + [Act(i, false)];
    assert longer[..|es|] == es && longer[|es|] == Act(i, false);
    assert SeenAt(y, longer, |es|, i, x.callers[i].hash, x.store.ents[t].props);
  }

  /** A token minted behind that lookup has a new hash, so there is no revocation of it either. */
  lemma SeenAtMinting(y: System, es: seq<Event>, x: System, e: Event, i: nat, t: Id)
    requires x == Exec(y, es) && i in x.callers && x.callers[i].IntrospectTokens? && Enabled(x, e) &&
             TokensSound(x.store)
    requires var z, h := Next(x, e), x.callers[i].hash;
      i in z.callers && z.callers[i] == x.callers[i] && AccessRecord(z.store, t, h) && !z.store.ents[t].deleted &&
      t >= |x.store.ents|
    ensures Seen(y, es + [e], i, x.callers[i].hash, Next(x, e).store.ents[t].props)
  {
    var h, z, longer := x.callers[i].hash, Next(x, e), es + [e];
    MintedJustNow(x, e, h, t);
    assert longer[..|longer|] == longer && longer[|longer| - 1] == e;
    ExecSnoc(y, es, e);
    assert Vouches(z.store, h, z.store.ents[t].props);
    assert SeenAt(y, longer, |longer|, i, h, z.store.ents[t].props);
  }

  lemma MintedJustNow(x: System, e: Event, hash: string, t: Id)
    requires Enabled(x, e) && AccessRecord(Next(x, e).store, t, hash) && t >= |x.store.ents|
    ensures e.MintToken? && !e.refresh && e.hash == hash && RevocationsOf(Next(x, e).store, hash) == []
  {
    var s, z := x.store, Next(x, e);
    assert e.MintToken? && !e.refresh && e.hash == hash;
    forall r | 0 <= r < |z.store.ents|
      ensures !Matches(z.store.ents[r], TTokenRevocation, Where(TokenHash, Text(hash)))
    {
      assert r < |s.ents| && s.ents[r].typ in ARTIFACTS ==> !Has(s.ents[r], TokenHash, Text(hash));
    }
    ListEmpty(z.store.ents, TTokenRevocation, Where(TokenHash, Text(hash)));
  }

  lemma ListedBefore(s: Store, t: Store, clock: int, hash: string, i: Id)
    requires Moves(s, t, clock) && AccessRecord(t, i, hash) && !t.ents[i].deleted && i < |s.ents|
    ensures AccessRecord(s, i, hash) && !s.ents[i].deleted && s.ents[i].props == t.ents[i].props
  {
    assert KeptEntity(s.ents[i], t.ents[i], clock);
  }

  lemma TokensTraced(y: System, es: seq<Event>, x: System, e: Event, i: nat)
    requires x == Exec(y, es) && SystemSound(x) && Enabled(x, e) && i in x.callers && x.callers[i].IntrospectTokens?
    requires i in Next(x, e).callers && Next(x, e).callers[i] == x.callers[i] && Traced(y, es, x.store, i, x.callers[i])
    ensures Traced(y, es + [e], Next(x, e).store, i, x.callers[i])
  {
    var z, h := Next(x, e), x.callers[i].hash;
    StepMoves(x, e);
    forall t: Id | AccessRecord(z.store, t, h) && !z.store.ents[t].deleted
      ensures Seen(y, es + [e], i, h, z.store.ents[t].props)
    {
      if t < |x.store.ents| {
        ListedBefore(x.store, z.store, z.clock, h, t);
        SeenStays(y, es, e, i, h, z.store.ents[t].props);
      } else {
        SeenAtMinting(y, es, x, e, i, t);
      }
    }
  }

  /** A caller that does not move stays traced. */
  lemma TracedStays(y: System, es: seq<Event>, x: System, e: Event, i: nat)
    requires x == Exec(y, es) && SystemSound(x) && Enabled(x, e) && i in x.callers
    requires i in Next(x, e).callers && Next(x, e).callers[i] == x.callers[i] && Traced(y, es, x.store, i, x.callers[i])
    ensures Traced(y, es + [e], Next(x, e).store, i, x.callers[i])
  {
    match x.callers[i]
    case IntrospectTokens(_) => TokensTraced(y, es, x, e, i);
    case IntrospectClock(h, token) => SeenStays(y, es, e, i, h, token);
    case IntrospectDone(h, ActiveToken(exp, iat)) => SeenCurrentStays(y, es, e, i, h, exp, iat);
    case _ =>
  }

  lemma {:induction false} ClockGrows(y: System, es: seq<Event>)
    ensures y.clock <= Exec(y, es).clock
    decreases |es|
  {
    if |es| > 0 {
      ClockGrows(Next(y, es[0]), es[1..]);
    }
  }

  /** At every earlier instant the system was sound and the clock no further. */
  lemma Earlier(y: System, es: seq<Event>, k: nat)
    requires SystemSound(y) && Possible(y, es) && k <= |es|
    ensures SystemSound(Exec(y, es[..k])) && Exec(y, es[..k]).clock <= Exec(y, es).clock
  {
    assert es == es[..k] + es[k..];
    ExecAppend(y, es[..k], es[k..]);
    ExecSound(y, es[..k]);
    ClockGrows(Exec(y, es[..k]), es[k..]);
  }

  lemma VouchedIsTimed(s: Store, hash: string, token: Props)
    requires TokensSound(s) && Vouches(s, hash, token)
    ensures PropTime(token, ExpiresAt) != ZERO_TIME
  {
    var t: Id :| AccessRecord(s, t, hash) && !s.ents[t].deleted && s.ents[t].props == token;
    assert IsToken(s.ents[t]) && WellTimed(s.ents[t]);
  }

  lemma JudgedCurrent(y: System, es: seq<Event>, i: nat, hash: string, token: Props)
    requires SystemSound(y) && Possible(y, es) && Seen(y, es, i, hash, token)
    ensures JudgeToken(token, Exec(y, es).clock).ActiveToken? ==>
      SeenCurrent(y, es, i, hash, PropTime(token, ExpiresAt), PropTime(token, CreatedAt))
  {
    var k: nat :| SeenAt(y, es, k, i, hash, token);
    Earlier(y, es, k);
    VouchedIsTimed(Exec(y, es[..k]).store, hash, token);
  }

  lemma FirstListed(s: Store, hash: string)
    requires AccessTokensOf(s, hash) != []
    ensures var t := AccessTokensOf(s, hash)[0]; AccessRecord(s, t, hash) && !s.ents[t].deleted
  {
  }

  lemma TracedAfterTokens(y: System, es: seq<Event>, x: System, i: nat, fail: bool)
    requires x == Exec(y, es) && i in x.callers && x.callers[i].IntrospectTokens? &&
             Traced(y, es, x.store, i, x.callers[i])
    ensures Traced(y, es + [Act(i, fail)], x.store, i, CallerStep(x.store, x.callers[i], x.clock, fail).0)
  {
    var h := x.callers[i].hash;
    if AccessTokensOf(x.store, h) != [] {
      FirstListed(x.store, h);
      SeenStays(y, es, Act(i, fail), i, h, x.store.ents[AccessTokensOf(x.store, h)[0]].props);
    }
  }

  lemma TracedAfterBegin(y: System, es: seq<Event>, x: System, i: nat, fail: bool)
    requires x == Exec(y, es) && i in x.callers && x.callers[i].IntrospectBegin?
    ensures Traced(y, es + [Act(i, fail)], x.store, i, CallerStep(x.store, x.callers[i], x.clock, fail).0)
  {
    var h := x.callers[i].hash;
    if !fail && RevocationsOf(x.store, h) == [] {
      forall t: Id | AccessRecord(x.store, t, h) && !x.store.ents[t].deleted
        ensures Seen(y, es + [Act(i, false)], i, h, x.store.ents[t].props)
      {
        SeenAtLookup(y, es, x, i, t);
      }
    }
  }

  lemma TracedAfterClock(y: System, es: seq<Event>, x: System, i: nat, fail: bool)
    requires SystemSound(y) && Possible(y, es) && x == Exec(y, es) && i in x.callers && x.callers[i].IntrospectClock?
    requires Traced(y, es, x.store, i, x.callers[i])
    ensures Traced(y, es + [Act(i, fail)], x.store, i, CallerStep(x.store, x.callers[i], x.clock, fail).0)
  {
    var h, token := x.callers[i].hash, x.callers[i].token;
    JudgedCurrent(y, es, i, h, token);
    if JudgeToken(token, x.clock).ActiveToken? {
      SeenCurrentStays(y, es, Act(i, fail), i, h, PropTime(token, ExpiresAt), PropTime(token, CreatedAt));
    }
  }

  lemma TracedAfterDone(y: System, es: seq<Event>, s: Store, e: Event, i: nat, c: Caller)
    requires c.IntrospectDone? && Traced(y, es, s, i, c)
    ensures Traced(y, es + [e], s, i, c)
  {
    if c.answer.ActiveToken? {
      SeenCurrentStays(y, es, e, i, c.hash, c.answer.exp, c.answer.iat);
    }
  }

  lemma TracedAfterRevoke(y: System, es: seq<Event>, s: Store, t: Store, i: nat, c: Caller, clock: int, fail: bool)
    requires !c.IntrospectBegin? && !c.IntrospectTokens? && !c.IntrospectClock? && !c.IntrospectDone?
    ensures Traced(y, es, t, i, CallerStep(s, c, clock, fail).0)
  {
  }

  lemma ActMoves(x: System, i: nat, fail: bool)
    requires i in x.callers
    ensures var c, z := x.callers[i], Next(x, Act(i, fail));
      i in z.callers && z.callers[i] == CallerStep(x.store, c, x.clock, fail).0 &&
      (c.IntrospectBegin? || c.IntrospectTokens? || c.IntrospectClock? || c.IntrospectDone? ==> z.store == x.store)
  {
  }

  /** A caller that moves is traced in its next state. */
  lemma TracedAct(y: System, es: seq<Event>, x: System, i: nat, fail: bool)
    requires SystemSound(y) && Possible(y, es) && x == Exec(y, es) && i in x.callers
    requires Traced(y, es, x.store, i, x.callers[i])
    ensures var z := Next(x, Act(i, fail)); Traced(y, es + [Act(i, fail)], z.store, i, z.callers[i])
  {
    ActMoves(x, i, fail);
    var c := x.callers[i];
    if c.IntrospectBegin? {
      TracedAfterBegin(y, es, x, i, fail);
    } else if c.IntrospectTokens? {
      TracedAfterTokens(y, es, x, i, fail);
    } else if c.IntrospectClock? {
      TracedAfterClock(y, es, x, i, fail);
    } else if c.IntrospectDone? {
      TracedAfterDone(y, es, x.store, Act(i, fail), i, c);
    } else {
      TracedAfterRevoke(y, es + [Act(i, fail)], x.store, Next(x, Act(i, fail)).store, i, c, x.clock, fail);
    }
  }

  lemma {:induction false} AllTraced(y: System, es: seq<Event>, i: nat)
    requires SystemSound(y) && y.callers == map[] && Possible(y, es) && i in Exec(y, es).callers
    ensures Traced(y, es, Exec(y, es).store, i, Exec(y, es).callers[i])
    decreases |es|
  {
    if |es| > 0 {
      var before, e := es[..|es| - 1], es[|es| - 1];
      var x := Exec(y, before);
      SplitLast([], es);
      ExecSnoc(y, before, e);
      ExecSound(y, before);
      if i in x.callers {
        AllTraced(y, before, i);
        if e.Act? && e.id == i {
          TracedAct(y, before, x, i, e.fail);
        } else {
          TracedStays(y, before, x, e, i);
        }
      }
    }
  }

  /** An active answer was right at some instant of its own call: then a token minted with the hash and the answered
      times was listed, no revocation of the hash was, and the clock was not past the expiry. The instant is the
      caller's first lookup, or the minting if that came later. The token is still stored when the answer is given. */
  lemma ActiveAnswersWereCurrent(agency: string, start: int, es: seq<Event>, i: nat)
    requires Possible(Initial(agency, start), es)
    requires var y := Exec(Initial(agency, start), es);
      i in y.callers && y.callers[i].IntrospectDone? && y.callers[i].answer.ActiveToken?
    ensures var c := Exec(Initial(agency, start), es).callers[i];
      SeenCurrent(Initial(agency, start), es, i, c.hash, c.answer.exp, c.answer.iat)
    ensures var y := Exec(Initial(agency, start), es);
      exists t: Id :: AccessRecord(y.store, t, y.callers[i].hash) &&
        PropTime(y.store.ents[t].props, ExpiresAt) == y.callers[i].answer.exp &&
        PropTime(y.store.ents[t].props, CreatedAt) == y.callers[i].answer.iat
  {
    var y := Exec(Initial(agency, start), es);
    ExecSound(Initial(agency, start), es);
    assert CallerSound(y.store, y.clock, y.callers[i]);
    AllTraced(Initial(agency, start), es, i);
  }

  // ---------------------------------------------------------------- uninterrupted callers

  /** A caller running alone, its storage calls failing as told. */
  function Alone(s: Store, c: Caller, clock: int, fails: seq<bool>): Caller
    decreases |fails|
  {
    if |fails| == 0 then c else Alone(s, CallerStep(s, c, clock, fails[0]).0, clock, fails[1..])
  }

  lemma AloneOne(s: Store, c: Caller, clock: int, f: bool)
    ensures Alone(s, c, clock, [f]) == CallerStep(s, c, clock, f).0
  {
    assert [f][1..] == [];
    assert Alone(s, CallerStep(s, c, clock, f).0, clock, []) == CallerStep(s, c, clock, f).0;
  }

  lemma AloneTwo(s: Store, c: Caller, clock: int, f1: bool, f2: bool)
    ensures Alone(s, c, clock, [f1, f2]) == CallerStep(s, CallerStep(s, c, clock, f1).0, clock, f2).0
  {
    assert [f1, f2][1..] == [f2];
    AloneOne(s, CallerStep(s, c, clock, f1).0, clock, f2);
  }

  lemma AloneThree(s: Store, c: Caller, clock: int, f1: bool, f2: bool, f3: bool)
    ensures Alone(s, c, clock, [f1, f2, f3])
            == CallerStep(s, CallerStep(s, CallerStep(s, c, clock, f1).0, clock, f2).0, clock, f3).0
  {
    assert [f1, f2, f3][1..] == [f2, f3];
    AloneTwo(s, CallerStep(s, c, clock, f1).0, clock, f2, f3);
  }

  /** Uninterrupted, the steps of a caller are the operations of the manager. */
  lemma AloneIntrospects(s: Store, hash: string, f1: bool, f2: bool, clock: int)
    ensures Alone(s, IntrospectBegin(hash), clock, [f1, f2, false])
            == IntrospectDone(hash, Introspect(s, hash, f1, f2, clock))
  {
    AloneThree(s, IntrospectBegin(hash), clock, f1, f2, false);
  }

  /** The lookups a search takes: none after the first hit, and a last step when there is none. */
  function Lookups(s: Store, hash: string, f1: bool, f2: bool): seq<bool> {
    if !f1 && ExpiryFrom(s, TAccessToken, hash).Some? then [f1]
    else if !f2 && ExpiryFrom(s, TRefreshToken, hash).Some? then [f1, f2]
    else [f1, f2, false]
  }

  lemma AloneSearches(s: Store, c: Caller, hash: string, reason: string, now: int, clock: int, f1: bool, f2: bool)
    requires c == RevokeSearch(hash, reason, now, [TAccessToken, TRefreshToken])
    ensures Alone(s, c, clock, Lookups(s, hash, f1, f2))
            == RevokeRecord(hash, reason, now, SearchExpiry(s, hash, !f1, !f2))
  {
    var types := [TAccessToken, TRefreshToken];
    assert types[1..] == [TRefreshToken] && [TRefreshToken][1..] == [];
    AloneOne(s, c, clock, f1);
    AloneTwo(s, c, clock, f1, f2);
    AloneThree(s, c, clock, f1, f2, false);
  }

  lemma RevokeBegins(s: Store, hash: string, reason: string, clock: int)
    ensures CallerStep(s, RevokeBegin(hash, reason), clock, false)
            == (RevokeSearch(hash, reason, Sec(clock), [TAccessToken, TRefreshToken]), None)
  {
  }

  lemma RevokeEnds(s: Store, hash: string, reason: string, now: int, clock: int, sawAccess: bool, sawRefresh: bool)
    ensures var found := SearchExpiry(s, hash, sawAccess, sawRefresh);
      var (c, w) := CallerStep(s, RevokeRecord(hash, reason, now, found), clock, false);
      c == RevokeDone(hash, true, now, found) && w.Some? &&
      Plan(s, Op.Revoke(hash, sawAccess, sawRefresh, reason, now)) == Writes([w.value])
  {
  }

  /** The clock reading and the lookups lead to what the sequential search finds, and the recording then writes what
      the sequential Revoke writes. */
  lemma AloneRevokes(s: Store, hash: string, reason: string, clock: int, f1: bool, f2: bool)
    ensures var found := SearchExpiry(s, hash, !f1, !f2);
      Alone(s, RevokeBegin(hash, reason), clock, [false] + Lookups(s, hash, f1, f2))
      == RevokeRecord(hash, reason, Sec(clock), found)
    ensures var found := SearchExpiry(s, hash, !f1, !f2);
      var (c, w) := CallerStep(s, RevokeRecord(hash, reason, Sec(clock), found), clock, false);
      c == RevokeDone(hash, true, Sec(clock), found) && w.Some? &&
      Plan(s, Op.Revoke(hash, !f1, !f2, reason, Sec(clock))) == Writes([w.value])
  {
    var more := Lookups(s, hash, f1, f2);
    assert ([false] + more)[0] == false && ([false] + more)[1..] == more;
    RevokeBegins(s, hash, reason, clock);
    var c := RevokeSearch(hash, reason, Sec(clock), [TAccessToken, TRefreshToken]);
    assert Alone(s, RevokeBegin(hash, reason), clock, [false] + more) == Alone(s, c, clock, more);
    AloneSearches(s, c, hash, reason, Sec(clock), clock, f1, f2);
    RevokeEnds(s, hash, reason, Sec(clock), clock, !f1, !f2);
  }
}
