/** oauth_clients.go and crypto.go together: every client secret ever handed out keeps verifying. */
module Secrets {
  import opened Wrappers
  import opened Encodings
  import opened Crypto
  import opened EntityGraph
  import opened Helpers
  import opened Operations
  import opened Invariants
  import opened PlansLegal
  import opened Invitations

  /** `n` is a stored secret linked to `c`, which is the client with this client id. */
  predicate SecretOf(s: Store, c: Id, n: Id, clientId: string) {
    c < |s.ents| && s.ents[c].typ == TOAuthClient && Has(s.ents[c], ClientId, Text(clientId)) &&
    n < |s.ents| && s.ents[n].typ == TClientSecret && !s.ents[n].deleted && Edge(HasClientSecret, c, n) in s.edges
  }

  predicate Stored(s: Store, c: Id, n: Id, clientId: string, phc: string) {
    SecretOf(s, c, n, clientId) && Has(s.ents[n], SecretHash, Text(phc))
  }

  lemma AfterSecret(s: Store, agency: string, client: Id, secret: NewSecret, now: int)
    ensures var t := ApplyAll(s, SecretWrites(agency, client, |s.ents|, secret, now));
      |t.ents| == |s.ents| + 1 && t.ents[..|s.ents|] == s.ents &&
      t.ents[|s.ents|].typ == TClientSecret && !t.ents[|s.ents|].deleted &&
      Has(t.ents[|s.ents|], SecretHash, Text(secret.phc)) &&
      t.edges == s.edges + [Edge(HasClientSecret, client, |s.ents|)]
  {
    var ws := SecretWrites(agency, client, |s.ents|, secret, now);
    assert ws[1..] == [ws[1]];
    assert ApplyAll(Apply(s, ws[0]), [ws[1]]) == Apply(Apply(s, ws[0]), ws[1]);
  }

  lemma SecretIsStored(s: Store, agency: string, client: Id, secret: NewSecret, now: int, clientId: string)
    requires client < |s.ents| && s.ents[client].typ == TOAuthClient && Has(s.ents[client], ClientId, Text(clientId))
    ensures Stored(ApplyAll(s, SecretWrites(agency, client, |s.ents|, secret, now)), client, |s.ents|,
                   clientId, secret.phc)
  {
    var t := ApplyAll(s, SecretWrites(agency, client, |s.ents|, secret, now));
    AfterSecret(s, agency, client, secret, now);
    assert t.ents[client] == t.ents[..|s.ents|][client];
    assert t.edges[|s.edges|] == Edge(HasClientSecret, client, |s.ents|);
  }

  lemma {:induction false} AfterUris(s: Store, agency: string, client: Id, next: Id, uris: seq<string>, now: int)
    ensures var t := ApplyAll(s, UriWrites(agency, client, next, uris, now));
      |t.ents| == |s.ents| + |uris| && t.ents[..|s.ents|] == s.ents
    decreases |uris|
  {
    if |uris| > 0 {
      var pair := UriPair(agency, client, next, uris[0], now);
      var rest := UriWrites(agency, client, next + 1, uris[1..], now);
      ApplyAppend(s, pair, rest);
      AfterUriPair(s, agency, client, next, uris[0], now);
      AfterUris(ApplyAll(s, pair), agency, client, next + 1, uris[1..], now);
      assert ApplyAll(s, pair + rest).ents[..|s.ents|] == ApplyAll(s, pair + rest).ents[..|s.ents| + 1][..|s.ents|];
    }
  }

  lemma AfterUriPair(s: Store, agency: string, client: Id, next: Id, uri: string, now: int)
    ensures var t := ApplyAll(s, UriPair(agency, client, next, uri, now));
      |t.ents| == |s.ents| + 1 && t.ents[..|s.ents|] == s.ents
  {
    var pair := UriPair(agency, client, next, uri, now);
    assert pair[1..] == [pair[1]];
    assert ApplyAll(Apply(s, pair[0]), [pair[1]]) == Apply(Apply(s, pair[0]), pair[1]);
  }

  lemma LinksToOnly(name: EdgeName, from: Id, ids: seq<Id>)
    ensures LinksOnly(LinksTo(name, from, ids))
  {
  }

  lemma AfterClientHead(s: Store, props: Props, uris: seq<string>, scopes: seq<Id>, now: int)
    ensures var t := ApplyAll(s, ClientHead(s, props, uris, scopes, now));
      |t.ents| == |s.ents| + 1 + |uris| && t.ents[|s.ents|] == Entity(TOAuthClient, props, false)
  {
    var c := |s.ents|;
    var w, links := [Create(TOAuthClient, props)], LinksTo(AllowsScope, c, scopes);
    var us := UriWrites(s.agency, c, c + 1, uris, now);
    var s1 := Apply(s, w[0]);
    assert ApplyAll(s, w) == s1;
    ApplyAppend(s, w, us);
    AfterUris(s1, s.agency, c, c + 1, uris, now);
    var s2 := ApplyAll(s1, us);
    assert s2.ents[c] == s2.ents[..|s1.ents|][c];
    ApplyAppend(s, w + us, links);
    LinksToOnly(AllowsScope, c, scopes);
    LinksOnlyAddEdges(s2, links);
  }

  function ClientHead(s: Store, props: Props, uris: seq<string>, scopes: seq<Id>, now: int): seq<Write> {
    [Create(TOAuthClient, props)] + UriWrites(s.agency, |s.ents|, |s.ents| + 1, uris, now)
    + LinksTo(AllowsScope, |s.ents|, scopes)
  }

  /** The plan of CreateOAuthClient, grouped in the ways its proofs need. */
  lemma ClientPlanIs(s: Store, req: ClientRequest, clientId: string, secret: NewSecret, now: int)
    ensures var ws, c := CreateOAuthClientPlan(s, req, clientId, secret, now).ws, |s.ents|;
      var props := ClientProps(s.agency, req, clientId, now);
      var uris := UriWrites(s.agency, c, c + 1, req.redirectURIs, now);
      var links, tail := LinksTo(AllowsScope, c, req.scopeIds), ClientTail(s.agency, c, req, secret, now);
      ws == ClientHead(s, props, req.redirectURIs, req.scopeIds, now) + tail &&
      ws == [Create(TOAuthClient, props)] + uris + (links + tail) &&
      ws == [Create(TOAuthClient, props)] + (uris + (links + tail))
  {
  }

  /** The secret made behind a new client, its redirect URIs and its scope links is stored for that client. */
  lemma HeadThenSecret(s: Store, props: Props, uris: seq<string>, scopes: seq<Id>, now: int, clientId: string,
                       secret: NewSecret, n: Id, t: Store)
    requires ClientId in props && props[ClientId] == Text(clientId) && n == |s.ents| + 1 + |uris|
    requires t == ApplyAll(s, ClientHead(s, props, uris, scopes, now)
                           + SecretWrites(s.agency, |s.ents|, n, secret, now))
    ensures Stored(t, |s.ents|, n, clientId, secret.phc)
  {
    var head := ClientHead(s, props, uris, scopes, now);
    ApplyAppend(s, head, SecretWrites(s.agency, |s.ents|, n, secret, now));
    AfterClientHead(s, props, uris, scopes, now);
    SecretBehindHead(s.agency, ApplyAll(s, head), |s.ents|, props, now, clientId, secret, n, t);
  }

  lemma SecretBehindHead(agency: string, s: Store, client: Id, props: Props, now: int, clientId: string,
                         secret: NewSecret, n: Id, t: Store)
    requires ClientId in props && props[ClientId] == Text(clientId)
    requires client < |s.ents| == n && s.ents[client] == Entity(TOAuthClient, props, false)
    requires t == ApplyAll(s, SecretWrites(agency, client, n, secret, now))
    ensures Stored(t, client, n, clientId, secret.phc)
  {
    SecretIsStored(s, agency, client, secret, now, clientId);
  }

  lemma PropsClientId(agency: string, req: ClientRequest, clientId: string, now: int)
    ensures var props := ClientProps(agency, req, clientId, now); ClientId in props && props[ClientId] == Text(clientId)
  {
  }

  lemma RotateStores(s: Store, clientId: string, secret: NewSecret, now: int)
    requires RotateClientSecretPlan(s, clientId, secret, now).Writes?
    ensures exists c: Id ::
      Stored(ApplyAll(s, RotateClientSecretPlan(s, clientId, secret, now).ws), c, |s.ents|, clientId, secret.phc)
  {
    var found := List(s.ents, TOAuthClient, Where(ClientId, Text(clientId)));
    SecretIsStored(s, s.agency, found[0], secret, now, clientId);
  }

  /** The two calls that hand out a plaintext secret when they finish. */
  predicate HandsOut(s: Store, c: Call) {
    Finished(s, c) &&
    ((c.op.CreateOAuthClient? && c.op.client.clientType == "confidential") || c.op.RotateClientSecret?)
  }

  lemma AfterCreateClient(s: Store, req: ClientRequest, clientId: string, secret: NewSecret, now: int, done: nat)
    requires Finished(s, Call(CreateOAuthClient(req, clientId, secret, now), done))
    ensures AfterCall(s, Call(CreateOAuthClient(req, clientId, secret, now), done))
            == ApplyAll(s, CreateOAuthClientPlan(s, req, clientId, secret, now).ws)
  {
    CutAll(CreateOAuthClientPlan(s, req, clientId, secret, now).ws, done);
  }

  lemma AfterRotate(s: Store, clientId: string, secret: NewSecret, now: int, done: nat)
    requires Finished(s, Call(RotateClientSecret(clientId, secret, now), done))
    ensures RotateClientSecretPlan(s, clientId, secret, now).Writes?
    ensures AfterCall(s, Call(RotateClientSecret(clientId, secret, now), done))
            == ApplyAll(s, RotateClientSecretPlan(s, clientId, secret, now).ws)
  {
    CutAll(RotateClientSecretPlan(s, clientId, secret, now).ws, done);
  }

  lemma AfterConfidential(s: Store, req: ClientRequest, clientId: string, secret: NewSecret, now: int, done: nat)
    requires Finished(s, Call(CreateOAuthClient(req, clientId, secret, now), done)) && req.clientType == "confidential"
    ensures AfterCall(s, Call(CreateOAuthClient(req, clientId, secret, now), done)) ==
            ApplyAll(s, ClientHead(s, ClientProps(s.agency, req, clientId, now), req.redirectURIs, req.scopeIds, now)
                        + SecretWrites(s.agency, |s.ents|, |s.ents| + 1 + |req.redirectURIs|, secret, now))
  {
    AfterCreateClient(s, req, clientId, secret, now, done);
    ClientPlanIs(s, req, clientId, secret, now);
  }

  lemma HandedOutIsStored(s: Store, c: Call)
    requires HandsOut(s, c)
    ensures exists k: Id, n: Id :: Stored(AfterCall(s, c), k, n, c.op.clientId, c.op.secret.phc)
  {
    match c.op
    case CreateOAuthClient(req, clientId, secret, now) =>
      AfterConfidential(s, req, clientId, secret, now, c.done);
      PropsClientId(s.agency, req, clientId, now);
      HeadThenSecret(s, ClientProps(s.agency, req, clientId, now), req.redirectURIs, req.scopeIds, now,
                     clientId, secret, |s.ents| + 1 + |req.redirectURIs|, AfterCall(s, c));
    case RotateClientSecret(clientId, secret, now) =>
      AfterRotate(s, clientId, secret, now, c.done);
      RotateStores(s, clientId, secret, now);
  }

  lemma StoredStays(s: Store, t: Store, c: Id, n: Id, clientId: string, phc: string)
    requires EntitiesSound(t) && Evolves(s, t) && Stored(s, c, n, clientId, phc)
    ensures Stored(t, c, n, clientId, phc)
  {
    assert EntitySound(t, t.ents[n]);
    FrozenStays(s.ents[n], t.ents[n], SecretHash, Text(phc));
    FrozenStays(s.ents[c], t.ents[c], ClientId, Text(clientId));
    EdgeStays(s, t, Edge(HasClientSecret, c, n));
  }

  lemma FrozenStays(a: Entity, b: Entity, p: Prop, v: Value)
    requires EntityEvolves(a, b) && Has(a, p, v) && p !in Mutable(a.typ)
    ensures b.typ == a.typ && Has(b, p, v)
  {
  }

  lemma EdgeStays(s: Store, t: Store, e: Edge)
    requires s.edges <= t.edges && e in s.edges
    ensures e in t.edges
  {
    var k :| 0 <= k < |s.edges| && s.edges[k] == e;
    assert t.edges[k] == e;
  }

  lemma StoredForLife(agency: string, calls: seq<Call>, c: Call, more: seq<Call>)
    requires ValidRun(agency, calls + [c] + more) && HandsOut(Run(agency, calls), c)
    ensures exists k: Id, n: Id :: Stored(Run(agency, calls + [c] + more), k, n, c.op.clientId, c.op.secret.phc)
  {
    RunSnoc(agency, calls, c);
    HandedOutIsStored(Run(agency, calls), c);
    var k: Id, n: Id :| Stored(Run(agency, calls + [c]), k, n, c.op.clientId, c.op.secret.phc);
    RunEvolves(agency, calls + [c], more);
    RunKeepsInv(agency, calls + [c] + more);
    StoredStays(Run(agency, calls + [c]), Run(agency, calls + [c] + more), k, n, c.op.clientId, c.op.secret.phc);
  }

  /** A secret linked to the client with this client id verifies the plaintext, and tells the salt and the costs. */
  ghost predicate Honoured(s: Store, clientId: string, plaintext: string, argon: Argon2, salt: Bytes,
                           t: nat, m: nat, p: nat) {
    exists k: Id, n: Id :: SecretOf(s, k, n, clientId) &&
      TellsCosts(PropStr(s.ents[n].props, SecretHash), salt, t, m, p) &&
      VerifyArgon2id(argon, plaintext, PropStr(s.ents[n].props, SecretHash)) == Success(true)
  }

  lemma StoredIsHonoured(s: Store, k: Id, n: Id, clientId: string, plaintext: string, argon: Argon2, salt: Bytes,
                         t: nat, m: nat, p: nat)
    requires HonoursKeyLength(argon) && t < 0x1_0000_0000 && m < 0x1_0000_0000 && p < 256
    requires Stored(s, k, n, clientId, HashArgon2id(argon, plaintext, salt, t, m, p))
    ensures Honoured(s, clientId, plaintext, argon, salt, t, m, p)
  {
    var phc := HashArgon2id(argon, plaintext, salt, t, m, p);
    assert PropStr(s.ents[n].props, SecretHash) == phc;
    HashTellsCosts(argon, plaintext, salt, t, m, p);
    PhcRoundTrip(argon, plaintext, plaintext, salt, t, m, p);
  }

  /** Every plaintext secret a finished creation or rotation hands out verifies, for the rest of the run,
      against a secret stored for and linked to that client - under whatever salt and costs it was hashed. */
  lemma SecretsVerifyForLife(agency: string, calls: seq<Call>, c: Call, more: seq<Call>,
                             argon: Argon2, salt: Bytes, t: nat, m: nat, p: nat)
    requires ValidRun(agency, calls + [c] + more) && HandsOut(Run(agency, calls), c)
    requires HonoursKeyLength(argon) && t < 0x1_0000_0000 && m < 0x1_0000_0000 && p < 256
    requires c.op.secret.phc == HashArgon2id(argon, c.op.secret.plaintext, salt, t, m, p)
    ensures Honoured(Run(agency, calls + [c] + more), c.op.clientId, c.op.secret.plaintext, argon, salt, t, m, p)
  {
    StoredForLife(agency, calls, c, more);
    var s := Run(agency, calls + [c] + more);
    var k: Id, n: Id :| Stored(s, k, n, c.op.clientId, c.op.secret.phc);
    StoredIsHonoured(s, k, n, c.op.clientId, c.op.secret.plaintext, argon, salt, t, m, p);
  }

  /** However a run goes on. */
  ghost predicate HonouredForLife(agency: string, calls: seq<Call>, clientId: string, plaintext: string, argon: Argon2,
                                  salt: Bytes, t: nat, m: nat, p: nat) {
    forall more :: ValidRun(agency, calls + more) ==>
      Honoured(Run(agency, calls + more), clientId, plaintext, argon, salt, t, m, p)
  }

  /** The same, from the call on. */
  lemma HandedOutForLife(agency: string, calls: seq<Call>, c: Call, after: seq<Call>,
                         argon: Argon2, salt: Bytes, t: nat, m: nat, p: nat)
    requires ValidRun(agency, after) && after == calls + [c] && HandsOut(Run(agency, calls), c)
    requires HonoursKeyLength(argon) && t < 0x1_0000_0000 && m < 0x1_0000_0000 && p < 256
    requires c.op.secret.phc == HashArgon2id(argon, c.op.secret.plaintext, salt, t, m, p)
    ensures HonouredForLife(agency, after, c.op.clientId, c.op.secret.plaintext, argon, salt, t, m, p)
    ensures Honoured(Run(agency, after), c.op.clientId, c.op.secret.plaintext, argon, salt, t, m, p)
  {
    forall more | ValidRun(agency, after + more)
      ensures Honoured(Run(agency, after + more), c.op.clientId, c.op.secret.plaintext, argon, salt, t, m, p)
    {
      SecretsVerifyForLife(agency, calls, c, more, argon, salt, t, m, p);
    }
    assert after + [] == after;
  }
}
