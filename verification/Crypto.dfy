/** crypto.go: token generation, SHA-256 text hashes, PKCE S256 and Argon2id PHC strings.
    SHA-256 and Argon2id are unknown functions handed in by the caller. */
module Crypto {
  import opened Wrappers
  import opened Encodings

  type Digest = b: Bytes | |b| == 32 witness seq(32, _ => 0)

  type Sha256 = string -> Digest

  type uint32 = n: nat | n < 0x1_0000_0000

  type uint8 = n: nat | n < 256

  /** argon2.IDKey: password, salt, time, memory, threads, key length. */
  type Argon2 = (string, Bytes, nat, nat, nat, nat) -> Bytes

  /** The one fact used about Argon2id: it returns as many bytes as it is asked for. */
  ghost predicate HonoursKeyLength(argon: Argon2) {
    forall pw, salt, t, m, p, n :: |argon(pw, salt, t, m, p, n)| == n
  }

  // ---------------------------------------------------------------- tokens

  function HashSHA256(sha: Sha256, s: string): string {
    Encode64(true, sha(s))
  }

  /** The plaintext and its hash. `random` is what the random source delivered. */
  function GenerateToken(sha: Sha256, prefix: string, random: Digest): (string, string) {
    var plaintext := prefix + Encode64(true, random);
    (plaintext, HashSHA256(sha, plaintext))
  }

  function VerifyPKCE(sha: Sha256, verifier: string, challenge: string): bool {
    Encode64(true, sha(verifier)) == challenge
  }

  /** A token is 49 characters: its prefix, then base64url text for the random bytes. Distinct (prefix, random) pairs
      give distinct tokens, and the stored hash decodes to the digest of the token handed out. */
  lemma TokensAreDistinct(sha: Sha256, p: string, q: string, a: Digest, b: Digest)
    requires p in {"cv_ac_", "cv_at_", "cv_rt_", "cv_iv_"} && q in {"cv_ac_", "cv_at_", "cv_rt_", "cv_iv_"}
    ensures var token := GenerateToken(sha, p, a).0;
      |token| == 49 && p <= token && Alphabet(true, token[6..]) && Decode64(true, token[6..]) == Some(a)
    ensures GenerateToken(sha, p, a).0 == GenerateToken(sha, q, b).0 <==> p == q && a == b
    ensures Decode64(true, GenerateToken(sha, p, a).1) == Some(sha(GenerateToken(sha, p, a).0))
  {
    var s, t := GenerateToken(sha, p, a).0, GenerateToken(sha, q, b).0;
    assert |p| == 6 && |q| == 6;
    RoundTrip64(true, a);
    RoundTrip64(true, b);
    RoundTrip64(true, sha(s));
    assert s[..6] == p && s[6..] == Encode64(true, a);
    assert t[..6] == q && t[6..] == Encode64(true, b);
  }

  /** Section 4.6 of RFC 7636, read from the challenge's side: a challenge is accepted exactly when
      it is canonical base64url text for the verifier's digest. */
  lemma PKCEAcceptsExactly(sha: Sha256, verifier: string, challenge: string)
    ensures VerifyPKCE(sha, verifier, challenge) <==>
            Canonical64(true, challenge) && Decode64(true, challenge) == Some(sha(verifier))
  {
    EncodedExactly(true, challenge, sha(verifier));
  }

  // ---------------------------------------------------------------- PHC strings

  datatype PhcError = InvalidFormat | InvalidParams | InvalidSalt | InvalidHash

  function PhcParams(m: nat, t: nat, p: nat): string {
    "m=" + Decimal(m) + ",t=" + Decimal(t) + ",p=" + Decimal(p)
  }

  function PhcText(m: nat, t: nat, p: nat, salt: Bytes, hash: Bytes): string {
    "$argon2id$v=19$" + PhcParams(m, t, p) + "$" + Encode64(false, salt) + "$" + Encode64(false, hash)
  }

  function HashArgon2id(argon: Argon2, password: string, salt: Bytes, t: nat, m: nat, p: nat): string {
    PhcText(m, t, p, salt, argon(password, salt, t, m, p, 32))
  }

  /** The rest of the text after a literal the format demands. */
  function Expect(s: string, literal: string): Option<string> {
    if literal <= s then Some(s[|literal|..]) else None
  }

  /** Scanning "m=%d,t=%d,p=%d": text left over after the last number is not an error. */
  function ScanParams(s: string): Option<(nat, nat, nat)> {
    match Expect(s, "m=") case None => None case Some(s1) =>
    match ScanUint32(s1) case None => None case Some((m, s2)) =>
    match Expect(s2, ",t=") case None => None case Some(s3) =>
    match ScanUint32(s3) case None => None case Some((t, s4)) =>
    match Expect(s4, ",p=") case None => None case Some(s5) =>
    match ScanUint32(s5) case None => None case Some((p, _)) =>
    Some((m, t, p))
  }

  /** The thread count is read as 32 bits and cut to 8. */
  function VerifyArgon2id(argon: Argon2, password: string, phc: string): Result<bool, PhcError> {
    var parts := Split(phc, '$');
    if |parts| != 6 || parts[1] != "argon2id" then Failure(InvalidFormat) else
    match ScanParams(parts[3])
    case None => Failure(InvalidParams)
    case Some((m, t, p)) =>
      var salt := Decode64(false, parts[4]);
      if salt.None? then Failure(InvalidSalt) else
      var expected := Decode64(false, parts[5]);
      if expected.None? then Failure(InvalidHash) else
      Success(argon(password, salt.value, t, m, p % 256, |expected.value|) == expected.value)
  }

  /** The PHC string tells the salt, and each cost under its own letter. */
  predicate TellsCosts(phc: string, salt: Bytes, t: nat, m: nat, p: nat) {
    var parts := Split(phc, '$');
    |parts| == 6 && parts[3] == "m=" + Decimal(m) + ",t=" + Decimal(t) + ",p=" + Decimal(p) &&
    Decode64(false, parts[4]) == Some(salt)
  }

  lemma ExpectLiteral(s: string, literal: string, rest: string)
    ensures Expect(s, literal) == Some(rest) <==> s == literal + rest
  {
    assert literal <= s ==> s == literal + s[|literal|..];
  }

  lemma PrintedParams(m: nat, t: nat, p: nat, rest: string, s1: string, s3: string, s5: string)
    requires s5 == Decimal(p) + rest && s3 == Decimal(t) + (",p=" + s5) && s1 == Decimal(m) + (",t=" + s3)
    ensures PhcParams(m, t, p) + rest == "m=" + s1
  {
  }

  lemma ScanByScan(s: string, s1: string, m: nat, s2: string, s3: string, t: nat, s4: string, s5: string, p: nat,
                   rest: string)
    requires Expect(s, "m=") == Some(s1) && ScanUint32(s1) == Some((m, s2))
    requires Expect(s2, ",t=") == Some(s3) && ScanUint32(s3) == Some((t, s4))
    requires Expect(s4, ",p=") == Some(s5) && ScanUint32(s5) == Some((p, rest))
    ensures ScanParams(s) == Some((m, t, p))
  {
  }

  /** Scanning printed costs gives them back, whatever follows them, if it does not begin with a digit. */
  lemma ScanPrintedParams(m: nat, t: nat, p: nat, rest: string)
    requires m < 0x1_0000_0000 && t < 0x1_0000_0000 && p < 0x1_0000_0000 && (|rest| > 0 ==> !IsDigit(rest[0]))
    ensures ScanParams(PhcParams(m, t, p) + rest) == Some((m, t, p))
  {
    var s5 := Decimal(p) + rest;
    var s3 := Decimal(t) + (",p=" + s5);
    var s1 := Decimal(m) + (",t=" + s3);
    ExpectLiteral("m=" + s1, "m=", s1);
    ExpectLiteral(",t=" + s3, ",t=", s3);
    ExpectLiteral(",p=" + s5, ",p=", s5);
    ScanDecimal(m, ",t=" + s3);
    ScanDecimal(t, ",p=" + s5);
    ScanDecimal(p, rest);
    PrintedParams(m, t, p, rest, s1, s3, s5);
    ScanByScan("m=" + s1, s1, m, ",t=" + s3, s3, t, ",p=" + s5, s5, p, rest);
  }

  lemma ParamsHaveNoDollar(m: nat, t: nat, p: nat)
    ensures '$' !in PhcParams(m, t, p)
  {
    assert '$' !in "m=" && '$' !in ",t=" && '$' !in ",p=";
    assert '$' !in Decimal(m) && '$' !in Decimal(t) && '$' !in Decimal(p);
  }

  lemma JoinCons(a: string, parts: seq<string>)
    requires |parts| >= 1
    ensures Join([a] + parts, '$') == a + "$" + Join(parts, '$')
  {
    assert ([a] + parts)[1..] == parts;
  }

  lemma JoinSix(a: string, b: string, c: string, d: string, e: string, f: string)
    ensures Join([a, b, c, d, e, f], '$') == a + "$" + (b + "$" + (c + "$" + (d + "$" + (e + "$" + f))))
  {
    JoinCons(e, [f]);
    JoinCons(d, [e] + [f]);
    JoinCons(c, [d] + ([e] + [f]));
    JoinCons(b, [c] + ([d] + ([e] + [f])));
    JoinCons(a, [b] + ([c] + ([d] + ([e] + [f]))));
    assert [a, b, c, d, e, f] == [a] + ([b] + ([c] + ([d] + ([e] + [f]))));
  }

  /** The printed string splits into exactly six parts. */
  lemma PhcTextParts(m: nat, t: nat, p: nat, salt: Bytes, hash: Bytes)
    ensures Split(PhcText(m, t, p, salt, hash), '$') ==
            ["", "argon2id", "v=19", PhcParams(m, t, p), Encode64(false, salt), Encode64(false, hash)]
  {
    var d, e, f := PhcParams(m, t, p), Encode64(false, salt), Encode64(false, hash);
    PrintedSix(m, t, p, salt, hash, d, e, f);
    SixPartsSplit(PhcText(m, t, p, salt, hash), "", "v=19", d, e, f);
  }

  lemma PrintedIsJoined(d: string, e: string, f: string)
    ensures "$argon2id$v=19$" + d + "$" + e + "$" + f
            == "" + "$" + ("argon2id" + "$" + ("v=19" + "$" + (d + "$" + (e + "$" + f))))
  {
    assert "$argon2id$v=19$" == "" + "$" + ("argon2id" + "$" + ("v=19" + "$"));
    var rest := d + "$" + (e + "$" + f);
    assert "$argon2id$v=19$" + d + "$" + e + "$" + f == "$argon2id$v=19$" + rest;
  }

  /** The text is six dollar-free parts, and the second is `argon2id`. */
  predicate SixParts(phc: string, a: string, v: string, d: string, e: string, f: string) {
    '$' !in a && '$' !in v && '$' !in d && '$' !in e && '$' !in f &&
    phc == a + "$" + ("argon2id" + "$" + (v + "$" + (d + "$" + (e + "$" + f))))
  }

  /** What checking a text of six parts comes to: the first part that cannot be read is reported, and otherwise the
      key under the salt and costs read is compared with the one stored. */
  lemma SixPartsVerify(argon: Argon2, password: string, phc: string, a: string, v: string, d: string, e: string,
                       f: string)
    requires SixParts(phc, a, v, d, e, f)
    ensures var costs, salt, hash := ScanParams(d), Decode64(false, e), Decode64(false, f);
      VerifyArgon2id(argon, password, phc) ==
        if costs.None? then Failure(InvalidParams)
        else if salt.None? then Failure(InvalidSalt)
        else if hash.None? then Failure(InvalidHash)
        else Success(argon(password, salt.value, costs.value.1, costs.value.0, costs.value.2 % 256, |hash.value|)
                     == hash.value)
  {
    SixPartsSplit(phc, a, v, d, e, f);
  }

  lemma SixPartsSplit(phc: string, a: string, v: string, d: string, e: string, f: string)
    requires SixParts(phc, a, v, d, e, f)
    ensures Split(phc, '$') == [a, "argon2id", v, d, e, f]
  {
    JoinSix(a, "argon2id", v, d, e, f);
    assert '$' !in "argon2id";
    SplitJoin([a, "argon2id", v, d, e, f], '$');
  }

  /** Every other text, and no other, is reported as of the wrong format. */
  lemma InvalidFormatExactly(argon: Argon2, password: string, phc: string)
    ensures VerifyArgon2id(argon, password, phc) == Failure(InvalidFormat) <==>
            !exists a, v, d, e, f :: SixParts(phc, a, v, d, e, f)
  {
    var parts := Split(phc, '$');
    if |parts| == 6 && parts[1] == "argon2id" {
      PartsAreSix(phc, parts);
    }
    forall a, v, d, e, f | SixParts(phc, a, v, d, e, f)
      ensures VerifyArgon2id(argon, password, phc) != Failure(InvalidFormat)
    {
      SixPartsVerify(argon, password, phc, a, v, d, e, f);
    }
  }

  lemma PartsAreSix(phc: string, parts: seq<string>)
    requires parts == Split(phc, '$') && |parts| == 6 && parts[1] == "argon2id"
    ensures SixParts(phc, parts[0], parts[2], parts[3], parts[4], parts[5])
  {
    JoinSplit(phc, '$');
    JoinSix(parts[0], parts[1], parts[2], parts[3], parts[4], parts[5]);
    assert parts == [parts[0], parts[1], parts[2], parts[3], parts[4], parts[5]];
  }

  /** Checking any password against a printed string compares its key with the stored one, under the
      salt and costs that were printed; a thread count beyond 8 bits is compared modulo 256. */
  lemma VerifyPrinted(argon: Argon2, password: string, m: nat, t: nat, p: nat, salt: Bytes, hash: Bytes)
    requires m < 0x1_0000_0000 && t < 0x1_0000_0000 && p < 0x1_0000_0000
    ensures VerifyArgon2id(argon, password, PhcText(m, t, p, salt, hash))
            == Success(argon(password, salt, t, m, p % 256, |hash|) == hash)
  {
    var d, e, f := PhcParams(m, t, p), Encode64(false, salt), Encode64(false, hash);
    assert ScanParams(d) == Some((m, t, p)) by {
      ScanPrintedParams(m, t, p, "");
      assert d + "" == d;
    }
    assert Decode64(false, e) == Some(salt) && Decode64(false, f) == Some(hash) by {
      RoundTrip64(false, salt);
      RoundTrip64(false, hash);
    }
    assert SixParts(PhcText(m, t, p, salt, hash), "", "v=19", d, e, f) by {
      PrintedSix(m, t, p, salt, hash, d, e, f);
    }
    SixPartsVerify(argon, password, PhcText(m, t, p, salt, hash), "", "v=19", d, e, f);
  }

  lemma PrintedSix(m: nat, t: nat, p: nat, salt: Bytes, hash: Bytes, d: string, e: string, f: string)
    requires d == PhcParams(m, t, p) && e == Encode64(false, salt) && f == Encode64(false, hash)
    ensures SixParts(PhcText(m, t, p, salt, hash), "", "v=19", d, e, f)
  {
    ParamsHaveNoDollar(m, t, p);
    RoundTrip64(false, salt);
    RoundTrip64(false, hash);
    PrintedIsJoined(d, e, f);
    assert '$' !in "v=19";
  }

  lemma HashTellsCosts(argon: Argon2, password: string, salt: Bytes, t: nat, m: nat, p: nat)
    ensures TellsCosts(HashArgon2id(argon, password, salt, t, m, p), salt, t, m, p)
  {
    PhcTextParts(m, t, p, salt, argon(password, salt, t, m, p, 32));
    RoundTrip64(false, salt);
  }

  /** The PHC round trip: a password verifies against its own string for every salt and all costs in
      range, and another password verifies exactly when Argon2id maps both to one key. */
  lemma PhcRoundTrip(argon: Argon2, password: string, other: string, salt: Bytes, t: nat, m: nat, p: nat)
    requires HonoursKeyLength(argon)
    requires t < 0x1_0000_0000 && m < 0x1_0000_0000 && p < 256
    ensures VerifyArgon2id(argon, password, HashArgon2id(argon, password, salt, t, m, p)) == Success(true)
    ensures VerifyArgon2id(argon, other, HashArgon2id(argon, password, salt, t, m, p))
            == Success(argon(other, salt, t, m, p, 32) == argon(password, salt, t, m, p, 32))
  {
    var hash := argon(password, salt, t, m, p, 32);
    assert |hash| == 32 && p % 256 == p;
    VerifyPrinted(argon, password, m, t, p, salt, hash);
    VerifyPrinted(argon, other, m, t, p, salt, hash);
  }
}
