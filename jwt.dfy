/** The HS256 token issuer: it builds the claim map of a token (standard claims
    first, then the caller's claims merged over them) and hands it to the
    signing library. Signing is a parameter: the model does not interpret it. */
module Jwt {
  import opened Basics

  const StandardKeys: set<string> := {"iss", "sub", "iat", "exp"}

  /** jwt.SignedString with the HS256 method: secret and claim map to token. */
  type Signer = (string, map<string, Claim>) -> Result<string, Fault>

  /** The four registered claims of a token issued at `now` for `ttl`. */
  function StandardClaims(issuer: string, subject: string, ttl: Duration, now: Time): (m: map<string, Claim>)
    ensures m.Keys == StandardKeys
  {
    map["iss" := Text(issuer), "sub" := Text(subject),
        "iat" := Number(Unix(now)), "exp" := Number(Unix(Add(now, ttl)))]
  }

  /** The claim map Issue signs: the standard claims and every caller claim,
      where a caller claim wins over a standard claim with the same key. */
  function TokenClaims(issuer: string, subject: string, ttl: Duration, claims: map<string, Claim>, now: Time)
    : (r: map<string, Claim>)
    ensures r.Keys == StandardKeys + claims.Keys
    ensures forall k :: k in claims ==> r[k] == claims[k]
    ensures "iss" !in claims ==> r["iss"] == Text(issuer)
    ensures "sub" !in claims ==> r["sub"] == Text(subject)
    ensures "iat" !in claims ==> r["iat"] == Number(Unix(now))
    ensures "exp" !in claims ==> r["exp"] == Number(Unix(Add(now, ttl)))
  {
    StandardClaims(issuer, subject, ttl, now) + claims
  }

  /** For a whole number of seconds, expiry minus issue time is the TTL. */
  lemma ExpiryMinusIssuedAt(now: Time, ttl: Duration)
    requires ttl % NanosPerSecond == 0
    ensures Unix(Add(now, ttl)) - Unix(now) == ttl / NanosPerSecond
  {
    var k := ttl / NanosPerSecond;
    assert Add(now, ttl).nanos == now.nanos + k * NanosPerSecond;
  }

  /** The merge loop run in one given iteration order. */
  function MergeInOrder(base: map<string, Claim>, order: seq<string>, claims: map<string, Claim>)
    : map<string, Claim>
    requires forall i :: 0 <= i < |order| ==> order[i] in claims
    decreases |order|
  {
    if order == [] then base
    else MergeInOrder(base[order[0] := claims[order[0]]], order[1..], claims)
  }

  /** Merging in any order yields the base map overwritten by the claims that
      the order visits. */
  lemma {:induction false} MergeInOrderIsUnion(base: map<string, Claim>, order: seq<string>, claims: map<string, Claim>)
    requires forall i :: 0 <= i < |order| ==> order[i] in claims
    ensures MergeInOrder(base, order, claims) == base + map k | k in order :: claims[k]
    decreases |order|
  {
    if order != [] {
      var k0, rest := order[0], order[1..];
      MergeInOrderIsUnion(base[k0 := claims[k0]], rest, claims);
      var visited := map k | k in order :: claims[k];
      var visitedRest := map k | k in rest :: claims[k];
      assert base[k0 := claims[k0]] + visitedRest == base + visited by {
        assert forall k :: k in order <==> k == k0 || k in rest;
      }
    }
  }

  /** One more turn of the merge loop sets one more caller claim. */
  lemma {:induction false} MergeInOrderSnoc(
    base: map<string, Claim>, order: seq<string>, k: string, claims: map<string, Claim>)
    requires forall i :: 0 <= i < |order| ==> order[i] in claims
    requires k in claims
    ensures MergeInOrder(base, order + [k], claims) == MergeInOrder(base, order, claims)[k := claims[k]]
    decreases |order|
  {
    if order == [] {
      assert order + [k] == [k] && [k][1..] == [];
    } else {
      assert (order + [k])[1..] == order[1..] + [k];
      MergeInOrderSnoc(base[order[0] := claims[order[0]]], order[1..], k, claims);
    }
  }

  /** Go visits the keys of a map in an unspecified order: every order that
      visits each caller claim gives the same claim map. */
  lemma MergeOrderIndependent(
    issuer: string, subject: string, ttl: Duration, claims: map<string, Claim>, now: Time, order: seq<string>)
    requires forall i :: 0 <= i < |order| ==> order[i] in claims
    requires forall k :: k in claims ==> k in order
    ensures MergeInOrder(StandardClaims(issuer, subject, ttl, now), order, claims)
         == TokenClaims(issuer, subject, ttl, claims, now)
  {
    var base := StandardClaims(issuer, subject, ttl, now);
    MergeInOrderIsUnion(base, order, claims);
    assert (map k | k in order :: claims[k]) == claims;
  }

  /** HS256Issuer */
  class HS256Issuer {
    const secret: string
    const issuer: string

    /** NewHS256Issuer */
    constructor (secret: string, issuer: string)
      ensures this.secret == secret && this.issuer == issuer
    {
      this.secret := secret;
      this.issuer := issuer;
    }

    /** Issue: the token is the signature of the merged claim map. The keys of
        `claims` are visited in an arbitrary order, as Go's range does; the
        ghost `visited` records the order taken, and the map built so far is
        MergeInOrder over it. */
    method Issue(subject: string, ttl: Duration, claims: map<string, Claim>, now: Time, sign: Signer)
      returns (token: Result<string, Fault>)
      ensures token == sign(secret, TokenClaims(issuer, subject, ttl, claims, now))
    {
      var tokenClaims := map["iss" := Text(issuer), "sub" := Text(subject),
                             "iat" := Number(Unix(now)), "exp" := Number(Unix(Add(now, ttl)))];
      var pending := claims.Keys;
      ghost var visited: seq<string> := [];
      while pending != {}
        invariant pending <= claims.Keys
        invariant forall i :: 0 <= i < |visited| ==> visited[i] in claims
        invariant forall k :: k in claims ==> (k in visited <==> k !in pending)
        invariant tokenClaims == MergeInOrder(StandardClaims(issuer, subject, ttl, now), visited, claims)
        decreases pending
      {
        var k :| k in pending;
        MergeInOrderSnoc(StandardClaims(issuer, subject, ttl, now), visited, k, claims);
        tokenClaims := tokenClaims[k := claims[k]];
        pending := pending - {k};
        visited := visited + [k];
      }
      MergeOrderIndependent(issuer, subject, ttl, claims, now, visited);
      token := sign(secret, tokenClaims);
    }
  }
}
