/**
 * The bearer-token gate (`verifyToken`) and the key-set cache it uses
 * (`fetchJWKS`). Decoding, PEM conversion and signature verification belong to
 * the JWT libraries and appear as oracles; the HTTP download of the key set
 * appears as the value it would settle to.
 */
module Auth {
  import opened Wrappers
  import opened Http
  import Js

  /** The decoded token payload; its contents are the identity provider's. */
  type Claims = map<string, string>

  /** A JSON Web Key; only `kid` is inspected here, the rest goes to PEM conversion. */
  datatype Jwk = Jwk(kid: Option<string>, members: map<string, string>)

  /** The `header` of `jwt.decode(token, { complete: true })`. */
  datatype TokenHeader = TokenHeader(kid: Option<string>)

  /**
   * The settled key-set promise: the `keys` member of the downloaded document
   * (`None` when the document has none), or a rejected download.
   */
  datatype KeySet = Fetched(keys: Option<seq<Jwk>>) | FetchFailed

  /**
   * The JWT libraries: `jwt.decode` (`None` for a token it cannot decode),
   * `jwkToPem` (`None` when it throws) and `jwt.verify` with the algorithm list
   * it is given (`None` when it reports an error).
   */
  datatype Crypto = Crypto(
    decode: string -> Option<TokenHeader>,
    toPem: Jwk -> Option<string>,
    verify: (string, string, seq<string>) -> Option<Claims>)

  /** What the gate does with a request: answer it, or pass the claims on to `next`. */
  datatype Outcome = Respond(status: int, error: string) | Next(user: Claims)

  /** The only signature algorithm `jwt.verify` is allowed to accept. */
  const AllowedAlgorithms: seq<string> := ["RS256"]

  const BearerPrefix: string := "Bearer "

  /** `req.header("Authorization")?.replace("Bearer ", "")`. */
  function ExtractToken(header: Option<string>): (token: Option<string>)
    ensures header.None? <==> token.None?
    ensures header.Some? ==> token == Some(Js.RemoveFirst(header.value, BearerPrefix))
  {
    match header
    case None => None
    case Some(h) => Some(Js.RemoveFirst(h, BearerPrefix))
  }

  /** A well-formed header `Bearer <t>` yields exactly `t`. */
  lemma ExtractBearer(t: string)
    ensures ExtractToken(Some(BearerPrefix + t)) == Some(t)
  {
    var h := BearerPrefix + t;
    assert h[0..|BearerPrefix|] == BearerPrefix;
    assert Js.IndexOf(h, BearerPrefix, 0) == Some(0);
    assert h[|BearerPrefix|..] == t;
  }

  /** The prefix "Bearer " is removed wherever it first occurs, not only at the start. */
  lemma ExtractRemovesInnerPrefix()
    ensures ExtractToken(Some("xBearer y")) == Some("xy")
  {
    var h := "xBearer y";
    assert h[0..|BearerPrefix|][0] != BearerPrefix[0];
    assert !Js.OccursAt(h, BearerPrefix, 0);
    assert h[1..1 + |BearerPrefix|] == BearerPrefix;
    assert Js.IndexOf(h, BearerPrefix, 0) == Some(1);
    var r := Js.RemoveFirst(h, BearerPrefix);
    assert r[..1] == h[..1] && r[1..] == h[1 + |BearerPrefix|..];
    assert h[..1] == "x" && h[1 + |BearerPrefix|..] == "y";
    assert r[0] == 'x' && r[1] == 'y' && |r| == 2;
    assert r == "xy";
  }

  /** `jwks.find((key) => key.kid === kid)`, as a position. */
  function FindKey(keys: seq<Jwk>, kid: string): (r: Option<nat>)
    ensures r.None? <==> forall i :: 0 <= i < |keys| ==> keys[i].kid != Some(kid)
    ensures r.Some? ==> r.value < |keys| && keys[r.value].kid == Some(kid)
    ensures r.Some? ==> forall i :: 0 <= i < r.value ==> keys[i].kid != Some(kid)
  {
    Js.FindIndex(keys, (k: Jwk) => k.kid == Some(kid))
  }

  /** The `kid` of the token header, or `None` when the token does not decode. */
  function KidOf(token: string, crypto: Crypto): Option<string> {
    match crypto.decode(token)
    case None => None
    case Some(h) => h.kid
  }

  /**
   * Key `i` is the first key with the token's `kid`, and its PEM verifies the
   * token under RS256 to `claims`.
   */
  ghost predicate KeyVerifies(keys: seq<Jwk>, kid: string, token: string, crypto: Crypto, i: int, claims: Claims) {
    && 0 <= i < |keys| && keys[i].kid == Some(kid)
    && (forall j :: 0 <= j < i ==> keys[j].kid != Some(kid))
    && crypto.toPem(keys[i]).Some?
    && crypto.verify(token, crypto.toPem(keys[i]).value, AllowedAlgorithms) == Some(claims)
  }

  /**
   * The gate lets a token through with `claims` exactly when the key set was
   * downloaded, the token names a `kid`, and the first key with that `kid`
   * verifies the token to `claims`.
   */
  ghost predicate Accepts(keySet: KeySet, token: string, crypto: Crypto, claims: Claims) {
    && keySet.Fetched? && keySet.keys.Some?
    && Js.StrTruthy(KidOf(token, crypto))
    && exists i :: KeyVerifies(keySet.keys.value, KidOf(token, crypto).value, token, crypto, i, claims)
  }

  /**
   * From the `find` on: an unknown `kid` is "Invalid token signature.", a key
   * `jwkToPem` refuses lands in the catch-all, and a failed verification is
   * "Invalid token.".
   */
  function CheckSignature(keys: seq<Jwk>, kid: string, token: string, crypto: Crypto): (r: Outcome)
    ensures r.Respond? ==> r.status == Unauthorized
    ensures forall c :: r == Next(c) <==> exists i :: KeyVerifies(keys, kid, token, crypto, i, c)
    ensures FindKey(keys, kid).None? ==> r == Respond(Unauthorized, "Invalid token signature.")
  {
    match FindKey(keys, kid)
    case None => Respond(Unauthorized, "Invalid token signature.")
    case Some(i) =>
      FirstKeyUnique(keys, kid, i);
      match crypto.toPem(keys[i])
      case None => Respond(Unauthorized, "Failed to verify token.")
      case Some(pem) =>
        match crypto.verify(token, pem, AllowedAlgorithms)
        case None => Respond(Unauthorized, "Invalid token.")
        case Some(claims) =>
          assert KeyVerifies(keys, kid, token, crypto, i, claims);
          Next(claims)
  }

  /** Only the first key with a `kid` can be the one that verifies. */
  lemma FirstKeyUnique(keys: seq<Jwk>, kid: string, i: nat)
    requires i < |keys| && keys[i].kid == Some(kid)
    requires forall j :: 0 <= j < i ==> keys[j].kid != Some(kid)
    ensures forall token, crypto, j, c :: KeyVerifies(keys, kid, token, crypto, j, c) ==> j == i
  {
    forall token, crypto, j, c | KeyVerifies(keys, kid, token, crypto, j, c) ensures j == i {
      assert !(j < i) && !(i < j);
    }
  }

  /**
   * The body of the `try` in `verifyToken`, once the key set has settled: each
   * failure is a 401 with its own message, and anything that throws (a rejected
   * download, a document without a key array, a key `jwkToPem` refuses) is the
   * catch-all 401.
   */
  function Decide(keySet: KeySet, token: string, crypto: Crypto): (r: Outcome)
    ensures r.Respond? ==> r.status == Unauthorized
    ensures forall c :: r == Next(c) <==> Accepts(keySet, token, crypto, c)
    ensures keySet.FetchFailed? ==> r == Respond(Unauthorized, "Failed to verify token.")
    ensures keySet.Fetched? && !Js.StrTruthy(KidOf(token, crypto)) ==>
              r == Respond(Unauthorized, "Invalid token.")
    ensures keySet.Fetched? && keySet.keys.Some? && Js.StrTruthy(KidOf(token, crypto))
            && FindKey(keySet.keys.value, KidOf(token, crypto).value).None? ==>
              r == Respond(Unauthorized, "Invalid token signature.")
  {
    match keySet
    case FetchFailed => Respond(Unauthorized, "Failed to verify token.")
    case Fetched(keys) =>
      var kid := KidOf(token, crypto);
      if !Js.StrTruthy(kid) then Respond(Unauthorized, "Invalid token.")
      else if keys.None? then Respond(Unauthorized, "Failed to verify token.")
      else CheckSignature(keys.value, kid.value, token, crypto)
  }

  /** A response the gate sent: status and `error` message. */
  datatype Sent = Sent(status: int, error: string)

  /** One request as the middleware sees it: `req.user`, what was sent on `res`, and calls of `next`. */
  class Exchange {
    var user: Option<Claims>
    var sent: seq<Sent>
    var nextCalls: nat

    constructor ()
      ensures user == None && sent == [] && nextCalls == 0
    {
      user := None;
      sent := [];
      nextCalls := 0;
    }
  }

  /** The module state of the middleware: the cached key-set promise. */
  class Gate {
    /** `jwksPromise`: `None` (null) until the first download is started. */
    var jwksPromise: Option<KeySet>
    /** How many downloads of the key set were started. */
    var fetches: nat

    ghost predicate Valid()
      reads this
    {
      fetches <= 1 && (jwksPromise.None? <==> fetches == 0)
    }

    constructor ()
      ensures Valid() && jwksPromise == None && fetches == 0
    {
      jwksPromise := None;
      fetches := 0;
    }

    /**
     * `fetchJWKS`: the first call starts the download and caches its promise;
     * every later call returns the cached promise, rejected or not, without
     * downloading again. `download` is what the download would settle to.
     */
    method FetchJwks(download: KeySet) returns (p: KeySet)
      requires Valid()
      modifies this
      ensures Valid() && fetches == 1
      ensures old(jwksPromise).Some? ==> p == old(jwksPromise).value && jwksPromise == old(jwksPromise)
      ensures old(jwksPromise).None? ==> p == download && jwksPromise == Some(download)
    {
      if jwksPromise.None? {
        jwksPromise := Some(download);
        fetches := fetches + 1;
      }
      p := jwksPromise.value;
    }

    /**
     * `verifyToken`: with no token it answers 401 and touches nothing else;
     * otherwise it obtains the key set through the cache and either answers
     * with the 401 that `Decide` picks, leaving `req.user` unset, or sets
     * `req.user` to the verified claims and calls `next` exactly once.
     */
    method VerifyToken(ex: Exchange, header: Option<string>, download: KeySet, crypto: Crypto)
      requires Valid()
      modifies this, ex
      ensures Valid()
      ensures !Js.StrTruthy(ExtractToken(header)) ==>
                && jwksPromise == old(jwksPromise) && fetches == old(fetches)
                && ex.sent == old(ex.sent) + [Sent(Unauthorized, "Access denied. No token provided.")]
                && ex.user == old(ex.user) && ex.nextCalls == old(ex.nextCalls)
      ensures Js.StrTruthy(ExtractToken(header)) ==>
                var keySet := if old(jwksPromise).Some? then old(jwksPromise).value else download;
                && jwksPromise == Some(keySet) && fetches == 1
                && match Decide(keySet, ExtractToken(header).value, crypto)
                   case Next(claims) =>
                     ex.user == Some(claims) && ex.nextCalls == old(ex.nextCalls) + 1 && ex.sent == old(ex.sent)
                   case Respond(status, error) =>
                     ex.sent == old(ex.sent) + [Sent(status, error)]
                     && ex.user == old(ex.user) && ex.nextCalls == old(ex.nextCalls)
    {
      var token := ExtractToken(header);
      if !Js.StrTruthy(token) {
        ex.sent := ex.sent + [Sent(Unauthorized, "Access denied. No token provided.")];
        return;
      }
      var keySet := FetchJwks(download);
      match Decide(keySet, token.value, crypto)
      case Next(claims) =>
        ex.user := Some(claims);
        ex.nextCalls := ex.nextCalls + 1;
      case Respond(status, error) =>
        ex.sent := ex.sent + [Sent(status, error)];
    }
  }

  /**
   * Once the download has failed, the rejected promise stays cached: every
   * later request carrying a token is answered 401 "Failed to verify token.",
   * and no new download is started, whatever it would have returned.
   */
  method AfterFailedFetch(gate: Gate, ex: Exchange, header: Option<string>, download: KeySet, crypto: Crypto)
    requires gate.Valid() && gate.jwksPromise == Some(FetchFailed)
    requires Js.StrTruthy(ExtractToken(header))
    modifies gate, ex
    ensures gate.jwksPromise == Some(FetchFailed) && gate.fetches == 1
    ensures ex.sent == old(ex.sent) + [Sent(Unauthorized, "Failed to verify token.")]
    ensures ex.user == old(ex.user) && ex.nextCalls == old(ex.nextCalls)
  {
    gate.VerifyToken(ex, header, download, crypto);
  }
}
