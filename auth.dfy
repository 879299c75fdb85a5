/**
 * The bearer-token authorization gate of the coffee-shop backend: header
 * extraction, key selection from the identity provider's key set, the
 * mapping of decode failures to errors, the permission check, and the
 * decorator that composes them around a protected operation.
 *
 * The key-set download, the parsing of the token's unverified header and
 * the signature/audience/issuer/expiry checks are foreign code; they enter
 * the model through a Context value.
 */
module Auth {
  import opened Outcomes
  import opened PyValues
  import Text

  /** Decoded token claims. */
  type Payload = map<string, Json>

  /** The token's unverified JOSE header (kid, alg, typ, ...). */
  type TokenHeader = map<string, string>

  /** How a step of the gate fails. */
  datatype Failure =
    | AuthError(code: string, description: string, status: int)  // the module's AuthError exception
    | Abort(status: int)                                         // flask.abort(status)
    | Uncaught(exception: string)                                // any other exception escaping

  const HeaderMissing := AuthError("authorization_header_missing", "Authorization header is expected.", 401)
  const NotBearerScheme := AuthError("invalid_header", "Authorization header must start with \"Bearer\".", 401)
  const TokenNotFound := AuthError("invalid_header", "Token not found.", 401)
  const NotBearerToken := AuthError("invalid_header", "Authorization header must be bearer token.", 401)
  const KidMissing := AuthError("invalid_header", "Authorization malformed.", 401)
  const TokenExpired := AuthError("token_expired", "Token expired.", 401)
  const InvalidClaims := AuthError("invalid_claims", "Incorrect claims. Please, check the audience and issuer.", 401)
  const Unparseable := AuthError("invalid_header", "Unable to parse authentication token.", 400)
  const NoMatchingKey := AuthError("invalid_header", "Unable to find the appropriate key.", 400)

  // ---------------------------------------------------------------------
  // Header extraction
  // ---------------------------------------------------------------------

  /**
   * get_token_auth_header: the token of an `Authorization: Bearer <token>`
   * header. The header is split on single spaces; the scheme is compared
   * case-insensitively before the number of pieces is looked at.
   */
  function GetTokenAuthHeader(authorization: Option<string>): (r: Result<string, Failure>)
    ensures r == Failure(HeaderMissing) <==> authorization == None || authorization == Some("")
    ensures r.Failure? ==> r.error.AuthError? && r.error.status == 401
    ensures r.Success? ==> ' ' !in r.value
  {
    if authorization == None || authorization == Some("") then Failure(HeaderMissing)
    else
      var parts := Text.Split(authorization.value, ' ');
      Text.SplitPiecesFree(authorization.value, ' ');
      if Text.Lower(parts[0]) != "bearer" then Failure(NotBearerScheme)
      else if |parts| == 1 then Failure(TokenNotFound)
      else if |parts| > 2 then Failure(NotBearerToken)
      else Success(parts[1])
  }

  /**
   * The outcome for a non-empty header, stated without splitting: by the
   * scheme word (the text before the first space) and the number of spaces.
   */
  lemma HeaderOutcome(h: string)
    requires h != ""
    ensures var w := Text.FirstWord(h, ' ');
            var spaces := Text.Occurrences(h, ' ');
            var r := GetTokenAuthHeader(Some(h));
            && (Text.Lower(w) != "bearer" ==> r == Failure(NotBearerScheme))
            && (Text.Lower(w) == "bearer" && spaces == 0 ==> r == Failure(TokenNotFound))
            && (Text.Lower(w) == "bearer" && spaces >= 2 ==> r == Failure(NotBearerToken))
            && (Text.Lower(w) == "bearer" && spaces == 1 ==> |w| < |h| && r == Success(h[|w| + 1..]))
  {
    var parts := Text.Split(h, ' ');
    Text.SplitHead(h, ' ');
    Text.SplitCount(h, ' ');
    if |parts| == 2 {
      Text.SplitJoin(h, ' ');
      assert h == parts[0] + [' '] + parts[1];
      assert h[|parts[0]| + 1..] == parts[1];
    }
  }

  /** Every `<scheme> <token>` header whose scheme lower-cases to "bearer" yields its token verbatim. */
  lemma BearerHeaderAccepted(scheme: string, token: string)
    requires Text.Lower(scheme) == "bearer"
    requires ' ' !in token
    ensures GetTokenAuthHeader(Some(scheme + " " + token)) == Success(token)
  {
    Text.LowerKeepsSpace(scheme);
    Text.SplitAfterWord(scheme, ' ', token);
    Text.SplitWithoutSep(token, ' ');
    assert scheme + " " + token == scheme + [' '] + token;
  }

  /** A header whose scheme is not "bearer" fails on the scheme, whatever follows it. */
  lemma BasicSchemeRejected()
    ensures GetTokenAuthHeader(Some("Basic abc123")) == Failure(NotBearerScheme)
  {
    Text.SplitAfterWord("Basic", ' ', "abc123");
    assert "Basic" + [' '] + "abc123" == "Basic abc123";
    assert Text.Lower("Basic")[1] == 'a';
  }

  /** The scheme is checked before the number of pieces: a bare non-bearer scheme fails on the scheme. */
  lemma BareBasicRejected()
    ensures GetTokenAuthHeader(Some("Basic")) == Failure(NotBearerScheme)
  {
    Text.SplitWithoutSep("Basic", ' ');
    assert Text.Lower("Basic")[1] == 'a';
  }

  /** A bare scheme has no token. */
  lemma BareBearerRejected()
    ensures GetTokenAuthHeader(Some("Bearer")) == Failure(TokenNotFound)
  {
    Text.SplitWithoutSep("Bearer", ' ');
    assert Text.Lower("Bearer") == "bearer";
  }

  /** A double space makes three pieces, so the header is refused. */
  lemma DoubleSpaceRejected()
    ensures GetTokenAuthHeader(Some("Bearer  x")) == Failure(NotBearerToken)
  {
    Text.SplitWithoutSep("x", ' ');
    Text.SplitAfterWord("", ' ', "x");
    assert "" + [' '] + "x" == " x";
    Text.SplitAfterWord("Bearer", ' ', " x");
    assert "Bearer" + [' '] + " x" == "Bearer  x";
    assert Text.Lower("Bearer") == "bearer";
  }

  /** A trailing space yields the empty token. */
  lemma TrailingSpaceGivesEmptyToken()
    ensures GetTokenAuthHeader(Some("Bearer ")) == Success("")
  {
    BearerHeaderAccepted("Bearer", "");
    assert "Bearer " == "Bearer" + " " + "";
  }

  // ---------------------------------------------------------------------
  // Permission check
  // ---------------------------------------------------------------------

  /**
   * check_permissions as written: the presence test uses the key
   * "permissions" but the membership test reads the key "permission".
   */
  function CheckPermissionsAsWritten(permission: string, payload: Payload): (r: Result<bool, Failure>)
    ensures r == Failure(Abort(400)) <==> "permissions" !in payload
    ensures r == Failure(Uncaught("KeyError")) <==> "permissions" in payload && "permission" !in payload
    ensures r == Success(true) <==>
              "permissions" in payload && "permission" in payload && Contains(payload["permission"], permission) == Success(true)
    ensures r == Failure(Abort(403)) <==>
              "permissions" in payload && "permission" in payload && Contains(payload["permission"], permission) == Success(false)
    ensures r.Success? || r == Failure(Abort(400)) || r == Failure(Abort(403)) ||
            r == Failure(Uncaught("KeyError")) || r == Failure(Uncaught("TypeError"))
  {
    if "permissions" !in payload then Failure(Abort(400))
    else if "permission" !in payload then Failure(Uncaught("KeyError"))
    else match Contains(payload["permission"], permission)
      case Failure(e) => Failure(Uncaught(e))
      case Success(found) => if !found then Failure(Abort(403)) else Success(true)
  }

  /** check_permissions with the membership test on the documented "permissions" claim. */
  function CheckPermissions(permission: string, payload: Payload): (r: Result<bool, Failure>)
    ensures r == Success(true) <==> "permissions" in payload && Contains(payload["permissions"], permission) == Success(true)
    ensures r == Failure(Abort(400)) <==> "permissions" !in payload
    ensures r == Failure(Abort(403)) <==> "permissions" in payload && Contains(payload["permissions"], permission) == Success(false)
    ensures r.Success? || r == Failure(Abort(400)) || r == Failure(Abort(403)) || r == Failure(Uncaught("TypeError"))
  {
    if "permissions" !in payload then Failure(Abort(400))
    else match Contains(payload["permissions"], permission)
      case Failure(e) => Failure(Uncaught(e))
      case Success(found) => if !found then Failure(Abort(403)) else Success(true)
  }

  /** For the usual list-valued claim, the check passes exactly when the list holds the permission string. */
  lemma PermissionListDecides(permission: string, payload: Payload, granted: seq<Json>)
    requires "permissions" in payload && payload["permissions"] == JArr(granted)
    ensures CheckPermissions(permission, payload) == Success(true) <==> JStr(permission) in granted
    ensures CheckPermissions(permission, payload) == Failure(Abort(403)) <==> JStr(permission) !in granted
  {
  }

  /**
   * The as-written check rejects every payload that carries only the
   * documented "permissions" claim, even one that grants the permission,
   * while the corrected check accepts it.
   */
  lemma AsWrittenRejectsGrantedClaims(permission: string, granted: seq<Json>)
    requires JStr(permission) in granted
    ensures var payload := map["permissions" := JArr(granted)];
            && CheckPermissionsAsWritten(permission, payload) == Failure(Uncaught("KeyError"))
            && CheckPermissions(permission, payload) == Success(true)
  {
    var payload := map["permissions" := JArr(granted)];
    assert "permission" !in payload;
  }

  // ---------------------------------------------------------------------
  // Key selection and decoding
  // ---------------------------------------------------------------------

  /** One entry of the identity provider's published key set. */
  datatype Jwk = Jwk(kty: string, kid: string, use: string, n: string, e: string, others: map<string, Json>)

  /** The key handed to the decoder: the five fields copied out of a key-set entry. */
  datatype RsaKey = RsaKey(kty: string, kid: string, use: string, n: string, e: string)

  function RsaKeyOf(key: Jwk): RsaKey
  {
    RsaKey(key.kty, key.kid, key.use, key.n, key.e)
  }

  /** Entry `i` has the wanted key id and no later entry has it. */
  predicate LastMatch(keys: seq<Jwk>, kid: string, i: int)
  {
    0 <= i < |keys| && keys[i].kid == kid && forall j :: i < j < |keys| ==> keys[j].kid != kid
  }

  /** The key the selection loop ends with: the last entry whose kid matches, copied. */
  function KeyFor(keys: seq<Jwk>, kid: string): (k: Option<RsaKey>)
    ensures k.Some? ==> k.value.kid == kid
    decreases |keys|
  {
    if keys == [] then None
    else if keys[|keys| - 1].kid == kid then Some(RsaKeyOf(keys[|keys| - 1]))
    else KeyFor(keys[..|keys| - 1], kid)
  }

  /** KeyFor finds nothing exactly when no entry matches, and otherwise copies the last match. */
  lemma {:induction false} KeyForIsLastMatch(keys: seq<Jwk>, kid: string)
    ensures KeyFor(keys, kid) == None <==> forall i :: 0 <= i < |keys| ==> keys[i].kid != kid
    ensures forall i :: LastMatch(keys, kid, i) ==> KeyFor(keys, kid) == Some(RsaKeyOf(keys[i]))
    decreases |keys|
  {
    if keys != [] {
      var m := |keys| - 1;
      var front := keys[..m];
      KeyForIsLastMatch(front, kid);
      if keys[m].kid != kid {
        forall i | LastMatch(keys, kid, i) ensures LastMatch(front, kid, i) {
          assert i != m;
        }
      } else {
        forall i | LastMatch(keys, kid, i) ensures i == m {
        }
      }
    }
  }

  /**
   * The selection loop of verify_decode_jwt: walk the key set and
   * overwrite the selected key on every entry whose kid matches.
   */
  method SelectKey(keys: seq<Jwk>, kid: string) returns (rsaKey: Option<RsaKey>)
    ensures rsaKey == KeyFor(keys, kid)
  {
    rsaKey := None;
    for i := 0 to |keys|
      invariant rsaKey == KeyFor(keys[..i], kid)
    {
      if keys[i].kid == kid {
        rsaKey := Some(RsaKeyOf(keys[i]));
      }
      assert keys[..i + 1][..i] == keys[..i];
    }
    assert keys[..|keys|] == keys;
  }

  /** What the JWT library's decode reports for a token and a key. */
  datatype DecodeOutcome = Decoded(payload: Payload) | Expired | ClaimsError | OtherError

  /**
   * The request-scoped inputs of the gate: the Authorization header, the
   * downloaded key set (None when the download or its parsing failed), the
   * unverified-header parser (None when it raises) and the decoder.
   */
  datatype Context = Context(
    authorization: Option<string>,
    keySet: Option<seq<Jwk>>,
    unverifiedHeader: string -> Option<TokenHeader>,
    decode: (string, RsaKey) -> DecodeOutcome)

  /** verify_decode_jwt: select the signing key by kid, decode, and map decode failures to errors. */
  function VerifyDecodeJwt(token: string, ctx: Context): (r: Result<Payload, Failure>)
    ensures r.Failure? ==> r.error.Uncaught? || (r.error.AuthError? && r.error.status in {400, 401})
  {
    match ctx.keySet
    case None => Failure(Uncaught("URLError"))
    case Some(keys) =>
      match ctx.unverifiedHeader(token)
      case None => Failure(Uncaught("JWTError"))
      case Some(header) =>
        if "kid" !in header then Failure(KidMissing)
        else
          match KeyFor(keys, header["kid"])
          case None => Failure(NoMatchingKey)
          case Some(key) =>
            match ctx.decode(token, key)
            case Decoded(payload) => Success(payload)
            case Expired => Failure(TokenExpired)
            case ClaimsError => Failure(InvalidClaims)
            case OtherError => Failure(Unparseable)
  }

  /**
   * The outcome of verification in terms of the key set itself: an unknown
   * kid is rejected, and with a known kid the decoder is consulted with
   * the last matching entry and its outcome is mapped to the result.
   */
  lemma VerifyDecodeJwtCases(token: string, ctx: Context)
    requires ctx.keySet.Some? && ctx.unverifiedHeader(token).Some?
    ensures var header := ctx.unverifiedHeader(token).value;
            var keys := ctx.keySet.value;
            "kid" in header && (forall i :: 0 <= i < |keys| ==> keys[i].kid != header["kid"])
            ==> VerifyDecodeJwt(token, ctx) == Failure(NoMatchingKey)
    ensures var header := ctx.unverifiedHeader(token).value;
            var keys := ctx.keySet.value;
            "kid" in header ==>
            forall i :: LastMatch(keys, header["kid"], i) ==>
              VerifyDecodeJwt(token, ctx) ==
                match ctx.decode(token, RsaKeyOf(keys[i]))
                case Decoded(payload) => Success(payload)
                case Expired => Failure(TokenExpired)
                case ClaimsError => Failure(InvalidClaims)
                case OtherError => Failure(Unparseable)
  {
    var header := ctx.unverifiedHeader(token).value;
    if "kid" in header {
      KeyForIsLastMatch(ctx.keySet.value, header["kid"]);
    }
  }

  /**
   * The failures before any key is looked at: the key-set download, the
   * parsing of the token's header, and a header without a kid.
   */
  lemma VerifyDecodeJwtEarlyFailures(token: string, ctx: Context)
    ensures ctx.keySet.None? ==> VerifyDecodeJwt(token, ctx) == Failure(Uncaught("URLError"))
    ensures ctx.keySet.Some? && ctx.unverifiedHeader(token).None? ==>
              VerifyDecodeJwt(token, ctx) == Failure(Uncaught("JWTError"))
    ensures ctx.keySet.Some? && ctx.unverifiedHeader(token).Some? && "kid" !in ctx.unverifiedHeader(token).value ==>
              VerifyDecodeJwt(token, ctx) == Failure(KidMissing)
  {
  }

  /**
   * A payload comes only out of the decoder, run with a key-set entry whose
   * kid is the token header's kid (the last such entry).
   */
  lemma VerifiedPayloadIsDecoded(token: string, ctx: Context, payload: Payload)
    requires VerifyDecodeJwt(token, ctx) == Success(payload)
    ensures ctx.keySet.Some? && ctx.unverifiedHeader(token).Some?
    ensures var header := ctx.unverifiedHeader(token).value;
            && "kid" in header
            && exists i :: LastMatch(ctx.keySet.value, header["kid"], i)
                           && ctx.decode(token, RsaKeyOf(ctx.keySet.value[i])) == Decoded(payload)
  {
    var keys := ctx.keySet.value;
    var header := ctx.unverifiedHeader(token).value;
    var kid := header["kid"];
    KeyForIsLastMatch(keys, kid);
    var i :| 0 <= i < |keys| && keys[i].kid == kid;
    LastMatchExists(keys, kid, i);
  }

  /** Where some entry matches, a last match exists. */
  lemma {:induction false} LastMatchExists(keys: seq<Jwk>, kid: string, i: int)
    requires 0 <= i < |keys| && keys[i].kid == kid
    ensures exists k :: LastMatch(keys, kid, k)
    decreases |keys| - i
  {
    if !LastMatch(keys, kid, i) {
      var j :| i < j < |keys| && keys[j].kid == kid;
      LastMatchExists(keys, kid, j);
    }
  }

  // ---------------------------------------------------------------------
  // Composition: requires_auth
  // ---------------------------------------------------------------------

  /**
   * The first two steps of the wrapper: extract the token, then verify it.
   * Extraction errors propagate as they are; every verification failure
   * becomes abort(401) (the bare `except`). So every failure here is a 401.
   */
  function Authenticate(ctx: Context): (r: Result<Payload, Failure>)
    ensures r.Failure? ==> (r.error.AuthError? || r.error.Abort?) && r.error.status == 401
    ensures r.Success? ==>
              && GetTokenAuthHeader(ctx.authorization).Success?
              && VerifyDecodeJwt(GetTokenAuthHeader(ctx.authorization).value, ctx) == r
  {
    match GetTokenAuthHeader(ctx.authorization)
    case Failure(e) => Failure(e)
    case Success(token) =>
      match VerifyDecodeJwt(token, ctx)
      case Failure(_) => Failure(Abort(401))
      case Success(payload) => Success(payload)
  }

  /**
   * The wrapper's gate with the corrected permission check: authenticate,
   * then check the permission on the decoded claims; permission failures
   * propagate as they are.
   */
  function Authorization(permission: string, ctx: Context): (r: Result<Payload, Failure>)
    ensures r.Success? ==> Authenticate(ctx) == r && CheckPermissions(permission, r.value) == Success(true)
  {
    match Authenticate(ctx)
    case Failure(e) => Failure(e)
    case Success(payload) =>
      match CheckPermissions(permission, payload)
      case Failure(e) => Failure(e)
      case Success(_) => Success(payload)
  }

  /** The wrapper's gate as written: the same two steps, then check_permissions as written. */
  function AuthorizationAsWritten(permission: string, ctx: Context): (r: Result<Payload, Failure>)
    ensures r.Success? ==> Authenticate(ctx) == r && CheckPermissionsAsWritten(permission, r.value) == Success(true)
  {
    match Authenticate(ctx)
    case Failure(e) => Failure(e)
    case Success(payload) =>
      match CheckPermissionsAsWritten(permission, payload)
      case Failure(e) => Failure(e)
      case Success(_) => Success(payload)
  }

  /**
   * As written, the gate admits a caller exactly when the claims carry both
   * keys and the singular "permission" claim grants the permission; what
   * the documented "permissions" claim holds plays no part.
   */
  lemma GateAsWrittenAdmits(permission: string, ctx: Context)
    ensures AuthorizationAsWritten(permission, ctx).Success? <==>
              && Authenticate(ctx).Success?
              && var p := Authenticate(ctx).value;
                 && "permissions" in p && "permission" in p
                 && Contains(p["permission"], permission) == Success(true)
  {
  }

  /** The two gates agree on every caller whose singular and plural claims hold the same value. */
  lemma GatesAgreeOnMirroredClaims(permission: string, ctx: Context)
    requires Authenticate(ctx).Success?
    requires var p := Authenticate(ctx).value; "permission" in p && "permissions" in p && p["permission"] == p["permissions"]
    ensures AuthorizationAsWritten(permission, ctx) == Authorization(permission, ctx)
  {
  }

  /**
   * Where they differ: claims carrying only "permissions" with the
   * permission make the gate as written raise KeyError, and claims whose
   * "permissions" list is empty but whose "permission" list grants it pass
   * the gate as written and are refused with 403 by the corrected one.
   */
  lemma GatesDiverge(permission: string, ctx: Context)
    ensures Authenticate(ctx) == Success(map["permissions" := JArr([JStr(permission)])]) ==>
              && AuthorizationAsWritten(permission, ctx) == Failure(Uncaught("KeyError"))
              && Authorization(permission, ctx) == Success(map["permissions" := JArr([JStr(permission)])])
    ensures var p := map["permissions" := JArr([]), "permission" := JArr([JStr(permission)])];
            Authenticate(ctx) == Success(p) ==>
              && AuthorizationAsWritten(permission, ctx) == Success(p)
              && Authorization(permission, ctx) == Failure(Abort(403))
  {
    var p := map["permissions" := JArr([]), "permission" := JArr([JStr(permission)])];
    assert p["permissions"] == JArr([]) && p["permission"] == JArr([JStr(permission)]);
    assert "permission" !in map["permissions" := JArr([JStr(permission)])];
  }

  /** What one call of a wrapped route does: reject, or invoke the wrapped operation once. */
  datatype GuardOutcome<R> = Rejected(failure: Failure) | Invoked(payload: Payload, response: R)

  /** requires_auth(permission)(f) applied to the route's own arguments. */
  function RequiresAuth<A, R>(permission: string, f: (Payload, A) -> R, ctx: Context, args: A): (r: GuardOutcome<R>)
    ensures r.Invoked? ==> r.response == f(r.payload, args)
  {
    match Authorization(permission, ctx)
    case Failure(e) => Rejected(e)
    case Success(payload) => Invoked(payload, f(payload, args))
  }

  /**
   * Conversely, when the header holds a token, the token verifies and the
   * claims grant the permission, the wrapped operation runs exactly once,
   * with the decoded claims and the route's own arguments.
   */
  lemma GuardInvokesWhenAuthorized<A, R>(permission: string, f: (Payload, A) -> R, ctx: Context, args: A, payload: Payload)
    requires GetTokenAuthHeader(ctx.authorization).Success?
    requires VerifyDecodeJwt(GetTokenAuthHeader(ctx.authorization).value, ctx) == Success(payload)
    requires CheckPermissions(permission, payload) == Success(true)
    ensures RequiresAuth(permission, f, ctx, args) == Invoked(payload, f(payload, args))
  {
  }

  /**
   * The wrapped operation runs only when every step succeeded: the header
   * held a bearer token, the decoder accepted it under a key-set entry with
   * the token's kid, and the decoded claims grant the permission.
   */
  lemma GuardInvokesOnlyWhenAuthorized<A, R>(permission: string, f: (Payload, A) -> R, ctx: Context, args: A)
    ensures var r := RequiresAuth(permission, f, ctx, args);
            r.Invoked? ==>
              && GetTokenAuthHeader(ctx.authorization).Success?
              && var token := GetTokenAuthHeader(ctx.authorization).value;
                 && VerifyDecodeJwt(token, ctx) == Success(r.payload)
                 && ctx.keySet.Some? && ctx.unverifiedHeader(token).Some?
                 && "kid" in ctx.unverifiedHeader(token).value
                 && (exists i :: LastMatch(ctx.keySet.value, ctx.unverifiedHeader(token).value["kid"], i)
                                 && ctx.decode(token, RsaKeyOf(ctx.keySet.value[i])) == Decoded(r.payload))
                 && "permissions" in r.payload
                 && Contains(r.payload["permissions"], permission) == Success(true)
  {
    var r := RequiresAuth(permission, f, ctx, args);
    if r.Invoked? {
      var token := GetTokenAuthHeader(ctx.authorization).value;
      VerifiedPayloadIsDecoded(token, ctx, r.payload);
    }
  }

  /** Each step's failure surfaces with the status the wrapper gives it. */
  lemma GuardErrorPropagation<A, R>(permission: string, f: (Payload, A) -> R, ctx: Context, args: A)
    ensures var t := GetTokenAuthHeader(ctx.authorization);
            t.Failure? ==> RequiresAuth(permission, f, ctx, args) == Rejected(t.error)
    ensures var t := GetTokenAuthHeader(ctx.authorization);
            t.Success? && VerifyDecodeJwt(t.value, ctx).Failure? ==>
              RequiresAuth(permission, f, ctx, args) == Rejected(Abort(401))
    ensures var t := GetTokenAuthHeader(ctx.authorization);
            t.Success? && VerifyDecodeJwt(t.value, ctx).Success? &&
            CheckPermissions(permission, VerifyDecodeJwt(t.value, ctx).value).Failure? ==>
              RequiresAuth(permission, f, ctx, args) ==
                Rejected(CheckPermissions(permission, VerifyDecodeJwt(t.value, ctx).value).error)
  {
  }

  /** An unknown kid never reaches the wrapped operation; the wrapper answers 401. */
  lemma UnknownKidRejected<A, R>(permission: string, f: (Payload, A) -> R, ctx: Context, args: A)
    requires GetTokenAuthHeader(ctx.authorization).Success?
    requires var token := GetTokenAuthHeader(ctx.authorization).value;
             && ctx.keySet.Some? && ctx.unverifiedHeader(token).Some?
             && "kid" in ctx.unverifiedHeader(token).value
             && forall i :: 0 <= i < |ctx.keySet.value| ==>
                  ctx.keySet.value[i].kid != ctx.unverifiedHeader(token).value["kid"]
    ensures RequiresAuth(permission, f, ctx, args) == Rejected(Abort(401))
  {
    var token := GetTokenAuthHeader(ctx.authorization).value;
    VerifyDecodeJwtCases(token, ctx);
  }
}
