/**
 * The `ensureAuthentication` Express middleware
 * (src/middlewares/ensureAuthentication.ts): checks the `Authorization`
 * header for `Bearer <token>` and asks the identity provider to verify the
 * token. The provider's `verifyIdToken` is a parameter: `None` is a
 * rejected token.
 */
module Authentication {
  import opened Wrappers
  import opened Errors
  import opened Text
  import opened ErrorHandling

  /** What `verifyIdToken` resolves with, as far as the middleware reads it. */
  datatype DecodedToken = DecodedToken(uid: string, email: Option<string>)

  /** `request.user`. */
  datatype User = User(uid: string, email: Option<string>)

  /** `Authenticated(user)`: `request.user` is set and `nextFunction()` is called
      once. `Rejected(error)`: the error is thrown and `nextFunction` is
      never called. */
  datatype AuthOutcome = Authenticated(user: User) | Rejected(error: AppError)

  const TokenMissing: AppError := NewApiError("JWT token is missing", "application/token-missing")
  const TokenMalformatted: AppError := NewApiError("Token malformatted.", "application/token-malformatted", 406)
  const InvalidToken: AppError := NewApiError("Invalid token", "application/invalid-token", 401)

  /** `/^Bearer$/i.test(scheme)`: the whole string is "Bearer", ignoring
      the case of its letters. */
  predicate IsBearerScheme(scheme: string)
    ensures IsBearerScheme(scheme) <==>
      |scheme| == 6 && forall i :: 0 <= i < 6 ==> scheme[i] == "bearer"[i] || scheme[i] == "BEARER"[i]
  {
    Lower(scheme) == "bearer"
  }

  function EnsureAuthentication(authorization: Option<string>, verifyIdToken: string -> Option<DecodedToken>): (o: AuthOutcome)
    ensures authorization.None? || authorization == Some("") ==> o == Rejected(TokenMissing)
    ensures authorization.Some? && authorization.value != "" && Count(authorization.value, ' ') != 1 ==>
      o == Rejected(TokenMalformatted)
    ensures o.Rejected? ==> o.error == TokenMissing || o.error == TokenMalformatted || o.error == InvalidToken
  {
    match authorization
    case None => Rejected(TokenMissing)
    case Some(header) =>
      if header == "" then Rejected(TokenMissing)
      else
        var parts := Split(header, ' ');
        SplitShape(header, ' ');
        if |parts| != 2 then Rejected(TokenMalformatted)
        else
          var scheme := parts[0];
          var token := parts[1];
          if !IsBearerScheme(scheme) then Rejected(TokenMalformatted)
          else
            match verifyIdToken(token)
            case None => Rejected(InvalidToken)
            case Some(decoded) => Authenticated(User(decoded.uid, decoded.email))
  }

  /** The header is accepted exactly when it is one space-separated pair
      whose first half is the Bearer scheme and whose second half the
      provider verifies; the user then comes from the decoded token. */
  lemma {:induction false} AcceptedHeaders(header: string, i: nat, verifyIdToken: string -> Option<DecodedToken>)
    requires i < |header| && header[i] == ' ' && Count(header, ' ') == 1
    ensures EnsureAuthentication(Some(header), verifyIdToken).Authenticated? <==>
      IsBearerScheme(header[..i]) && verifyIdToken(header[i + 1..]).Some?
    ensures !IsBearerScheme(header[..i]) ==>
      EnsureAuthentication(Some(header), verifyIdToken) == Rejected(TokenMalformatted)
    ensures IsBearerScheme(header[..i]) && verifyIdToken(header[i + 1..]).None? ==>
      EnsureAuthentication(Some(header), verifyIdToken) == Rejected(InvalidToken)
    ensures IsBearerScheme(header[..i]) && verifyIdToken(header[i + 1..]).Some? ==>
      var decoded := verifyIdToken(header[i + 1..]).value;
      EnsureAuthentication(Some(header), verifyIdToken) == Authenticated(User(decoded.uid, decoded.email))
  {
    SplitAtOnlySeparator(header, ' ', i);
  }

  /** Every rejection, once the error middleware sees it, is answered with
      400 (missing), 406 (malformed) or 401 (invalid) and never passed on. */
  lemma RejectionsAreAnswered(authorization: Option<string>, verifyIdToken: string -> Option<DecodedToken>)
    ensures var o := EnsureAuthentication(authorization, verifyIdToken);
      o.Rejected? ==>
        var h := InternalErrors(Thrown(o.error));
        h.Respond? && (h.status == 400 || h.status == 406 || h.status == 401)
  {
  }
}
