/**
 * GitHub App credentials: the process-wide JWT and installation access
 * token, their refresh, the retry loop run on an unauthorized response, the
 * authentication headers and the shared-secret check.  Every network reply
 * and the JWT signing step are inputs (`Attempt`); nothing here talks to a
 * server.
 */
module Auth {
  import opened Strings

  const MachineManPreview: string := "application/vnd.github.machine-man-preview+json"

  /** `for n in 0..<4`: the most refreshes one unauthorized response triggers. */
  const RefreshAttempts: nat := 4

  /** What `signAndEncodeJWT` does: no usable app id (returns ""), throws, or signs. */
  datatype SignOutcome = MissingAppId | SignThrows | Signed(jwt: string)

  /** The access-token request: it throws, or its JSON has an optional `token` string. */
  datatype TokenReply = TokenThrows | TokenJson(token: Option<string>)

  /**
   * Everything one `refreshGithubCredentials` call sees: the signing
   * outcome, the first installation's access-token URL (`None` when the
   * request failed or listed none) and the reply to the token request.
   */
  datatype Attempt = Attempt(sign: SignOutcome, tokenUrl: Option<string>, reply: TokenReply)

  datatype Tokens = Tokens(jwt: string, access: string)

  /** Outcome of `refreshCredentialsIfUnauthorized` and how many refreshes it ran. */
  datatype Retry = Retry(refreshed: bool, tries: nat)

  predicate Unauthorized(code: int) {
    code == 401 || code == 403
  }

  /** The token `createAccessToken` stores: the JSON `token`, or "" when it is absent. */
  function StoredToken(token: Option<string>): string {
    if token.Some? then token.value else ""
  }

  /** `refreshGithubCredentials` reports success. */
  predicate RefreshSucceeds(a: Attempt) {
    !a.sign.SignThrows? && a.tokenUrl.Some? && a.reply.TokenJson? && StoredToken(a.reply.token) != ""
  }

  /**
   * The tokens after one refresh: a signed JWT replaces the old one, and a
   * token reply replaces the access token (with "" when it has none); a
   * throwing signer leaves both untouched.
   */
  function RefreshTokens(t: Tokens, a: Attempt): Tokens {
    if a.sign.SignThrows? then t
    else
      var jwt := if a.sign.Signed? then a.sign.jwt else t.jwt;
      if a.tokenUrl.None? || a.reply.TokenThrows? then Tokens(jwt, t.access)
      else Tokens(jwt, StoredToken(a.reply.token))
  }

  /** The tokens after the refreshes `attempts`, in order. */
  function TokensAfter(t: Tokens, attempts: seq<Attempt>): Tokens {
    if attempts == [] then t
    else RefreshTokens(TokensAfter(t, attempts[..|attempts| - 1]), attempts[|attempts| - 1])
  }

  /** The position of the first refresh that succeeds. */
  function FirstSuccess(attempts: seq<Attempt>): (r: Option<nat>)
    ensures r.None? <==> forall k :: 0 <= k < |attempts| ==> !RefreshSucceeds(attempts[k])
    ensures r.Some? ==> r.value < |attempts| && RefreshSucceeds(attempts[r.value])
    ensures r.Some? ==> forall k :: 0 <= k < r.value ==> !RefreshSucceeds(attempts[k])
  {
    if attempts == [] then None
    else if RefreshSucceeds(attempts[0]) then Some(0)
    else match FirstSuccess(attempts[1..])
      case None => None
      case Some(k) => Some(k + 1)
  }

  /**
   * `refreshCredentialsIfUnauthorized`: no refresh unless the code is 401
   * or 403; otherwise refreshes until the first success, at most four times.
   */
  function RetryOutcome(code: int, attempts: seq<Attempt>): (r: Retry)
    requires |attempts| == RefreshAttempts
    ensures !Unauthorized(code) ==> r == Retry(false, 0)
    ensures Unauthorized(code) ==> 1 <= r.tries <= RefreshAttempts
    ensures r.refreshed ==> Unauthorized(code) && RefreshSucceeds(attempts[r.tries - 1])
    ensures forall k :: 0 <= k < r.tries - 1 ==> !RefreshSucceeds(attempts[k])
    ensures Unauthorized(code) && !r.refreshed ==>
              r.tries == RefreshAttempts && forall k :: 0 <= k < RefreshAttempts ==> !RefreshSucceeds(attempts[k])
  {
    if !Unauthorized(code) then Retry(false, 0)
    else match FirstSuccess(attempts)
      case None => Retry(false, RefreshAttempts)
      case Some(k) => Retry(true, k + 1)
  }

  /** The tokens after `refreshCredentialsIfUnauthorized`. */
  function RetryTokens(t: Tokens, code: int, attempts: seq<Attempt>): Tokens
    requires |attempts| == RefreshAttempts
  {
    TokensAfter(t, attempts[..RetryOutcome(code, attempts).tries])
  }

  /** After a successful retry the stored access token is never empty. */
  lemma RefreshedHasAccessToken(t: Tokens, code: int, attempts: seq<Attempt>)
    requires |attempts| == RefreshAttempts
    ensures RetryOutcome(code, attempts).refreshed ==> RetryTokens(t, code, attempts).access != ""
  {
    var r := RetryOutcome(code, attempts);
    if r.refreshed {
      var done := attempts[..r.tries];
      assert done[..|done| - 1] == attempts[..r.tries - 1];
      assert done[|done| - 1] == attempts[r.tries - 1];
    }
  }

  /** A response that is not 401 or 403 leaves the credentials alone. */
  lemma AuthorizedKeepsTokens(t: Tokens, code: int, attempts: seq<Attempt>)
    requires |attempts| == RefreshAttempts && !Unauthorized(code)
    ensures RetryTokens(t, code, attempts) == t
  {
    assert attempts[..0] == [];
  }

  /**
   * `verifyGooglerPassword`: `secret` is the `SECRET_TOKEN` environment
   * variable; the header must be `Basic ` followed by exactly the secret.
   */
  function VerifyGooglerPassword(googlerPassword: string, secret: Option<string>): (r: bool)
    ensures secret.None? ==> !r
    ensures r <==> secret.Some? && StartsWith(googlerPassword, "Basic ") && googlerPassword[6..] == secret.value
  {
    if secret.None? then false
    else
      var password := "Basic " + secret.value;
      assert password[..6] == "Basic " && password[6..] == secret.value;
      assert StartsWith(googlerPassword, "Basic ") ==> googlerPassword == googlerPassword[..6] + googlerPassword[6..];
      googlerPassword == password
  }

  /**
   * The process-wide credentials of `GithubAuth`: its static `JWTToken`
   * and `accessToken`.
   */
  class GithubAuth {
    var jwtToken: string
    var accessToken: string

    constructor ()
      ensures jwtToken == "" && accessToken == ""
    {
      jwtToken := "";
      accessToken := "";
    }

    function Current(): Tokens
      reads this
    {
      Tokens(jwtToken, accessToken)
    }

    /** `signAndEncodeJWT`: `None` when it throws; a signed token is also stored. */
    method SignAndEncodeJWT(outcome: SignOutcome) returns (r: Option<string>)
      modifies this
      ensures outcome.SignThrows? ==> r.None?
      ensures outcome.MissingAppId? ==> r == Some("")
      ensures outcome.Signed? ==> r == Some(outcome.jwt)
      ensures jwtToken == (if outcome.Signed? then outcome.jwt else old(jwtToken))
      ensures accessToken == old(accessToken)
    {
      match outcome
      case MissingAppId =>
        return Some("");
      case SignThrows =>
        return None;
      case Signed(token) =>
        jwtToken := token;
        return Some(token);
    }

    /** `createAccessToken`: `None` when the request throws; otherwise the token is stored and returned. */
    method CreateAccessToken(reply: TokenReply) returns (r: Option<string>)
      modifies this
      ensures reply.TokenThrows? ==> r.None? && accessToken == old(accessToken)
      ensures reply.TokenJson? ==> r == Some(StoredToken(reply.token)) && accessToken == StoredToken(reply.token)
      ensures jwtToken == old(jwtToken)
    {
      match reply
      case TokenThrows =>
        return None;
      case TokenJson(json) =>
        var token := if json.Some? then json.value else "";
        accessToken := token;
        return Some(token);
    }

    /**
     * `refreshGithubCredentials`: success exactly when signing does not
     * throw, an access-token URL is found and a non-empty token is created.
     */
    method RefreshGithubCredentials(a: Attempt) returns (ok: bool)
      modifies this
      ensures ok == RefreshSucceeds(a)
      ensures Current() == RefreshTokens(old(Current()), a)
    {
      var signed := SignAndEncodeJWT(a.sign);
      if signed.None? {
        return false;
      }
      if a.tokenUrl.None? {
        return false;
      }
      var token := CreateAccessToken(a.reply);
      ok := token.Some? && token.value != "";
    }

    /**
     * `refreshCredentialsIfUnauthorized`: `attempts[n]` is what the refresh
     * of round `n` sees; `tries` counts the refreshes made.
     */
    method RefreshCredentialsIfUnauthorized(responseCode: int, attempts: seq<Attempt>) returns (refreshed: bool, tries: nat)
      requires |attempts| == RefreshAttempts
      modifies this
      ensures Retry(refreshed, tries) == RetryOutcome(responseCode, attempts)
      ensures Current() == RetryTokens(old(Current()), responseCode, attempts)
    {
      refreshed, tries := false, 0;
      for n := 0 to RefreshAttempts
        invariant tries == if Unauthorized(responseCode) then n else 0
        invariant forall k :: 0 <= k < tries ==> !RefreshSucceeds(attempts[k])
        invariant Current() == TokensAfter(old(Current()), attempts[..tries])
      {
        if responseCode == 401 || responseCode == 403 {
          var ok := RefreshGithubCredentials(attempts[n]);
          assert attempts[..tries + 1][..tries] == attempts[..tries];
          tries := tries + 1;
          if ok {
            return true, tries;
          }
        }
      }
      assert Unauthorized(responseCode) ==> FirstSuccess(attempts).None?;
    }

    /** `githubAuthHTTPHeaders`: exactly three headers, the bearer token being the JWT. */
    method GithubAuthHTTPHeaders() returns (headers: map<string, string>)
      ensures headers.Keys == {"Authorization", "Accept", "User-Agent"}
      ensures |headers| == 3
      ensures headers["Authorization"] == "Bearer " + jwtToken
      ensures headers["Accept"] == MachineManPreview
      ensures headers["User-Agent"] == "Material Automation"
    {
      headers := map[];
      headers := headers["Authorization" := "Bearer " + jwtToken];
      headers := headers["Accept" := MachineManPreview];
      headers := headers["User-Agent" := "Material Automation"];
    }
  }
}
