/** The decision logic of `Connection._Post`: the request URL, which
    credentials go with a request, what a reply means, and the refresh-and-retry
    cycle on an expired token. The HTTP exchange itself is a function `api` from
    request to decoded reply, and the token endpoint a function `tokens` from
    refresh token to the new grant. */
module Transport {
  import opened Wrappers
  import opened Values
  import opened Auth

  const ApiUrl := "https://api.elvanto.com/v1/"

  /** The error code the API uses for an expired access token. */
  const TokenExpiredCode := 121

  /** The reply `_Post` makes up when the token expired and cannot be refreshed. */
  const ExpiredNotice := JObj(map["status" := JStr("Token expired please renew")])

  /** HTTP Basic with the API key as user name, or an `Authorization` header. */
  datatype Credential = Basic(user: string) | Header(authorization: string)

  datatype Request = Request(url: string, credential: Credential, body: map<string, Json>)

  /** The decoded answer of the token endpoint. */
  datatype TokenGrant = TokenGrant(accessToken: string, refreshToken: Option<string>, expiresIn: int)

  /** Python's `s[:-1]`. */
  function DropLast(s: string): string
  {
    if s == [] then [] else s[..|s| - 1]
  }

  /** The URL as the source builds it: the guard tests `endpoint[:-1] == '.'`. */
  function PostUrlAsWritten(endpoint: string): string
  {
    ApiUrl + endpoint + (if DropLast(endpoint) == "." then "" else ".") + "json"
  }

  /** The URL with the guard the source evidently means, `endpoint[-1:] == '.'`:
      a trailing period is not doubled. */
  function PostUrl(endpoint: string): string
  {
    ApiUrl + endpoint + (if |endpoint| > 0 && endpoint[|endpoint| - 1] == '.' then "" else ".") + "json"
  }

  /** As written, a trailing period is doubled, and an endpoint of a period and
      one more character loses its period. */
  lemma TrailingPeriodAsWritten()
    ensures PostUrlAsWritten("people/getAll.") == ApiUrl + "people/getAll..json"
    ensures PostUrlAsWritten("people/getAll.") != PostUrlAsWritten("people/getAll")
    ensures PostUrlAsWritten(".x") == ApiUrl + ".xjson"
  {
    assert DropLast("people/getAll.") == "people/getAll";
    assert DropLast(".x") == ".";
    var a := PostUrlAsWritten("people/getAll.");
    var b := PostUrlAsWritten("people/getAll");
    assert |a| != |b|;
  }

  /** The corrected URL always ends in `.json`, with one period, and naming the
      endpoint with or without its final period makes no difference. */
  lemma PostUrlIgnoresTrailingPeriod(endpoint: string)
    requires endpoint == [] || endpoint[|endpoint| - 1] != '.'
    ensures PostUrl(endpoint) == ApiUrl + endpoint + ".json"
    ensures PostUrl(endpoint + ".") == PostUrl(endpoint)
  {
    assert (endpoint + ".")[|endpoint + "."| - 1] == '.';
  }

  /** On the endpoints the client actually calls, the two guards agree. */
  lemma PostUrlAgreesOnPlainEndpoints(endpoint: string)
    requires endpoint == [] || endpoint[|endpoint| - 1] != '.'
    requires DropLast(endpoint) != "."
    ensures PostUrlAsWritten(endpoint) == PostUrl(endpoint)
  {
  }

  /** What a decoded reply means to `_Post`. */
  datatype Verdict =
    | Deliver            // returned to the caller as it is
    | Expired            // error code 121
    | Broken(failure: Failure)

  /** `info['status'] != 'ok'` and then `int(info['error']['code']) == 121`. */
  function Classify(info: Json): Verdict
  {
    if !info.JObj? then Broken(TypeError)
    else if "status" !in info.fields then Broken(KeyError("status"))
    else if info.fields["status"] == JStr("ok") then Deliver
    else if "error" !in info.fields then Broken(KeyError("error"))
    else
      var error := info.fields["error"];
      if !error.JObj? then Broken(TypeError)
      else if "code" !in error.fields then Broken(KeyError("code"))
      else
        match IntOf(error.fields["code"])
        case Failure(f) => Broken(f)
        case Success(code) => if code == TokenExpiredCode then Expired else Deliver
  }

  /** A reply with a status is delivered unless its status is not "ok" and its
      error code reads as 121. */
  lemma ClassifyStatus(info: Json)
    requires info.JObj? && "status" in info.fields
    ensures info.fields["status"] == JStr("ok") ==> Classify(info) == Deliver
    ensures Classify(info) == Expired <==>
      && info.fields["status"] != JStr("ok")
      && "error" in info.fields && info.fields["error"].JObj?
      && "code" in info.fields["error"].fields
      && IntOf(info.fields["error"].fields["code"]) == Success(TokenExpiredCode)
  {
  }

  /** `Bearer <token>` for OAuth, the key for HTTP Basic. */
  function CredentialFor(auth: Auth): Credential
  {
    match auth
    case ApiKey(key) => Basic(key)
    case OAuth(token, _) => Header("Bearer " + token)
  }

  /** Whether `self.refresh_token` is truthy. */
  predicate CanRefresh(auth: Auth)
  {
    auth.OAuth? && Given(auth.refreshToken)
  }

  /** `_RefreshToken`: the connection is re-initialised with the new grant. */
  function Refreshed(auth: Auth, tokens: string -> TokenGrant): Auth
    requires auth.OAuth? && auth.refreshToken.Some?
  {
    var grant := tokens(auth.refreshToken.value);
    OAuth(grant.accessToken, grant.refreshToken)
  }

  /** Everything a call of `_Post` determines: what it returns or raises, the
      credentials and last reply it leaves behind, and how many HTTP requests
      it sent. */
  datatype PostState = PostState(outcome: Result<Json, Failure>, auth: Auth, data: Option<Json>, sent: nat)

  /** `_Post` with both authentication modes set up as the source intends
      (the absent attribute reads as None). Each nested call uses one unit of
      `fuel`, Python's recursion limit; running out is a RecursionError. */
  function PostSpec(auth: Auth, data: Option<Json>, endpoint: string, params: map<string, Json>,
                    api: Request -> Json, tokens: string -> TokenGrant, fuel: nat): (s: PostState)
    ensures s.sent <= fuel
    decreases fuel
  {
    if fuel == 0 then PostState(Failure(RecursionError), auth, data, 0)
    else
      var info := api(Request(PostUrl(endpoint), CredentialFor(auth), params));
      match Classify(info)
      case Deliver => PostState(Success(info), auth, Some(info), 1)
      case Broken(f) => PostState(Failure(f), auth, Some(info), 1)
      case Expired =>
        if CanRefresh(auth) then
          var retry := PostSpec(Refreshed(auth, tokens), Some(info), endpoint, params, api, tokens, fuel - 1);
          retry.(sent := retry.sent + 1)
        else PostState(Success(ExpiredNotice), auth, Some(info), 1)
  }

  /** The first request of a call. */
  function FirstRequest(auth: Auth, endpoint: string, params: map<string, Json>): Request
  {
    Request(PostUrl(endpoint), CredentialFor(auth), params)
  }

  /** A delivered reply (status "ok", or an error other than 121) is returned
      unchanged after one request, and the credentials are untouched. */
  lemma PostDeliversReply(auth: Auth, data: Option<Json>, endpoint: string, params: map<string, Json>,
                          api: Request -> Json, tokens: string -> TokenGrant, fuel: nat)
    requires fuel > 0
    requires Classify(api(FirstRequest(auth, endpoint, params))) == Deliver
    ensures PostSpec(auth, data, endpoint, params, api, tokens, fuel)
         == PostState(Success(api(FirstRequest(auth, endpoint, params))), auth,
                      Some(api(FirstRequest(auth, endpoint, params))), 1)
  {
  }

  /** An expired token with no refresh token yields exactly the notice, after one request. */
  lemma PostExpiredWithoutRefresh(auth: Auth, data: Option<Json>, endpoint: string, params: map<string, Json>,
                                  api: Request -> Json, tokens: string -> TokenGrant, fuel: nat)
    requires fuel > 0 && !CanRefresh(auth)
    requires Classify(api(FirstRequest(auth, endpoint, params))) == Expired
    ensures PostSpec(auth, data, endpoint, params, api, tokens, fuel).outcome
         == Success(JObj(map["status" := JStr("Token expired please renew")]))
    ensures PostSpec(auth, data, endpoint, params, api, tokens, fuel).sent == 1
    ensures PostSpec(auth, data, endpoint, params, api, tokens, fuel).auth == auth
  {
  }

  /** An expired token with a refresh token: the credentials are refreshed and
      the same call is issued again, whose result is the result. */
  lemma PostRefreshesAndRetries(auth: Auth, data: Option<Json>, endpoint: string, params: map<string, Json>,
                                api: Request -> Json, tokens: string -> TokenGrant, fuel: nat)
    requires fuel > 0 && CanRefresh(auth)
    requires Classify(api(FirstRequest(auth, endpoint, params))) == Expired
    ensures var s := PostSpec(auth, data, endpoint, params, api, tokens, fuel);
            var retry := PostSpec(Refreshed(auth, tokens), Some(api(FirstRequest(auth, endpoint, params))),
                                  endpoint, params, api, tokens, fuel - 1);
            s.outcome == retry.outcome && s.auth == retry.auth && s.sent == retry.sent + 1
  {
  }

  /** One expiry followed by success after the refresh is two requests, the
      second one carrying the new access token. */
  lemma PostRetryIsTwoRequests(auth: Auth, endpoint: string, params: map<string, Json>,
                               api: Request -> Json, tokens: string -> TokenGrant, fuel: nat)
    requires fuel >= 2 && CanRefresh(auth)
    requires Classify(api(FirstRequest(auth, endpoint, params))) == Expired
    requires Classify(api(FirstRequest(Refreshed(auth, tokens), endpoint, params))) == Deliver
    ensures var s := PostSpec(auth, None, endpoint, params, api, tokens, fuel);
            && s.sent == 2
            && s.outcome == Success(api(FirstRequest(Refreshed(auth, tokens), endpoint, params)))
            && s.auth == Refreshed(auth, tokens)
            && s.auth.accessToken == tokens(auth.refreshToken.value).accessToken
  {
  }

  /** Nothing bounds the retries: a server that always reports an expired token,
      with a token endpoint that always hands out a refresh token, drives the
      call into the recursion limit, one request per level. */
  lemma {:induction false} PostRetriesWithoutBound(auth: Auth, data: Option<Json>, endpoint: string,
                                                   params: map<string, Json>, api: Request -> Json,
                                                   tokens: string -> TokenGrant, fuel: nat)
    requires CanRefresh(auth)
    requires forall r :: Classify(api(r)) == Expired
    requires forall t :: Given(tokens(t).refreshToken)
    ensures PostSpec(auth, data, endpoint, params, api, tokens, fuel).outcome == Failure(RecursionError)
    ensures PostSpec(auth, data, endpoint, params, api, tokens, fuel).sent == fuel
    decreases fuel
  {
    if fuel > 0 {
      var info := api(FirstRequest(auth, endpoint, params));
      PostRetriesWithoutBound(Refreshed(auth, tokens), Some(info), endpoint, params, api, tokens, fuel - 1);
    }
  }

  /** `_Post` exactly as written: an OAuth connection never sets `API_Key`, so
      the test on line 113 raises; an API-key connection never sets
      `refresh_token`, so an expired-token reply raises on line 120. */
  function PostAsWritten(auth: Auth, endpoint: string, params: map<string, Json>,
                         api: Request -> Json): Result<Json, Failure>
  {
    match auth
    case OAuth(_, _) => Failure(AttributeError("API_Key"))
    case ApiKey(key) =>
      var info := api(Request(PostUrlAsWritten(endpoint), Basic(key), params));
      match Classify(info)
      case Deliver => Success(info)
      case Broken(f) => Failure(f)
      case Expired => Failure(AttributeError("refresh_token"))
  }

  /** As written, every call on an OAuth connection fails before any request. */
  lemma OAuthPostFailsAsWritten(token: string, refresh: Option<string>, endpoint: string,
                                params: map<string, Json>, api: Request -> Json)
    ensures PostAsWritten(OAuth(token, refresh), endpoint, params, api)
         == Failure(AttributeError("API_Key"))
  {
  }

  /** As written, an expired-token reply on an API-key connection raises
      instead of returning the notice the corrected call returns. */
  lemma ApiKeyExpiryFailsAsWritten(key: string, endpoint: string, params: map<string, Json>,
                                   api: Request -> Json, tokens: string -> TokenGrant, fuel: nat)
    requires fuel > 0
    requires endpoint == [] || endpoint[|endpoint| - 1] != '.'
    requires DropLast(endpoint) != "."
    requires Classify(api(FirstRequest(ApiKey(key), endpoint, params))) == Expired
    ensures PostAsWritten(ApiKey(key), endpoint, params, api) == Failure(AttributeError("refresh_token"))
    ensures PostSpec(ApiKey(key), None, endpoint, params, api, tokens, fuel).outcome == Success(ExpiredNotice)
  {
    PostUrlAgreesOnPlainEndpoints(endpoint);
  }

  /** Outside those two cases the corrected call behaves as written. */
  lemma PostAgreesWithAsWritten(key: string, endpoint: string, params: map<string, Json>,
                                api: Request -> Json, tokens: string -> TokenGrant, fuel: nat)
    requires fuel > 0
    requires endpoint == [] || endpoint[|endpoint| - 1] != '.'
    requires DropLast(endpoint) != "."
    requires Classify(api(FirstRequest(ApiKey(key), endpoint, params))) != Expired
    ensures PostAsWritten(ApiKey(key), endpoint, params, api)
         == PostSpec(ApiKey(key), None, endpoint, params, api, tokens, fuel).outcome
  {
    PostUrlAgreesOnPlainEndpoints(endpoint);
  }
}
