/** Authentication: the browser authorization URL (`_AuthorizeURL`) and the
    choice of credentials a connection is built with. */
module Auth {
  import opened Wrappers
  import opened Text
  import opened Values

  const OAuthUrl := "https://api.elvanto.com/oauth"

  /** The `Scope` argument: a list of scope names or one string. */
  datatype Scope = ScopeList(items: seq<string>) | ScopeText(text: string)

  /** A list is comma-joined; a string is used as it is. */
  function ScopeParam(scope: Scope): string
  {
    match scope
    case ScopeList(items) => Join(items, ',')
    case ScopeText(text) => text
  }

  /** The URL a user is sent to in order to log in. Nothing is URL-encoded, and
      `state` is only used by web apps, and only when it is neither None nor "". */
  function AuthorizeURL(clientId: nat, redirectUri: string, scope: Scope, isWebApp: bool,
                        state: Option<string>): string
  {
    OAuthUrl + (if isWebApp then "?type=web_server" else "?type=user_agent")
    + "&client_id=" + DecimalString(clientId) + "&redirect_uri=" + redirectUri
    + "&scope=" + ScopeParam(scope)
    + (if isWebApp && Given(state) then "&state=" + state.value else "")
  }

  /** Passing the scopes as a list is the same as passing them comma-joined. */
  lemma ScopeListIsJoined(clientId: nat, redirectUri: string, items: seq<string>, isWebApp: bool,
                          state: Option<string>)
    ensures AuthorizeURL(clientId, redirectUri, ScopeList(items), isWebApp, state)
         == AuthorizeURL(clientId, redirectUri, ScopeText(Join(items, ',')), isWebApp, state)
  {
  }

  /** The scope names can be read back from the comma-joined parameter. */
  lemma ScopeListRoundTrip(items: seq<string>)
    requires |items| >= 1
    requires forall i :: 0 <= i < |items| ==> ',' !in items[i]
    ensures Split(ScopeParam(ScopeList(items)), ',') == items
  {
    SplitJoin(items, ',');
  }

  /** A non-web app never puts the state into its URL: the state does not matter. */
  lemma UserAgentIgnoresState(clientId: nat, redirectUri: string, scope: Scope,
                              state1: Option<string>, state2: Option<string>)
    ensures AuthorizeURL(clientId, redirectUri, scope, false, state1)
         == AuthorizeURL(clientId, redirectUri, scope, false, state2)
  {
  }

  /** A web app's URL ends with `&state=<state>` exactly when the state is given,
      and is otherwise the URL without a state. */
  lemma WebAppStateSuffix(clientId: nat, redirectUri: string, scope: Scope, state: Option<string>)
    ensures Given(state) ==>
      AuthorizeURL(clientId, redirectUri, scope, true, state)
        == AuthorizeURL(clientId, redirectUri, scope, true, None) + "&state=" + state.value
    ensures !Given(state) ==>
      AuthorizeURL(clientId, redirectUri, scope, true, state)
        == AuthorizeURL(clientId, redirectUri, scope, true, None)
  {
  }

  /** The `&`-separated fields of the URL, as a server would read them. */
  function UrlFields(clientId: nat, redirectUri: string, scope: Scope, isWebApp: bool,
                     state: Option<string>): seq<string>
  {
    [OAuthUrl + "?type=" + (if isWebApp then "web_server" else "user_agent"),
     "client_id=" + DecimalString(clientId),
     "redirect_uri=" + redirectUri,
     "scope=" + ScopeParam(scope)]
    + (if isWebApp && Given(state) then ["state=" + state.value] else [])
  }

  lemma JoinFour(a: string, b: string, c: string, d: string, sep: char)
    ensures Join([a, b, c, d], sep) == a + [sep] + b + [sep] + c + [sep] + d
  {
    assert [a, b, c, d][1..] == [b, c, d];
    assert [b, c, d][1..] == [c, d];
    assert [c, d][1..] == [d];
    assert Join([c, d], sep) == c + [sep] + d;
    assert Join([b, c, d], sep) == b + [sep] + (c + [sep] + d);
  }

  lemma JoinFive(a: string, b: string, c: string, d: string, e: string, sep: char)
    ensures Join([a, b, c, d, e], sep) == a + [sep] + b + [sep] + c + [sep] + d + [sep] + e
  {
    assert [a, b, c, d, e][1..] == [b, c, d, e];
    assert [b, c, d, e][1..] == [c, d, e];
    assert [c, d, e][1..] == [d, e];
    assert [d, e][1..] == [e];
    assert Join([d, e], sep) == d + [sep] + e;
    assert Join([c, d, e], sep) == c + [sep] + (d + [sep] + e);
    assert Join([b, c, d, e], sep) == b + [sep] + (c + [sep] + d + [sep] + e);
  }

  lemma NoSeparatorInDigits(s: string)
    requires IsDigits(s)
    ensures '&' !in s
  {
  }

  lemma LiteralPieces()
    ensures "&client_id=" == "&" + "client_id="
    ensures "&redirect_uri=" == "&" + "redirect_uri="
    ensures "&scope=" == "&" + "scope="
    ensures "&state=" == "&" + "state="
    ensures "?type=web_server" == "?type=" + "web_server"
    ensures "?type=user_agent" == "?type=" + "user_agent"
  {
  }

  lemma AppendField(prefix: string, key: string, value: string)
    ensures prefix + ("&" + key) + value == prefix + "&" + (key + value)
  {
  }

  /** The URL is its fields joined with `&`. */
  lemma UrlIsJoinedFields(clientId: nat, redirectUri: string, scope: Scope, isWebApp: bool,
                          state: Option<string>)
    ensures AuthorizeURL(clientId, redirectUri, scope, isWebApp, state)
         == Join(UrlFields(clientId, redirectUri, scope, isWebApp, state), '&')
  {
    LiteralPieces();
    var kind := if isWebApp then "web_server" else "user_agent";
    var head := OAuthUrl + "?type=" + kind;
    assert OAuthUrl + (if isWebApp then "?type=web_server" else "?type=user_agent") == head;
    var id := "client_id=" + DecimalString(clientId);
    var uri := "redirect_uri=" + redirectUri;
    var sc := "scope=" + ScopeParam(scope);
    AppendField(head, "client_id=", DecimalString(clientId));
    AppendField(head + "&" + id, "redirect_uri=", redirectUri);
    AppendField(head + "&" + id + "&" + uri, "scope=", ScopeParam(scope));
    var base := head + "&" + id + "&" + uri + "&" + sc;
    if isWebApp && Given(state) {
      var st := "state=" + state.value;
      assert AuthorizeURL(clientId, redirectUri, scope, isWebApp, state) == base + ("&" + st);
      assert UrlFields(clientId, redirectUri, scope, isWebApp, state) == [head, id, uri, sc, st];
      JoinFive(head, id, uri, sc, st, '&');
    } else {
      assert AuthorizeURL(clientId, redirectUri, scope, isWebApp, state) == base + "";
      assert base + "" == base;
      assert UrlFields(clientId, redirectUri, scope, isWebApp, state) == [head, id, uri, sc];
      JoinFour(head, id, uri, sc, '&');
    }
  }

  lemma NoSeparatorInHead(isWebApp: bool)
    ensures '&' !in OAuthUrl + "?type=" + (if isWebApp then "web_server" else "user_agent")
  {
  }

  /** Because nothing is encoded, the query reads back field by field only when
      the redirect URI, the scope and the state hold no `&`. */
  lemma {:induction false} AuthorizeURLFields(clientId: nat, redirectUri: string, scope: Scope,
                                              isWebApp: bool, state: Option<string>)
    requires '&' !in redirectUri && '&' !in ScopeParam(scope)
    requires Given(state) ==> '&' !in state.value
    ensures Split(AuthorizeURL(clientId, redirectUri, scope, isWebApp, state), '&')
         == UrlFields(clientId, redirectUri, scope, isWebApp, state)
  {
    var fields := UrlFields(clientId, redirectUri, scope, isWebApp, state);
    NoSeparatorInDigits(DecimalString(clientId));
    NoSeparatorInHead(isWebApp);
    assert forall i :: 0 <= i < |fields| ==> '&' !in fields[i];
    UrlIsJoinedFields(clientId, redirectUri, scope, isWebApp, state);
    SplitJoin(fields, '&');
  }

  /** The credentials a connection carries: an API key, or an OAuth access
      token with an optional refresh token. */
  datatype Auth = ApiKey(key: string) | OAuth(accessToken: string, refreshToken: Option<string>)

  /** `Connection(**auth)`: `APIKey` wins over `AccessToken`; neither is a SyntaxError. */
  function SelectAuth(kwargs: map<string, string>): (r: Result<Auth, Failure>)
  {
    if "APIKey" in kwargs then Success(ApiKey(kwargs["APIKey"]))
    else if "AccessToken" in kwargs then
      Success(OAuth(kwargs["AccessToken"],
                    if "RefreshToken" in kwargs then Some(kwargs["RefreshToken"]) else None))
    else Failure(SyntaxError)
  }

  /** Exactly one authentication mode is chosen, and only from what was passed. */
  lemma SelectAuthModes(kwargs: map<string, string>)
    ensures SelectAuth(kwargs).Success? <==> "APIKey" in kwargs || "AccessToken" in kwargs
    ensures SelectAuth(kwargs).Failure? ==> SelectAuth(kwargs).error == SyntaxError
    ensures "APIKey" in kwargs ==> SelectAuth(kwargs) == Success(ApiKey(kwargs["APIKey"]))
    ensures "APIKey" !in kwargs && "AccessToken" in kwargs ==>
      && SelectAuth(kwargs).Success?
      && SelectAuth(kwargs).value.OAuth?
      && SelectAuth(kwargs).value.accessToken == kwargs["AccessToken"]
      && (SelectAuth(kwargs).value.refreshToken.Some? <==> "RefreshToken" in kwargs)
  {
  }
}
