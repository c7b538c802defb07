# Elvanto API extensions, modelled in Dafny

This project models the logic of `ElvantoAPIExtensions.py`, a small Python client for the Elvanto church-management REST API. The model covers:

- **Authorization URL.** `_AuthorizeURL` builds the address a user logs in at, with no URL-encoding.
- **Credentials.** A connection carries an API key or an OAuth access token, plus an optional refresh token.
- **Transport.** `_Post` decides what happens around each request:
  - how the request URL is formed;
  - which credential goes with the request;
  - how a reply is read;
  - the refresh-and-retry cycle when the access token has expired.
- **Contact cache.** `getPeople` pulls every page of `people/getAll` into a dictionary keyed by person id. `findContact` searches that dictionary by exact id, or by case-insensitive substrings combined with AND. A resolving search writes each match's id into the cached record.
- **Helpers.** `NextDate` finds the next date with a given weekday. `FilterLocation` narrows a list of services to one location, by name or else by id.
- **Service reshaping.** A service record is reshaped as follows:
  - plan items are classified as headers, items or songs;
  - each volunteer gets a display name;
  - the `by*` role lookups answer with the volunteers of the first matching role only;
  - the `songs` field is always `None`.

Modules:

| module | file | contents |
|---|---|---|
| `Wrappers` | `wrappers.dfy` | `Option`, `Result` |
| `Text` | `text.dfy` | Python's `lower()`, `in` on strings, `join`/`split`, `str`/`int` of naturals |
| `Seqs` | `seqs.dfy` | `list(filter(...))`, `next(filter(...))` and subsequences |
| `Values` | `values.dfy` | decoded JSON, truthiness, Python exceptions as values, person entries |
| `Auth` | `auth.dfy` | `_AuthorizeURL`, the authentication mode, `Connection.__init__`'s choice |
| `Transport` | `transport.dfy` | `_Post`: URL, credentials, reply classification, refresh and retry, as a specification function |
| `Contacts` | `contacts.dfy` | the contact dictionary, pagination, search, as specification functions |
| `ElvantoApi` | `connection.dfy` | class `Connection` with `auth`, `data` and `people` fields and the methods that update them, proved against `Transport` and `Contacts` |
| `Helpers` | `helpers.dfy` | `NextDate`, `FilterLocation` |
| `Services` | `services.dfy` | plan, volunteers, display names, role lookups, songs |

How the Python behaviour is represented:

- **Exceptions** are the `Failure` datatype, and operations that can raise return a `Result`.
- **Arguments that can be `None`** become `Option`. Python treats `None` and `""` alike, and so does `Given`.
- **Dictionary order.** A Python dict keeps insertion order, and `findContact` returns matches in that order. The cache is therefore a `Store`: the ids in insertion order, plus the records by id.
- **External calls.** The HTTP exchange is a parameter `api` from request to decoded reply. The token endpoint is a parameter `tokens` from refresh token to the new grant. The paged server is a parameter `pages` from page number to page.
- **Recursion depth.** `_Post` and `getPeople`'s `pull` recurse with no bound. Each therefore takes a `fuel` argument standing for Python's recursion limit, and running out of fuel is a `RecursionError`.

## Model

| member | source | states |
|---|---|---|
| Auth.ScopeListIsJoined | ElvantoAPIExtensions.py:25-26 | a list of scopes gives the same URL as the comma-joined string |
| Auth.ScopeListRoundTrip | ElvantoAPIExtensions.py:25-26 | scope names without commas split back out of the scope parameter |
| Auth.UserAgentIgnoresState | ElvantoAPIExtensions.py:35-36 | a non-web-app URL does not depend on the state |
| Auth.WebAppStateSuffix | ElvantoAPIExtensions.py:32-34 | a web-app URL ends in `&state=<state>` exactly when the state is neither None nor empty |
| Auth.AuthorizeURLFields | ElvantoAPIExtensions.py:27-36 | when the URI, scope and state hold no `&`, the URL splits at `&` into exactly its type, client id, redirect URI, scope and state fields; the id is the decimal client id |
| Auth.SelectAuthModes | ElvantoAPIExtensions.py:72-83 | `APIKey` wins over `AccessToken`; the refresh token is present exactly when passed; with neither key the result is SyntaxError |
| Text.ContainsAt | ElvantoAPIExtensions.py:195-198 | substring containment holds exactly when the needle occurs at some offset |
| Text.DecimalRoundTrip | ElvantoAPIExtensions.py:28 | `str` of a natural reads back as the same number |
| Values.IntOfDecimalString | ElvantoAPIExtensions.py:119 | `int()` of an error code reads the same whether the code is sent as text or as an integer |
| Transport.TrailingPeriodAsWritten | ElvantoAPIExtensions.py:111 | as written, `people/getAll.` gets a doubled period and `.x` loses its period |
| Transport.PostUrlIgnoresTrailingPeriod | ElvantoAPIExtensions.py:111 | the corrected URL is `api_url + endpoint + ".json"`, with or without a trailing period in the endpoint |
| Transport.PostUrlAgreesOnPlainEndpoints | ElvantoAPIExtensions.py:111 | the two guards build the same URL for endpoints without a trailing period |
| Transport.ClassifyStatus | ElvantoAPIExtensions.py:117-119 | an "ok" reply is delivered; a reply counts as an expired token exactly when its status is not "ok" and `int(error.code)` is 121 |
| Transport.PostSpec | ElvantoAPIExtensions.py:100-127 | a call sends at most one request per level of recursion |
| Transport.PostDeliversReply | ElvantoAPIExtensions.py:118-127 | a delivered reply is returned as is after one request, with the credentials unchanged |
| Transport.PostExpiredWithoutRefresh | ElvantoAPIExtensions.py:119-126 | an expired token with no refresh token returns `{"status": "Token expired please renew"}` after one request |
| Transport.PostRefreshesAndRetries | ElvantoAPIExtensions.py:119-122 | with a refresh token, the credentials are refreshed and the result is that of the same call made again |
| Transport.PostRetryIsTwoRequests | ElvantoAPIExtensions.py:119-122 | an expiry followed by success is exactly two requests, and the second carries the new access token |
| Transport.PostRetriesWithoutBound | ElvantoAPIExtensions.py:118-122 | a server that always reports expiry drives the call into the recursion limit, one request per level |
| Transport.OAuthPostFailsAsWritten | ElvantoAPIExtensions.py:113-116 | as written, every call on an OAuth connection raises AttributeError before any request |
| Transport.ApiKeyExpiryFailsAsWritten | ElvantoAPIExtensions.py:118-126 | as written, an expired-token reply on an API-key connection raises, where the corrected call returns the notice |
| Transport.PostAgreesWithAsWritten | ElvantoAPIExtensions.py:111-127 | on an API-key connection, for every other reply and every plain endpoint, the corrected call returns what the written one returns |
| ElvantoApi.Connection.constructor | ElvantoAPIExtensions.py:63-83 | a new connection has the given credentials, no reply and no contact cache |
| ElvantoApi.Connect | ElvantoAPIExtensions.py:63-83 | `Connection(**auth)` raises SyntaxError exactly when neither `APIKey` nor `AccessToken` is passed; otherwise it gives a new connection whose credentials are those `SelectAuth` chooses, with no reply and no cache |
| ElvantoApi.Connection.RefreshToken | ElvantoAPIExtensions.py:85-98 | the connection takes the new grant's tokens and returns its lifetime; an API-key connection raises AttributeError; a missing refresh token raises TypeError |
| ElvantoApi.Connection.Post | ElvantoAPIExtensions.py:100-127 | the result, the credentials and the last reply left behind are those of `PostSpec` |
| ElvantoApi.Connection.GetPeople | ElvantoAPIExtensions.py:151-171 | returns `FetchPeople`; on success the cache is replaced by the new dictionary, and on failure it is left as it was |
| ElvantoApi.Connection.FindContact | ElvantoAPIExtensions.py:173-203 | returns `Search` and leaves the cache as `SearchStore`; without a cache, the missing keywords error comes first and reading the cache otherwise raises AttributeError |
| ElvantoApi.AbsorbPersons | ElvantoAPIExtensions.py:158-164 | the loop over one page stores each person under its id, as `Absorb` does |
| ElvantoApi.ScanStore | ElvantoAPIExtensions.py:192-203 | the loop over the cache returns `Search`'s answer and leaves the cache as `SearchStore` |
| Contacts.ToContactFirstName | ElvantoAPIExtensions.py:159-164 | the stored first name is the preferred name when there is one, else the first name |
| Contacts.Store.Put | ElvantoAPIExtensions.py:159 | assigning a key gives the records `entries[k := v]`, keeps the dictionary well-formed, and keeps the existing keys in their order at the front |
| Contacts.Absorb | ElvantoAPIExtensions.py:158-164 | absorbing a page keeps the dictionary well-formed and never reorders existing keys |
| Contacts.AbsorbConcat | ElvantoAPIExtensions.py:158-164 | absorbing two lists in turn is absorbing their concatenation |
| Contacts.AbsorbKeys | ElvantoAPIExtensions.py:158-164 | an id is in the dictionary exactly when it was there before or some absorbed person has it |
| Contacts.AbsorbLastWins | ElvantoAPIExtensions.py:158-164 | an id's record comes from the last person with that id |
| Contacts.AbsorbKeepsOthers | ElvantoAPIExtensions.py:158-164 | ids no absorbed person has keep their records |
| Contacts.Walk | ElvantoAPIExtensions.py:154-167 | the pages read start at the requested page, each next one is `page + 1` exactly while records remain, and all have status "ok" |
| Contacts.WalkFindsChain | ElvantoAPIExtensions.py:154-167 | that chain of pages is the only one the pull can read |
| Contacts.PullIsWalk | ElvantoAPIExtensions.py:154-169 | pulling is absorbing the persons of the walked pages in page order; any failure is the walk's failure |
| Contacts.FetchPeopleContents | ElvantoAPIExtensions.py:151-171 | on success the dictionary holds exactly the ids of the pages read from page 1, each with the record of the last person read with that id |
| Contacts.MatchingIds | ElvantoAPIExtensions.py:193-198 | an id is kept exactly when it is in the cache and its record meets every given criterion; the kept ids are in dictionary order, each once |
| Contacts.ResolvedRecords | ElvantoAPIExtensions.py:199-202 | one record per matched id, in the same order, each with its id written in |
| Contacts.ResolvedEntriesAt | ElvantoAPIExtensions.py:199-201 | writing the ids changes exactly the matched records and adds or drops nothing |
| Contacts.SearchById | ElvantoAPIExtensions.py:184-187 | a given id returns its one record, or raises "ID not found in contacts"; the cache is unchanged |
| Contacts.SearchNeedsKeywords | ElvantoAPIExtensions.py:189-190 | without an id, the search fails exactly when no criterion is given |
| Contacts.SearchFindsExactly | ElvantoAPIExtensions.py:192-203 | a non-resolving search returns exactly the matching ids, each once, in dictionary order |
| Contacts.SearchResolves | ElvantoAPIExtensions.py:192-203 | a resolving search returns one record for every matching id of the cache, each once, in dictionary order; each has its id written in and is the cached record; exactly the matched cached records gain their id, and the key order is unchanged |
| Seqs.FilterKeepsExactly | ElvantoAPIExtensions.py:209-210 | `list(filter(...))` keeps exactly the elements that pass, as often as they occur |
| Seqs.FilterIsSubsequence | ElvantoAPIExtensions.py:209-210 | the kept elements keep their order |
| Helpers.Weekday | ElvantoAPIExtensions.py:217 | a weekday is 0 (Monday) to 6 |
| Helpers.NextDateIsNearest | ElvantoAPIExtensions.py:214-218 | for a day in 0..6, the result is 0 to 6 days from today, falls on that day, and no earlier date from today does |
| Helpers.NextDateToday | ElvantoAPIExtensions.py:214-218 | the result is today exactly when today falls on that day |
| Helpers.FilterLocationSelects | ElvantoAPIExtensions.py:208-211 | a given name keeps, in order, exactly the services at that location name ignoring case, and the id is ignored; otherwise a given id does the same with the location id; otherwise the list is returned unchanged |
| Services.ClassifyItemRule | ElvantoAPIExtensions.py:403-409 | a song payload makes a song; otherwise a heading of 1 makes a header; otherwise an item; the id and title are kept |
| Services.MakePlanShape | ElvantoAPIExtensions.py:411-415 | no `plans` section gives None; no `plan` key gives an empty plan; an empty `plan` list raises IndexError; otherwise the first plan's items, in order |
| Services.MakeServiceShape | ElvantoAPIExtensions.py:266-415 | building fails, with IndexError, exactly when the volunteer plan list (line 322) or the `plan` list (line 414) is empty; otherwise the service keeps the record's fields, the roster is the first volunteer plan's roles, songs are None, and a missing section is None |
| Services.SongsAlwaysNone | ElvantoAPIExtensions.py:292-298 | songs are None even when the record has them |
| Services.DisplayNameParts | ElvantoAPIExtensions.py:311-315 | the display name is the preferred or first name, the middle name if any, and the last name, joined by single spaces; those parts split back out when none holds a space |
| Seqs.FirstIndex | ElvantoAPIExtensions.py:338-339 | `next(filter(...))`: the index of the first element that passes, with none before it, or None exactly when none passes |
| Seqs.FirstIndexPrefix | ElvantoAPIExtensions.py:338-339 | appending elements after a passing one does not change which element passes first |
| Services.LookupFirstRole | ElvantoAPIExtensions.py:338-357 | a lookup answers with the first matching role's volunteers, in order and with their display names; a null volunteer list raises TypeError |
| Services.LookupNoMatch | ElvantoAPIExtensions.py:338-357 | a lookup raises StopIteration exactly when no role matches |
| Services.LookupIgnoresLaterRoles | ElvantoAPIExtensions.py:338-357 | roles after a matching one never change the answer |

## Left out

- HTTP, JSON decoding, the `requests` session and the `data` response object are not modelled. `Connection.data` holds the decoded reply instead of the response.
- `_GetTokens` (lines 38-60) and the token endpoint's HTTP exchange are left out. They are pure I/O, and the token endpoint is the parameter `tokens`.
- `ServicesUpcoming`, `ServicesOnDate`, and the `servicesOnDay`/`servicesOnDate`/`servicesUpcoming` wrappers are left out. They are `_Post` calls with date arguments, and their filtering is `FilterLocation`.
- `utc_to_local`, `Service.date` and `__repr__` are left out. They depend on the system clock, the time zone and `strftime`.
- `Enums.Days` is not modelled separately; it is the numbering 0 (Monday) to 6 used by `Helpers.Weekday`.
- The commented-out code in `Volunteers.__init__` is left out.
- Helpers.NextDate: today's date is a parameter, a day number whose weekday is that number mod 7, instead of a read of the clock.
- Text.Lower: only ASCII letters are case-folded; Python's `lower()` also folds other scripts.
- Values.IntOf: reads only strings of ASCII digits; Python's `int()` also accepts signs, surrounding whitespace and underscores.
- Floating-point JSON numbers are not modelled, so a heading of `1.0` is not a header here.
- Values.RawPerson: a JSON null in a name field is read as `""`. That gives three differences from Python, where the field is `None`:
  - `Person.name` formats a null `lastname` as `"None"`, and a null `firstname` as `"None"` when there is no preferred name; `DisplayName` uses `""` for both.
  - In `findContact`, a given criterion on a null field calls `None.lower()`, which raises AttributeError; the model searches `""` instead.
  - The preferred-name and middle-name tests are unaffected, because `None` and `""` are both falsy.
- Contacts.Page: `page`, `total`, `per_page` and `on_this_page` are integers; the `int()` conversion of `page` on line 165 is not modelled.
- Contacts.Pull: the recursion limit is the `fuel` argument. Python's actual limit and the stack depth used by each level are not modelled.
- ElvantoApi.Connection.Post: same as for `Pull`; the `fuel` argument stands for the recursion limit.
- ElvantoApi.Connection.GetPeople: the page server is the parameter `pages`, not a call of `Post`. The following effects of `_Post` at line 155 are therefore not modelled:
  - the method's frame leaves `auth` and `data` unchanged, although each page request through `_Post` sets `self.data` (lines 114/116);
  - on error code 121, each page request may refresh the credentials (line 121);
  - a page request can raise inside `_Post` (a KeyError or a RecursionError, say), which `pages` cannot express.
- ElvantoApi.Connection.FindContact: records are values, so sharing is not modelled. The written id shows in the cache because the cache is updated, not because the returned record and the cached one are the same object.
- `assert resp["status"] == "ok"` (line 156) is modelled as always active; under `python -O` it is stripped.
- Auth.AuthorizeURL: the client id is a natural number; `str()` of a negative id is not modelled.
- Nothing bounds the refresh-and-retry at line 122. A server that keeps reporting an expired token ends in the recursion limit (`PostRetriesWithoutBound`).
- Line 414 indexes `[0]`, so a `plans` section with an empty `plan` list raises IndexError (`MakePlanShape`). Line 322 does the same for an empty volunteer `plan` list (`MakeServiceShape`).

## Findings

| source | as written | input that shows it | evidently intended | confidence | as-written member | corrected member |
|---|---|---|---|---|---|---|
| ElvantoAPIExtensions.py:111 | `endpoint[:-1] == '.'` compares everything but the last character with a period | endpoint `people/getAll.` gives `.../people/getAll..json` | `endpoint[-1:] == '.'`, so a trailing period is not doubled | medium; not executed | Transport.TrailingPeriodAsWritten | Transport.PostUrlIgnoresTrailingPeriod |
| ElvantoAPIExtensions.py:113 | `if self.API_Key:` reads an attribute that an OAuth connection never sets | `Connection(AccessToken="t")._Post("people/getAll")` raises AttributeError before any request | test for the attribute (or initialise both), so OAuth requests use the `Authorization` header | high; not executed | Transport.OAuthPostFailsAsWritten | ElvantoApi.Connection.Post |
| ElvantoAPIExtensions.py:120 | `if self.refresh_token:` reads an attribute that an API-key connection never sets | an API-key connection receiving error code 121 raises AttributeError | treat a missing refresh token as none and return the "Token expired please renew" notice | medium; not executed | Transport.ApiKeyExpiryFailsAsWritten | Transport.PostExpiredWithoutRefresh |
