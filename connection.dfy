/** `ElvantoAPI.Connection`: the credentials it carries, the last reply it
    received and the contact cache that `getPeople` fills and `findContact`
    searches, with the methods that update them. */
module ElvantoApi {
  import opened Wrappers
  import opened Seqs
  import opened Values
  import opened Auth
  import opened Transport
  import opened Contacts

  class Connection {
    var auth: Auth
    /** The last decoded reply (`self.data`). */
    var data: Option<Json>
    /** `self.people`, which exists only once `getPeople` has succeeded. */
    var people: Option<Store>

    ghost predicate Valid()
      reads this
    {
      people.Some? ==> people.value.Valid()
    }

    /** A connection with credentials already chosen; `Connect` makes the
        choice `__init__` makes from its keyword arguments. */
    constructor (auth: Auth)
      ensures Valid()
      ensures this.auth == auth && data == None && people == None
    {
      this.auth := auth;
      data := None;
      people := None;
    }

    /** `_RefreshToken`: trade the refresh token for a new grant, take its
        tokens as the connection's credentials and return its lifetime. */
    method RefreshToken(tokens: string -> TokenGrant) returns (r: Result<int, Failure>)
      modifies this`auth
      ensures old(auth).ApiKey? ==> r == Failure(AttributeError("refresh_token")) && auth == old(auth)
      ensures old(auth).OAuth? && old(auth).refreshToken.None? ==> r == Failure(TypeError) && auth == old(auth)
      ensures old(auth).OAuth? && old(auth).refreshToken.Some? ==>
                && auth == Refreshed(old(auth), tokens)
                && r == Success(tokens(old(auth).refreshToken.value).expiresIn)
    {
      if auth.ApiKey? {
        return Failure(AttributeError("refresh_token"));
      }
      if auth.refreshToken.None? {
        return Failure(TypeError);
      }
      var grant := tokens(auth.refreshToken.value);
      auth := OAuth(grant.accessToken, grant.refreshToken);
      r := Success(grant.expiresIn);
    }

    /** `_Post(endpoint, **params)`, with `fuel` levels of recursion left. */
    method Post(endpoint: string, params: map<string, Json>, api: Request -> Json,
                tokens: string -> TokenGrant, fuel: nat) returns (r: Result<Json, Failure>)
      modifies this`auth, this`data
      ensures var s := PostSpec(old(auth), old(data), endpoint, params, api, tokens, fuel);
              r == s.outcome && auth == s.auth && data == s.data
      decreases fuel
    {
      if fuel == 0 {
        return Failure(RecursionError);
      }
      var info := api(Request(PostUrl(endpoint), CredentialFor(auth), params));
      data := Some(info);
      match Classify(info) {
        case Deliver =>
          r := Success(info);
        case Broken(f) =>
          r := Failure(f);
        case Expired =>
          if CanRefresh(auth) {
            var _ := RefreshToken(tokens);
            r := Post(endpoint, params, api, tokens, fuel - 1);
          } else {
            r := Success(ExpiredNotice);
          }
      }
    }

    /** `getPeople()`: pull every page into a fresh dictionary, which then
        replaces the cache; on failure the cache is left as it was. */
    method GetPeople(pages: int -> Page, fuel: nat) returns (r: Result<Store, Failure>)
      requires Valid()
      modifies this`people
      ensures Valid()
      ensures r == FetchPeople(pages, fuel)
      ensures r.Success? ==> people == Some(r.value)
      ensures r.Failure? ==> people == old(people)
    {
      var result := EmptyStore;
      var page := 1;
      var left := fuel;
      while true
        invariant result.Valid()
        invariant Pull(pages, page, result, left) == FetchPeople(pages, fuel)
        invariant people == old(people)
        decreases left
      {
        if left == 0 {
          return Failure(RecursionError);
        }
        var resp := pages(page);
        if resp.status != "ok" {
          return Failure(AssertionError);
        }
        result := AbsorbPersons(result, resp.persons);
        if !MoreRemain(resp) {
          people := Some(result);
          return Success(result);
        }
        page := resp.page + 1;
        left := left - 1;
      }
    }

    /** `findContact(...)`: search the cache. A resolving keyword search writes
        each matched id into its stored record. Before `getPeople` has
        succeeded there is no cache, and reading it raises; a call with
        neither an id nor a keyword raises before reading it. */
    method FindContact(q: Query) returns (r: Result<Found, Failure>)
      requires Valid()
      modifies this`people
      ensures Valid()
      ensures old(people).None? ==> people == old(people)
      ensures old(people).None? && !Given(q.id) && !HasKeywords(q) ==> r == Failure(Raised(NoKeywords))
      ensures old(people).None? && (Given(q.id) || HasKeywords(q)) ==> r == Failure(AttributeError("people"))
      ensures old(people).Some? ==>
                r == Search(old(people).value, q) && people == Some(SearchStore(old(people).value, q))
    {
      if Given(q.id) {
        if people.None? {
          return Failure(AttributeError("people"));
        }
        if q.id.value in people.value.entries {
          return Success(Records([people.value.entries[q.id.value]]));
        }
        return Failure(Raised(IdNotFound));
      }
      if !HasKeywords(q) {
        return Failure(Raised(NoKeywords));
      }
      if people.None? {
        return Failure(AttributeError("people"));
      }
      var st := people.value;
      var found, after := ScanStore(st, q);
      if q.resolve {
        SearchResolves(st, q);
      }
      people := Some(after);
      r := Success(found);
    }
  }

  /** `Connection(**auth)`: the credentials are chosen by `SelectAuth`, and
      when neither an API key nor an access token is passed, `__init__`
      raises SyntaxError and no connection is made. */
  method Connect(kwargs: map<string, string>) returns (r: Result<Connection, Failure>)
    ensures r.Failure? <==> !("APIKey" in kwargs || "AccessToken" in kwargs)
    ensures r.Failure? ==> r.error == SyntaxError
    ensures r.Success? ==>
              && fresh(r.value) && r.value.Valid()
              && Success(r.value.auth) == SelectAuth(kwargs)
              && r.value.data == None && r.value.people == None
  {
    SelectAuthModes(kwargs);
    match SelectAuth(kwargs)
    case Failure(f) =>
      r := Failure(f);
    case Success(auth) =>
      var c := new Connection(auth);
      r := Success(c);
  }

  /** The loop of `getPeople` over one page: store each person under its id. */
  method AbsorbPersons(st: Store, persons: seq<RawPerson>) returns (r: Store)
    requires st.Valid()
    ensures r == Absorb(st, persons)
  {
    r := st;
    for i := 0 to |persons|
      invariant r.Valid()
      invariant r == Absorb(st, persons[..i])
    {
      assert persons[..i + 1][..i] == persons[..i];
      r := r.Put(persons[i].id, ToContact(persons[i]));
    }
    assert persons[..|persons|] == persons;
  }

  /** One step of the `findContact` loop: the next id is in the cache, has not
      been seen, and the matches so far grow by it exactly when it matches. */
  lemma ScanStep(st: Store, q: Query, i: nat, ids: seq<string>)
    requires st.Valid() && i < |st.order|
    requires ids == Filter(st.order[..i], MatchesId(st, q))
    requires forall k :: k in ids ==> k in st.order[..i]
    ensures st.order[i] in st.entries && st.order[i] !in ids
    ensures Filter(st.order[..i + 1], MatchesId(st, q))
         == ids + (if Matches(st.entries[st.order[i]], q) then [st.order[i]] else [])
    ensures st.order[i] in st.order[..i + 1]
    ensures forall k :: k in st.order[..i] ==> k in st.order[..i + 1]
  {
    assert st.order[..i + 1][..i] == st.order[..i] && st.order[..i + 1][i] == st.order[i];
  }

  /** What the `findContact` loop has built after the first `i` ids: the
      matching ids so far, and, when resolving, their records and the cache
      with their ids written in. */
  ghost predicate ScanInv(st: Store, q: Query, i: nat, ids: seq<string>, records: seq<Contact>,
                          entries: map<string, Contact>)
    requires st.Valid() && i <= |st.order|
  {
    && ids == Filter(st.order[..i], MatchesId(st, q))
    && (forall k :: k in ids ==> k in st.order[..i])
    && (forall k :: k in ids ==> k in st.entries)
    && (q.resolve ==> records == ResolvedRecords(st.entries, ids) && entries == ResolvedEntries(st.entries, ids))
    && (!q.resolve ==> records == [] && entries == st.entries)
  }

  /** Resolving one more id appends its record and writes its id in. */
  lemma ResolvedGrow(entries: map<string, Contact>, ids: seq<string>, id: string)
    requires forall k :: k in ids ==> k in entries
    requires id in entries
    ensures forall k :: k in ids + [id] ==> k in entries
    ensures ResolvedRecords(entries, ids + [id]) == ResolvedRecords(entries, ids) + [Resolve(entries[id], id)]
    ensures ResolvedEntries(entries, ids + [id]) == ResolvedEntries(entries, ids)[id := Resolve(entries[id], id)]
  {
    assert (ids + [id])[..|ids|] == ids;
  }

  /** The loop body keeps `ScanInv` when the next record does not match. */
  lemma ScanSkip(st: Store, q: Query, i: nat, ids: seq<string>, records: seq<Contact>,
                 entries: map<string, Contact>)
    requires st.Valid() && i < |st.order|
    requires ScanInv(st, q, i, ids, records, entries)
    requires !Matches(st.entries[st.order[i]], q)
    ensures ScanInv(st, q, i + 1, ids, records, entries)
  {
    ScanStep(st, q, i, ids);
  }

  /** The loop body keeps `ScanInv` when the next record matches. */
  lemma ScanTake(st: Store, q: Query, i: nat, ids: seq<string>, records: seq<Contact>,
                 entries: map<string, Contact>)
    requires st.Valid() && i < |st.order|
    requires ScanInv(st, q, i, ids, records, entries)
    requires Matches(st.entries[st.order[i]], q)
    ensures var id := st.order[i];
            var person := Resolve(st.entries[id], id);
            if q.resolve then ScanInv(st, q, i + 1, ids + [id], records + [person], entries[id := person])
            else ScanInv(st, q, i + 1, ids + [id], records, entries)
  {
    var id := st.order[i];
    ScanStep(st, q, i, ids);
    ResolvedGrow(st.entries, ids, id);
    var ids' := ids + [id];
    assert ids' == Filter(st.order[..i + 1], MatchesId(st, q));
    assert forall k :: k in ids' ==> k in st.order[..i + 1];
    assert forall k :: k in ids' ==> k in st.entries;
  }

  /** The next id's current record is its original one. */
  lemma ScanCurrent(st: Store, q: Query, i: nat, ids: seq<string>, records: seq<Contact>,
                    entries: map<string, Contact>)
    requires st.Valid() && i < |st.order|
    requires ScanInv(st, q, i, ids, records, entries)
    ensures st.order[i] in entries && entries[st.order[i]] == st.entries[st.order[i]]
  {
    ScanStep(st, q, i, ids);
    ResolvedEntriesAt(st.entries, ids, st.order[i]);
  }

  /** The loop of `findContact` over the cache: collect the matching ids, or
      resolve the matching records, writing each id into its stored record. */
  method ScanStore(st: Store, q: Query) returns (found: Found, after: Store)
    requires st.Valid() && !Given(q.id) && HasKeywords(q)
    ensures Search(st, q) == Success(found)
    ensures after == SearchStore(st, q)
  {
    var ids: seq<string> := [];
    var records: seq<Contact> := [];
    var entries := st.entries;
    for i := 0 to |st.order|
      invariant ScanInv(st, q, i, ids, records, entries)
    {
      var id := st.order[i];
      ScanCurrent(st, q, i, ids, records, entries);
      var person := entries[id];
      if Matches(person, q) {
        ScanTake(st, q, i, ids, records, entries);
        if q.resolve {
          person := Resolve(person, id);
          entries := entries[id := person];
          records := records + [person];
        }
        ids := ids + [id];
      } else {
        ScanSkip(st, q, i, ids, records, entries);
      }
    }
    assert st.order[..|st.order|] == st.order;
    after := Store(st.order, entries);
    if q.resolve {
      found := Records(records);
    } else {
      found := Ids(ids);
    }
  }
}
