/** The contact cache of a connection: `getPeople` pulls every page of
    `people/getAll` into a dictionary keyed by person id, and `findContact`
    searches it. A Python dict keeps insertion order, which `findContact`
    exposes, so the cache is a `Store`: the ids in insertion order and the
    records by id. The server is a function `pages` from page number to the
    decoded reply of `_Post("people/getAll", page=n)`. */
module Contacts {
  import opened Wrappers
  import opened Text
  import opened Seqs
  import opened Values

  /** A cached record. `resolvedId` is the `"id"` key that `findContact`
      writes into the stored record when it resolves a match. */
  datatype Contact = Contact(
    firstName: string,
    middleName: string,
    lastName: string,
    email: string,
    resolvedId: Option<string>)

  /** The record stored for one person: the preferred name, when there is one,
      stands in for the first name. */
  function ToContact(p: RawPerson): Contact
  {
    Contact(if p.preferredName != "" then p.preferredName else p.firstname,
            p.middleName, p.lastname, p.email, None)
  }

  lemma ToContactFirstName(p: RawPerson)
    ensures p.preferredName != "" ==> ToContact(p).firstName == p.preferredName
    ensures p.preferredName == "" ==> ToContact(p).firstName == p.firstname
    ensures ToContact(p).resolvedId == None
  {
  }

  /** A Python dict from id to record: keys in insertion order and the records. */
  datatype Store = Store(order: seq<string>, entries: map<string, Contact>)
  {
    ghost predicate Valid()
    {
      && Distinct(order)
      && (forall k :: k in entries <==> k in order)
    }

    /** `d[k] = v`: a new key goes last, an existing key keeps its place. */
    function Put(k: string, v: Contact): (r: Store)
      requires Valid()
      ensures r.Valid()
      ensures r.entries == entries[k := v]
      ensures order <= r.order
    {
      if k in entries then Store(order, entries[k := v]) else Store(order + [k], entries[k := v])
    }
  }

  const EmptyStore := Store([], map[])

  /** `for person in persons: result[person["id"]] = {...}`. */
  function Absorb(st: Store, persons: seq<RawPerson>): (r: Store)
    requires st.Valid()
    ensures r.Valid()
    ensures st.order <= r.order
    decreases |persons|
  {
    if persons == [] then st
    else
      var last := persons[|persons| - 1];
      Absorb(st, persons[..|persons| - 1]).Put(last.id, ToContact(last))
  }

  /** Absorbing two lists one after the other absorbs their concatenation. */
  lemma {:induction false} AbsorbConcat(st: Store, a: seq<RawPerson>, b: seq<RawPerson>)
    requires st.Valid()
    ensures Absorb(st, a + b) == Absorb(Absorb(st, a), b)
    decreases |b|
  {
    if b == [] {
      assert a + b == a;
    } else {
      var init := b[..|b| - 1];
      var last := b[|b| - 1];
      AbsorbConcat(st, a, init);
      ConcatInit(a, b);
      var mid := Absorb(st, a);
      assert Absorb(st, a + b) == Absorb(st, a + init).Put(last.id, ToContact(last));
      assert Absorb(mid, b) == Absorb(mid, init).Put(last.id, ToContact(last));
    }
  }

  /** Position `j` holds the last person with id `id`. */
  predicate LastWith(persons: seq<RawPerson>, id: string, j: int)
  {
    0 <= j < |persons| && persons[j].id == id
    && forall k :: j < k < |persons| ==> persons[k].id != id
  }

  /** Some person in the list has id `id`. */
  predicate HasId(persons: seq<RawPerson>, id: string)
    decreases |persons|
  {
    persons != [] && (persons[|persons| - 1].id == id || HasId(persons[..|persons| - 1], id))
  }

  lemma {:induction false} HasIdAt(persons: seq<RawPerson>, id: string)
    ensures HasId(persons, id) <==> exists j :: 0 <= j < |persons| && persons[j].id == id
    decreases |persons|
  {
    if persons != [] {
      var n := |persons| - 1;
      var init := persons[..n];
      HasIdAt(init, id);
      if exists j :: 0 <= j < |persons| && persons[j].id == id {
        var j :| 0 <= j < |persons| && persons[j].id == id;
        if j < n {
          assert init[j].id == id;
        }
      }
      if exists j :: 0 <= j < |init| && init[j].id == id {
        var j :| 0 <= j < |init| && init[j].id == id;
        assert persons[j].id == id;
      }
    }
  }

  lemma {:induction false} AbsorbHasKeys(st: Store, persons: seq<RawPerson>, id: string)
    requires st.Valid()
    ensures id in Absorb(st, persons).entries <==> id in st.entries || HasId(persons, id)
    decreases |persons|
  {
    if persons != [] {
      var n := |persons| - 1;
      AbsorbHasKeys(st, persons[..n], id);
      assert Absorb(st, persons).entries
          == Absorb(st, persons[..n]).entries[persons[n].id := ToContact(persons[n])];
    }
  }

  /** Exactly the ids already stored and the ids of the persons are stored afterwards. */
  lemma AbsorbKeys(st: Store, persons: seq<RawPerson>, id: string)
    requires st.Valid()
    ensures id in Absorb(st, persons).entries <==>
            id in st.entries || exists j :: 0 <= j < |persons| && persons[j].id == id
  {
    AbsorbHasKeys(st, persons, id);
    HasIdAt(persons, id);
  }

  /** Every person is stored under its id, a later duplicate overwriting an
      earlier one. */
  lemma {:induction false} AbsorbLastWins(st: Store, persons: seq<RawPerson>, id: string, j: int)
    requires st.Valid()
    requires LastWith(persons, id, j)
    ensures id in Absorb(st, persons).entries
    ensures Absorb(st, persons).entries[id] == ToContact(persons[j])
    decreases |persons|
  {
    var n := |persons| - 1;
    var init := persons[..n];
    var before := Absorb(st, init);
    assert Absorb(st, persons).entries == before.entries[persons[n].id := ToContact(persons[n])];
    if j < n {
      assert persons[n].id != id;
      assert init[j] == persons[j];
      assert LastWith(init, id, j);
      AbsorbLastWins(st, init, id, j);
    }
  }

  /** An id none of the persons carries keeps its record. */
  lemma {:induction false} AbsorbKeepsOthers(st: Store, persons: seq<RawPerson>, id: string)
    requires st.Valid() && id in st.entries
    requires forall j :: 0 <= j < |persons| ==> persons[j].id != id
    ensures id in Absorb(st, persons).entries
    ensures Absorb(st, persons).entries[id] == st.entries[id]
    decreases |persons|
  {
    if persons != [] {
      var n := |persons| - 1;
      AbsorbKeepsOthers(st, persons[..n], id);
    }
  }

  /** One page of `people/getAll`, with the fields of its `people` object. */
  datatype Page = Page(status: string, page: int, perPage: int, total: int, onThisPage: int,
                       persons: seq<RawPerson>)

  /** `total - (page - 1) * per_page - on_this_page > 0`: more records remain. */
  predicate MoreRemain(p: Page)
  {
    p.total - (p.page - 1) * p.perPage - p.onThisPage > 0
  }

  /** `pull(page)` with the dictionary built so far: each level uses one unit
      of `fuel`, Python's recursion limit. A page whose status is not "ok"
      fails the assertion, and the partial dictionary is dropped. */
  function Pull(pages: int -> Page, page: int, acc: Store, fuel: nat): Result<Store, Failure>
    requires acc.Valid()
    decreases fuel
  {
    if fuel == 0 then Failure(RecursionError)
    else
      var resp := pages(page);
      if resp.status != "ok" then Failure(AssertionError)
      else
        var acc' := Absorb(acc, resp.persons);
        if MoreRemain(resp) then Pull(pages, resp.page + 1, acc', fuel - 1) else Success(acc')
  }

  /** `getPeople()`: pull from page 1 into an empty dictionary. */
  function FetchPeople(pages: int -> Page, fuel: nat): Result<Store, Failure>
  {
    Pull(pages, 1, EmptyStore, fuel)
  }

  /** The pages a pull starting at `start` reads: the first is `start`, each
      next one is the page after the one just read, exactly while records
      remain, and all of them are "ok". */
  ghost predicate Chain(pages: int -> Page, start: int, ps: seq<Page>)
  {
    && |ps| >= 1
    && ps[0] == pages(start)
    && (forall i :: 0 <= i < |ps| ==> ps[i].status == "ok")
    && (forall i :: 0 <= i < |ps| - 1 ==> MoreRemain(ps[i]) && ps[i + 1] == pages(ps[i].page + 1))
    && !MoreRemain(ps[|ps| - 1])
  }

  /** The pages read, without what is done with them. */
  function Walk(pages: int -> Page, start: int, fuel: nat): (r: Result<seq<Page>, Failure>)
    ensures r.Success? ==> Chain(pages, start, r.value) && |r.value| <= fuel
    decreases fuel
  {
    if fuel == 0 then Failure(RecursionError)
    else
      var resp := pages(start);
      if resp.status != "ok" then Failure(AssertionError)
      else if !MoreRemain(resp) then Success([resp])
      else
        match Walk(pages, resp.page + 1, fuel - 1)
        case Success(rest) => Success([resp] + rest)
        case Failure(f) => Failure(f)
  }

  /** The chain of pages is the only one the walk can read. */
  lemma {:induction false} WalkFindsChain(pages: int -> Page, start: int, fuel: nat, ps: seq<Page>)
    requires Chain(pages, start, ps) && |ps| <= fuel
    ensures Walk(pages, start, fuel) == Success(ps)
    decreases fuel
  {
    if |ps| > 1 {
      var rest := ps[1..];
      assert Chain(pages, ps[0].page + 1, rest) by {
        forall i | 0 <= i < |rest| - 1
          ensures MoreRemain(rest[i]) && rest[i + 1] == pages(rest[i].page + 1)
        {
          assert rest[i] == ps[i + 1] && rest[i + 1] == ps[i + 2];
        }
      }
      WalkFindsChain(pages, ps[0].page + 1, fuel - 1, rest);
      assert [ps[0]] + rest == ps;
    } else {
      assert ps == [ps[0]];
    }
  }

  /** All persons of a list of pages, in page order. */
  function AllPersons(ps: seq<Page>): seq<RawPerson>
  {
    if ps == [] then [] else ps[0].persons + AllPersons(ps[1..])
  }

  /** Pulling is walking the pages and absorbing their persons in page order. */
  lemma {:induction false} PullIsWalk(pages: int -> Page, page: int, acc: Store, fuel: nat)
    requires acc.Valid()
    ensures Pull(pages, page, acc, fuel) ==
            match Walk(pages, page, fuel)
            case Success(ps) => Success(Absorb(acc, AllPersons(ps)))
            case Failure(f) => Failure(f)
    decreases fuel
  {
    if fuel > 0 {
      var resp := pages(page);
      if resp.status == "ok" {
        var acc' := Absorb(acc, resp.persons);
        if MoreRemain(resp) {
          PullIsWalk(pages, resp.page + 1, acc', fuel - 1);
          match Walk(pages, resp.page + 1, fuel - 1)
          case Success(rest) =>
            assert ([resp] + rest)[1..] == rest;
            AbsorbConcat(acc, resp.persons, AllPersons(rest));
          case Failure(f) =>
        } else {
          assert AllPersons([resp]) == resp.persons + [] == resp.persons;
        }
      }
    }
  }

  /** `getPeople` succeeds exactly on a chain of "ok" pages from page 1, and
      its dictionary holds every person of those pages under its id, the last
      one read winning. */
  lemma FetchPeopleContents(pages: int -> Page, fuel: nat, id: string)
    requires FetchPeople(pages, fuel).Success?
    ensures Walk(pages, 1, fuel).Success? && Chain(pages, 1, Walk(pages, 1, fuel).value)
    ensures var st := FetchPeople(pages, fuel).value;
            var all := AllPersons(Walk(pages, 1, fuel).value);
            && st.Valid()
            && (id in st.entries <==> exists j :: 0 <= j < |all| && all[j].id == id)
            && (forall j :: LastWith(all, id, j) ==> st.entries[id] == ToContact(all[j]))
  {
    PullIsWalk(pages, 1, EmptyStore, fuel);
    var all := AllPersons(Walk(pages, 1, fuel).value);
    AbsorbKeys(EmptyStore, all, id);
    forall j | LastWith(all, id, j)
      ensures FetchPeople(pages, fuel).value.entries[id] == ToContact(all[j])
    {
      AbsorbLastWins(EmptyStore, all, id, j);
    }
  }

  /** A search: an exact id, or up to four text criteria (None and "" both
      mean "not given"), and whether to resolve matches into records. */
  datatype Query = Query(id: Option<string>, firstName: Option<string>, middleName: Option<string>,
                         lastName: Option<string>, email: Option<string>, resolve: bool)

  /** A given criterion must occur in the field, ignoring case. */
  predicate Criterion(term: Option<string>, field: string)
  {
    Given(term) ==> Contains(Lower(field), Lower(term.value))
  }

  predicate Matches(c: Contact, q: Query)
  {
    && Criterion(q.firstName, c.firstName)
    && Criterion(q.middleName, c.middleName)
    && Criterion(q.lastName, c.lastName)
    && Criterion(q.email, c.email)
  }

  predicate HasKeywords(q: Query)
  {
    Given(q.firstName) || Given(q.middleName) || Given(q.lastName) || Given(q.email)
  }

  /** The test `findContact` applies to each id of the cache. */
  function MatchesId(st: Store, q: Query): string -> bool
  {
    k => k in st.entries && Matches(st.entries[k], q)
  }

  /** The ids, in dictionary order, whose records match: every matching id
      of the cache, each once, and no other. */
  function MatchingIds(st: Store, q: Query): (r: seq<string>)
    requires st.Valid()
    ensures forall k :: k in r ==> k in st.entries && Matches(st.entries[k], q)
    ensures forall k :: k in st.entries && Matches(st.entries[k], q) ==> k in r
    ensures IsSubsequence(r, st.order) && Distinct(r)
  {
    var p := MatchesId(st, q);
    FilterMembership(st.order, p);
    FilterIsSubsequence(st.order, p);
    FilterDistinct(st.order, p);
    Filter(st.order, p)
  }

  /** A record with the `"id"` key written into it. */
  function Resolve(c: Contact, id: string): Contact
  {
    c.(resolvedId := Some(id))
  }

  /** The matched records in match order, each with its id written in. */
  function ResolvedRecords(entries: map<string, Contact>, ids: seq<string>): (r: seq<Contact>)
    requires forall k :: k in ids ==> k in entries
    ensures |r| == |ids|
    ensures forall i :: 0 <= i < |ids| ==> r[i] == Resolve(entries[ids[i]], ids[i])
  {
    if ids == [] then []
    else ResolvedRecords(entries, ids[..|ids| - 1]) + [Resolve(entries[ids[|ids| - 1]], ids[|ids| - 1])]
  }

  /** The cache's records after the matched ids have been written into them, in match order. */
  function ResolvedEntries(entries: map<string, Contact>, ids: seq<string>): map<string, Contact>
    requires forall k :: k in ids ==> k in entries
  {
    if ids == [] then entries
    else
      var last := ids[|ids| - 1];
      ResolvedEntries(entries, ids[..|ids| - 1])[last := Resolve(entries[last], last)]
  }

  /** Exactly the listed records gain their id; nothing is added or dropped. */
  lemma {:induction false} ResolvedEntriesAt(entries: map<string, Contact>, ids: seq<string>, k: string)
    requires forall k :: k in ids ==> k in entries
    ensures k in ResolvedEntries(entries, ids) <==> k in entries
    ensures k in entries ==>
              ResolvedEntries(entries, ids)[k] == if k in ids then Resolve(entries[k], k) else entries[k]
    decreases |ids|
  {
    if ids != [] {
      var init := ids[..|ids| - 1];
      ResolvedEntriesAt(entries, init, k);
      assert ids == init + [ids[|ids| - 1]];
    }
  }

  /** What `findContact` returns: records, or ids when `resolve=False`. */
  datatype Found = Records(records: seq<Contact>) | Ids(ids: seq<string>)

  const IdNotFound := "ID not found in contacts"
  const NoKeywords := "No keyword arguments specified"

  /** The result of `findContact` on the cache `st`. */
  function Search(st: Store, q: Query): Result<Found, Failure>
    requires st.Valid()
  {
    if Given(q.id) then
      if q.id.value in st.entries then Success(Records([st.entries[q.id.value]]))
      else Failure(Raised(IdNotFound))
    else if !HasKeywords(q) then Failure(Raised(NoKeywords))
    else
      var ids := MatchingIds(st, q);
      if q.resolve then Success(Records(ResolvedRecords(st.entries, ids))) else Success(Ids(ids))
  }

  /** The cache after `findContact`: a resolving search writes `"id"` into
      every matched record, in place. */
  function SearchStore(st: Store, q: Query): Store
    requires st.Valid()
  {
    if Given(q.id) || !HasKeywords(q) || !q.resolve then st
    else
      Store(st.order, ResolvedEntries(st.entries, MatchingIds(st, q)))
  }

  /** The id lookup returns the one stored record, or fails when the id is absent. */
  lemma SearchById(st: Store, q: Query)
    requires st.Valid() && Given(q.id)
    ensures q.id.value in st.entries ==> Search(st, q) == Success(Records([st.entries[q.id.value]]))
    ensures q.id.value !in st.entries ==> Search(st, q) == Failure(Raised("ID not found in contacts"))
    ensures SearchStore(st, q) == st
  {
  }

  /** Without an id, at least one text criterion is needed. */
  lemma SearchNeedsKeywords(st: Store, q: Query)
    requires st.Valid() && !Given(q.id)
    ensures Search(st, q).Failure? <==> !HasKeywords(q)
    ensures !HasKeywords(q) ==> Search(st, q) == Failure(Raised("No keyword arguments specified"))
  {
  }

  /** A keyword search returns exactly the ids whose records match every given
      criterion, each once, in dictionary order. */
  lemma SearchFindsExactly(st: Store, q: Query)
    requires st.Valid() && !Given(q.id) && HasKeywords(q) && !q.resolve
    ensures Search(st, q).Success? && Search(st, q).value.Ids?
    ensures var ids := Search(st, q).value.ids;
            && (forall k :: k in ids <==> k in st.entries && Matches(st.entries[k], q))
            && IsSubsequence(ids, st.order)
            && Distinct(ids)
  {
  }

  /** A resolving search returns one record per matching id, the ids being
      every matching id of the cache, each once, in dictionary order; each
      record has its id written in and is the cached record; the cache holds
      the same keys, and exactly the matched records have gained their id. */
  lemma SearchResolves(st: Store, q: Query)
    requires st.Valid() && !Given(q.id) && HasKeywords(q) && q.resolve
    ensures var ids := MatchingIds(st, q);
            && (forall k :: k in ids <==> k in st.entries && Matches(st.entries[k], q))
            && IsSubsequence(ids, st.order) && Distinct(ids)
    ensures var ids := MatchingIds(st, q);
            && Search(st, q).Success? && Search(st, q).value.Records?
            && |Search(st, q).value.records| == |ids|
            && (forall i :: 0 <= i < |ids| ==>
                  && ids[i] in SearchStore(st, q).entries
                  && Search(st, q).value.records[i] == SearchStore(st, q).entries[ids[i]]
                  && Search(st, q).value.records[i].resolvedId == Some(ids[i]))
    ensures SearchStore(st, q).Valid() && SearchStore(st, q).order == st.order
    ensures forall k :: k in st.entries ==>
              SearchStore(st, q).entries[k]
                == if Matches(st.entries[k], q) then Resolve(st.entries[k], k) else st.entries[k]
  {
    var p := MatchesId(st, q);
    var ids := MatchingIds(st, q);
    FilterKeepsExactly(st.order, p);
    forall k | k in st.entries
      ensures k in SearchStore(st, q).entries
      ensures SearchStore(st, q).entries[k]
                == if Matches(st.entries[k], q) then Resolve(st.entries[k], k) else st.entries[k]
    {
      ResolvedEntriesAt(st.entries, ids, k);
      if Matches(st.entries[k], q) {
        assert multiset(st.order)[k] > 0;
      }
    }
    forall k | k in SearchStore(st, q).entries
      ensures k in st.order
    {
      ResolvedEntriesAt(st.entries, ids, k);
    }
  }
}
