/** `Helpers`: the next date with a given weekday, and narrowing a list of
    services to one location. */
module Helpers {
  import opened Wrappers
  import opened Text
  import opened Seqs
  import opened Values
  import opened Services

  /** Dates are day numbers; day `d` has weekday `d % 7`, Monday being 0 as
      for Python's `date.weekday()`. */
  function Weekday(date: int): (w: int)
    ensures 0 <= w < 7
  {
    date % 7
  }

  /** `NextDate(day)`, with today's date as a parameter: Python's `%` by 7 is
      never negative, as Dafny's is. */
  function NextDate(today: int, day: int): int
  {
    today + (day - Weekday(today)) % 7
  }

  /** The result is the first date from today on that falls on `day`. */
  lemma NextDateIsNearest(today: int, day: int)
    requires 0 <= day < 7
    ensures today <= NextDate(today, day) < today + 7
    ensures Weekday(NextDate(today, day)) == day
    ensures forall d :: today <= d < NextDate(today, day) ==> Weekday(d) != day
  {
    var k := (day - Weekday(today)) % 7;
    assert Weekday(today) + k == day || Weekday(today) + k == day + 7;
    assert today == 7 * (today / 7) + Weekday(today);
    forall d | today <= d < today + k
      ensures Weekday(d) != day
    {
      assert d == 7 * (today / 7) + Weekday(today) + (d - today);
      assert 0 <= Weekday(today) + (d - today) < 13;
    }
  }

  /** No step is taken exactly when today already falls on `day`. */
  lemma NextDateToday(today: int, day: int)
    requires 0 <= day < 7
    ensures NextDate(today, day) == today <==> Weekday(today) == day
  {
    NextDateIsNearest(today, day);
  }

  /** A service whose location name, or id, equals `key` ignoring case. */
  function AtLocationName(key: string): Service -> bool
  {
    (s: Service) => SameText(s.location.name, key)
  }

  function AtLocationId(key: string): Service -> bool
  {
    (s: Service) => SameText(s.location.id, key)
  }

  /** `FilterLocation`: a given name wins over a given id; neither keeps the list. */
  function FilterLocation(services: seq<Service>, locationName: Option<string>,
                          locationId: Option<string>): seq<Service>
  {
    if Given(locationName) then Filter(services, AtLocationName(locationName.value))
    else if Given(locationId) then Filter(services, AtLocationId(locationId.value))
    else services
  }

  /** The result keeps, in order and with their multiplicity, exactly the
      services at the named location (or, with no name, at the given id). */
  lemma FilterLocationSelects(services: seq<Service>, locationName: Option<string>,
                              locationId: Option<string>)
    ensures var r := FilterLocation(services, locationName, locationId);
            && IsSubsequence(r, services)
            && (Given(locationName) ==>
                  (forall s :: s in r <==> s in services && SameText(s.location.name, locationName.value))
                  && forall s :: multiset(r)[s] == (if SameText(s.location.name, locationName.value)
                                                    then multiset(services)[s] else 0))
            && (!Given(locationName) && Given(locationId) ==>
                  (forall s :: s in r <==> s in services && SameText(s.location.id, locationId.value))
                  && forall s :: multiset(r)[s] == (if SameText(s.location.id, locationId.value)
                                                    then multiset(services)[s] else 0))
            && (!Given(locationName) && !Given(locationId) ==> r == services)
  {
    if Given(locationName) {
      FilterKeepsExactly(services, AtLocationName(locationName.value));
      FilterMembership(services, AtLocationName(locationName.value));
      FilterIsSubsequence(services, AtLocationName(locationName.value));
    } else if Given(locationId) {
      FilterKeepsExactly(services, AtLocationId(locationId.value));
      FilterMembership(services, AtLocationId(locationId.value));
      FilterIsSubsequence(services, AtLocationId(locationId.value));
    } else {
      IsSubsequenceRefl(services);
    }
  }
}
