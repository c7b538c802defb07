/** `Service`: the view over one service record of `services/getAll`, its plan
    of items, its volunteer roster with the `by*` role lookups, and the songs
    field. */
module Services {
  import opened Wrappers
  import opened Text
  import opened Seqs
  import opened Values

  /** `{id, name}` of the service type or the location. */
  datatype Ref = Ref(id: string, name: string)

  /** One entry of a plan's `items.item` list. */
  datatype RawItem = RawItem(id: string, title: string, heading: Json, description: string,
                             duration: string, song: Json)

  /** The `plans` section: `plan` may be missing; each plan lists its items. */
  datatype RawPlans = RawPlans(plan: Option<seq<seq<RawItem>>>)

  /** One role of a volunteer plan's `positions.position` list; `volunteers`
      is None when the role's `volunteers` entry is null. */
  datatype RawRole = RawRole(
    departmentId: string, departmentName: string,
    subDepartmentId: string, subDepartmentName: string,
    positionId: string, positionName: string,
    volunteers: Option<seq<RawPerson>>)

  /** A service record as received; None stands for a missing section key.
      `volunteers` lists the volunteer plans, each with its roles. */
  datatype RawService = RawService(
    id: string, name: string, date: string, serviceType: Ref, location: Ref,
    songs: Option<Json>, volunteers: Option<seq<seq<RawRole>>>, plans: Option<RawPlans>)

  /** A plan item: a header, a generic item, or a song. */
  datatype PlanItem =
    | Header(id: string, title: string)
    | Item(id: string, title: string, description: string, duration: string)
    | Song(id: string, title: string, description: string, duration: string, song: Json)

  /** The reshaped service. `songs` is a list type whose constructor returns
      None, so it is never anything but None. */
  datatype Service = Service(
    id: string, name: string, date: string, serviceType: Ref, location: Ref,
    songs: Option<seq<Json>>, volunteers: Option<seq<RawRole>>, plan: Option<seq<PlanItem>>)

  /** Python's `heading == 1`, which `True` also satisfies. */
  predicate IsOne(v: Json)
  {
    v == JInt(1) || v == JBool(true)
  }

  /** `__generateObject`: a song payload makes a song, else a heading of 1 a header. */
  function ClassifyItem(raw: RawItem): PlanItem
  {
    if Truthy(raw.song) then Song(raw.id, raw.title, raw.description, raw.duration, raw.song)
    else if IsOne(raw.heading) then Header(raw.id, raw.title)
    else Item(raw.id, raw.title, raw.description, raw.duration)
  }

  /** Every item keeps its id and title, and its kind follows the tag rule. */
  lemma ClassifyItemRule(raw: RawItem)
    ensures ClassifyItem(raw).id == raw.id && ClassifyItem(raw).title == raw.title
    ensures ClassifyItem(raw).Song? <==> Truthy(raw.song)
    ensures ClassifyItem(raw).Header? <==> !Truthy(raw.song) && IsOne(raw.heading)
    ensures ClassifyItem(raw).Item? <==> !Truthy(raw.song) && !IsOne(raw.heading)
    ensures ClassifyItem(raw).Song? ==> ClassifyItem(raw).song == raw.song
  {
  }

  /** `Plan()`: None without a `plans` section, empty without a `plan` key,
      otherwise the first plan's items, classified; an empty `plan` list is an
      IndexError. */
  function MakePlan(plans: Option<RawPlans>): Result<Option<seq<PlanItem>>, Failure>
  {
    if plans.None? then Success(None)
    else if plans.value.plan.None? then Success(Some([]))
    else if |plans.value.plan.value| == 0 then Failure(IndexError)
    else
      var items := plans.value.plan.value[0];
      Success(Some(seq(|items|, i requires 0 <= i < |items| => ClassifyItem(items[i]))))
  }

  /** The plan has the first plan's items, as many and in the same order. */
  lemma MakePlanShape(plans: Option<RawPlans>)
    ensures plans.None? <==> MakePlan(plans) == Success(None)
    ensures plans.Some? && plans.value.plan.None? ==> MakePlan(plans) == Success(Some([]))
    ensures MakePlan(plans).Failure? <==> plans.Some? && plans.value.plan == Some([])
    ensures plans.Some? && plans.value.plan.Some? && |plans.value.plan.value| > 0 ==>
              var items := plans.value.plan.value[0];
              && MakePlan(plans).Success? && MakePlan(plans).value.Some?
              && |MakePlan(plans).value.value| == |items|
              && forall i :: 0 <= i < |items| ==> MakePlan(plans).value.value[i] == ClassifyItem(items[i])
  {
  }

  /** `Service(serviceDict)`: the roster is the first volunteer plan's roles,
      and building it or the plan can fail on an empty list. */
  function MakeService(raw: RawService): Result<Service, Failure>
  {
    var volunteers :=
      if raw.volunteers.None? then Success(None)
      else if |raw.volunteers.value| == 0 then Failure(IndexError)
      else Success(Some(raw.volunteers.value[0]));
    if volunteers.Failure? then Failure(volunteers.error)
    else
      match MakePlan(raw.plans)
      case Failure(f) => Failure(f)
      case Success(plan) =>
        Success(Service(raw.id, raw.name, raw.date, raw.serviceType, raw.location,
                        None, volunteers.value, plan))
  }

  /** Building the service fails exactly when the volunteer plan list or the
      `plan` list is empty, with IndexError. Otherwise the service keeps the
      record's fields. Its songs are always None, whether or not the record
      has them. A missing section reads as None, never as empty. */
  lemma MakeServiceShape(raw: RawService)
    ensures MakeService(raw).Failure? <==> raw.volunteers == Some([]) || MakePlan(raw.plans).Failure?
    ensures MakeService(raw).Failure? ==> MakeService(raw).error == IndexError
    ensures MakeService(raw).Success? ==>
            var s := MakeService(raw).value;
            && s.id == raw.id && s.name == raw.name && s.date == raw.date
            && s.serviceType == raw.serviceType && s.location == raw.location
            && s.songs == None
            && (s.volunteers.None? <==> raw.volunteers.None?)
            && (raw.volunteers.Some? ==> s.volunteers == Some(raw.volunteers.value[0]))
            && (s.plan.None? <==> raw.plans.None?)
            && MakePlan(raw.plans) == Success(s.plan)
  {
    MakePlanShape(raw.plans);
  }

  /** A record with songs still has no songs. */
  lemma SongsAlwaysNone(raw: RawService)
    requires raw.songs.Some?
    requires MakeService(raw).Success?
    ensures MakeService(raw).value.songs == None
  {
  }

  /** `Person.name`: preferred name (or first name), a space, the middle name
      and a space when there is one, then the last name. */
  function DisplayName(p: RawPerson): string
  {
    (if p.preferredName != "" then p.preferredName else p.firstname)
    + " " + (if p.middleName != "" then p.middleName + " " else "") + p.lastname
  }

  /** The parts a display name is made of. */
  function NameParts(p: RawPerson): seq<string>
  {
    [if p.preferredName != "" then p.preferredName else p.firstname]
    + (if p.middleName != "" then [p.middleName] else [])
    + [p.lastname]
  }

  /** The display name is its parts joined with single spaces, so the parts can
      be read back when none of them holds a space. */
  lemma DisplayNameParts(p: RawPerson)
    ensures DisplayName(p) == Join(NameParts(p), ' ')
    ensures (forall i :: 0 <= i < |NameParts(p)| ==> ' ' !in NameParts(p)[i]) ==>
            Split(DisplayName(p), ' ') == NameParts(p)
  {
    var given := if p.preferredName != "" then p.preferredName else p.firstname;
    var parts := NameParts(p);
    if p.middleName != "" {
      assert parts == [given, p.middleName, p.lastname];
      assert parts[1..] == [p.middleName, p.lastname];
      assert parts[1..][1..] == [p.lastname];
      assert Join(parts[1..][1..], ' ') == p.lastname;
      assert Join(parts[1..], ' ') == p.middleName + " " + p.lastname;
      assert DisplayName(p) == given + " " + (p.middleName + " " + p.lastname);
    } else {
      assert parts == [given, p.lastname];
      assert parts[1..] == [p.lastname];
      assert Join(parts[1..], ' ') == p.lastname;
      assert DisplayName(p) == given + " " + p.lastname;
    }
    if forall i :: 0 <= i < |parts| ==> ' ' !in parts[i] {
      SplitJoin(parts, ' ');
    }
  }

  /** `Volunteers.Person`: the id and display name of one volunteer. */
  datatype Volunteer = Volunteer(id: string, name: string)

  function VolunteerOf(p: RawPerson): Volunteer
  {
    Volunteer(p.id, DisplayName(p))
  }

  /** The six fields a role can be looked up by. */
  datatype RoleField =
    | DepartmentId | DepartmentName
    | SubDepartmentId | SubDepartmentName
    | PositionId | PositionName

  function FieldOf(role: RawRole, field: RoleField): string
  {
    match field
    case DepartmentId => role.departmentId
    case DepartmentName => role.departmentName
    case SubDepartmentId => role.subDepartmentId
    case SubDepartmentName => role.subDepartmentName
    case PositionId => role.positionId
    case PositionName => role.positionName
  }

  predicate RoleMatches(role: RawRole, field: RoleField, key: string)
  {
    SameText(FieldOf(role, field), key)
  }

  /** The role filter of a lookup. */
  function Matcher(field: RoleField, key: string): RawRole -> bool
  {
    role => RoleMatches(role, field, key)
  }

  /** The answer of a lookup whose first matching role is at `i`. */
  function LookupAt(roles: seq<RawRole>, i: nat): Result<seq<Volunteer>, Failure>
    requires i < |roles|
  {
    match roles[i].volunteers
    case None => Failure(TypeError)
    case Some(ps) => Success(seq(|ps|, j requires 0 <= j < |ps| => VolunteerOf(ps[j])))
  }

  /** `byDepartmentId` ... `byPositionName`: the volunteers of the first
      matching role only; no match is StopIteration, a null volunteer list a
      TypeError. */
  function Lookup(roles: seq<RawRole>, field: RoleField, key: string): Result<seq<Volunteer>, Failure>
  {
    match FirstIndex(roles, Matcher(field, key))
    case None => Failure(StopIteration)
    case Some(i) => LookupAt(roles, i)
  }

  /** A lookup answers with the first matching role's volunteers, in order,
      and fails with TypeError when that role's volunteer list is null. */
  lemma LookupFirstRole(roles: seq<RawRole>, field: RoleField, key: string, i: nat)
    requires i < |roles| && RoleMatches(roles[i], field, key)
    requires forall j :: 0 <= j < i ==> !RoleMatches(roles[j], field, key)
    ensures roles[i].volunteers.None? ==> Lookup(roles, field, key) == Failure(TypeError)
    ensures roles[i].volunteers.Some? ==>
              var ps := roles[i].volunteers.value;
              && Lookup(roles, field, key).Success?
              && |Lookup(roles, field, key).value| == |ps|
              && forall j :: 0 <= j < |ps| ==>
                   Lookup(roles, field, key).value[j] == Volunteer(ps[j].id, DisplayName(ps[j]))
  {
    var r := FirstIndex(roles, Matcher(field, key));
    assert Matcher(field, key)(roles[i]);
    if r != Some(i) {
      assert false;
    }
  }

  /** A lookup fails with StopIteration exactly when no role matches. */
  lemma LookupNoMatch(roles: seq<RawRole>, field: RoleField, key: string)
    ensures Lookup(roles, field, key) == Failure(StopIteration) <==>
            forall j :: 0 <= j < |roles| ==> !RoleMatches(roles[j], field, key)
  {
    var r := FirstIndex(roles, Matcher(field, key));
    if r.Some? {
      assert Matcher(field, key)(roles[r.value]);
    } else {
      forall j | 0 <= j < |roles|
        ensures !RoleMatches(roles[j], field, key)
      {
        assert !Matcher(field, key)(roles[j]);
      }
    }
  }

  /** Roles after a matching one never change the answer. */
  lemma LookupIgnoresLaterRoles(roles: seq<RawRole>, more: seq<RawRole>,
                                field: RoleField, key: string)
    requires exists j :: 0 <= j < |roles| && RoleMatches(roles[j], field, key)
    ensures Lookup(roles + more, field, key) == Lookup(roles, field, key)
  {
    var m := Matcher(field, key);
    var j :| 0 <= j < |roles| && RoleMatches(roles[j], field, key);
    assert m(roles[j]);
    var i := FirstIndex(roles, m).value;
    FirstIndexPrefix(roles, more, m);
    assert FirstIndex(roles + more, m) == Some(i);
    assert (roles + more)[i] == roles[i];
    assert Lookup(roles + more, field, key) == LookupAt(roles + more, i);
    assert Lookup(roles, field, key) == LookupAt(roles, i);
  }
}
