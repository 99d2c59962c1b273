/**
 * The LocationsController (Selu383.SP26.Api/Controllers/LocationsController.cs) over an in-memory
 * table: the caller, the transport record, the responses, the two read-only endpoints as functions
 * over the table, the three mutating endpoints as step functions, and the table itself as a class
 * whose methods do the same work imperatively.
 */
module LocationsController {

  import opened Wrappers
  import opened Locations
  import opened LocationConfiguration

  /** The request's principal: nobody, or a signed-in user with an id and the Admin flag. */
  datatype Caller = Anonymous | Authenticated(id: int, isAdmin: bool)

  /** LocationDto as it crosses the API boundary; a request may leave name or address null. */
  datatype LocationDto = LocationDto(
    id: int,
    name: Option<string>,
    address: Option<string>,
    tableCount: int,
    managerId: Option<int>)

  /** The HTTP outcomes the controller produces; bodies ride on OkBody and Created. */
  datatype Response =
    | Ok
    | OkBody(body: LocationDto)
    | Created(body: LocationDto)
    | BadRequest
    | Unauthorized
    | Forbidden
    | NotFound

  predicate IsAdmin(c: Caller)
  {
    c.Authenticated? && c.isAdmin
  }

  /** The admin-or-manager rule that guards Update and Delete. */
  predicate MayChange(c: Caller, l: Location)
  {
    c.Authenticated? && (c.isAdmin || Some(c.id) == l.managerId)
  }

  /** The checks made on the request body before the action runs: name and address present. */
  predicate ModelValid(dto: LocationDto)
  {
    NameAccepted(dto.name) && dto.address.Some?
  }

  /** Everything that makes a body acceptable: model validation plus the action's TableCount check. */
  predicate ValidInput(dto: LocationDto)
  {
    ModelValid(dto) && dto.tableCount >= 1
  }

  /** The public representation of a stored row. */
  function Project(l: Location): LocationDto
  {
    LocationDto(l.id, Some(l.name), Some(l.address), l.tableCount, l.managerId)
  }

  /** Every key is a positive id and is the id of the row stored under it. */
  predicate WellKeyed(rows: map<int, Location>)
  {
    forall k :: k in rows ==> k >= 1 && rows[k].id == k
  }

  /** The table's contents and the next identity value the store will hand out. */
  datatype Table = Table(rows: map<int, Location>, nextId: int)

  /**
   * What every reachable table satisfies: ids are positive, below the counter and keyed by
   * themselves, and every row passed the checks Create and Update make.
   */
  predicate TableInvariant(t: Table)
  {
    && t.nextId >= 1
    && WellKeyed(t.rows)
    && (forall k :: k in t.rows ==> k < t.nextId && Conforms(t.rows[k]) && t.rows[k].tableCount >= 1)
  }

  /** GET api/locations/{id}: the row whose Id is `id`, or NotFound. */
  function GetById(t: Table, id: int): (r: Response)
    requires TableInvariant(t)
    ensures r.NotFound? <==> (forall k :: k in t.rows ==> t.rows[k].id != id)
    ensures r.NotFound? <==> id !in t.rows
    ensures r.OkBody? <==> id in t.rows
    ensures r.OkBody? ==> r.body.id == id && r.body == Project(t.rows[id])
  {
    if id in t.rows then OkBody(Project(t.rows[id])) else NotFound
  }

  /** The projections of the rows whose ids lie in [lo, hi), by ascending id. */
  function ListRange(rows: map<int, Location>, lo: int, hi: int): seq<LocationDto>
    decreases hi - lo
  {
    if lo >= hi then []
    else if lo in rows then [Project(rows[lo])] + ListRange(rows, lo + 1, hi)
    else ListRange(rows, lo + 1, hi)
  }

  /** Every entry of `r` is the projection of a row whose id lies in [lo, hi). */
  predicate SoundListing(rows: map<int, Location>, lo: int, hi: int, r: seq<LocationDto>)
  {
    forall i :: 0 <= i < |r| ==> lo <= r[i].id < hi && r[i].id in rows && r[i] == Project(rows[r[i].id])
  }

  /** Every row whose id lies in [lo, hi) has an entry in `r`. */
  predicate CompleteListing(rows: map<int, Location>, lo: int, hi: int, r: seq<LocationDto>)
  {
    forall id :: lo <= id < hi && id in rows ==> exists i :: 0 <= i < |r| && r[i].id == id
  }

  /** The ids of `r` strictly ascend, so none occurs twice. */
  predicate AscendingIds(r: seq<LocationDto>)
  {
    forall i, j :: 0 <= i < j < |r| ==> r[i].id < r[j].id
  }

  lemma {:induction false} ListRangeSound(rows: map<int, Location>, lo: int, hi: int)
    requires WellKeyed(rows)
    ensures SoundListing(rows, lo, hi, ListRange(rows, lo, hi))
    decreases hi - lo
  {
    if lo < hi {
      ListRangeSound(rows, lo + 1, hi);
      var rest := ListRange(rows, lo + 1, hi);
      if lo in rows {
        var r := ListRange(rows, lo, hi);
        assert r == [Project(rows[lo])] + rest;
        forall i | 0 <= i < |r|
          ensures lo <= r[i].id < hi && r[i].id in rows && r[i] == Project(rows[r[i].id])
        {
          if i > 0 {
            assert r[i] == rest[i - 1];
          }
        }
      }
    }
  }

  lemma {:induction false} ListRangeComplete(rows: map<int, Location>, lo: int, hi: int)
    requires WellKeyed(rows)
    ensures CompleteListing(rows, lo, hi, ListRange(rows, lo, hi))
    decreases hi - lo
  {
    if lo < hi {
      ListRangeComplete(rows, lo + 1, hi);
      var rest := ListRange(rows, lo + 1, hi);
      var r := ListRange(rows, lo, hi);
      forall id | lo <= id < hi && id in rows ensures exists i :: 0 <= i < |r| && r[i].id == id {
        if id == lo {
          assert r == [Project(rows[lo])] + rest;
          assert r[0].id == id;
        } else {
          var j :| 0 <= j < |rest| && rest[j].id == id;
          if lo in rows {
            assert r == [Project(rows[lo])] + rest;
            assert r[j + 1] == rest[j];
          } else {
            assert r == rest;
          }
        }
      }
    }
  }

  lemma {:induction false} ListRangeAscending(rows: map<int, Location>, lo: int, hi: int)
    requires WellKeyed(rows)
    ensures AscendingIds(ListRange(rows, lo, hi))
    decreases hi - lo
  {
    if lo < hi {
      ListRangeAscending(rows, lo + 1, hi);
      ListRangeSound(rows, lo + 1, hi);
      var rest := ListRange(rows, lo + 1, hi);
      if lo in rows {
        var r := ListRange(rows, lo, hi);
        assert r == [Project(rows[lo])] + rest;
        forall i, j | 0 <= i < j < |r| ensures r[i].id < r[j].id {
          assert r[j] == rest[j - 1];
          if i > 0 {
            assert r[i] == rest[i - 1];
          }
        }
      }
    }
  }

  /**
   * GET api/locations: one projection per row, ids positive and pairwise distinct. The store's
   * iteration order is not specified; the model lists rows by ascending id.
   */
  function GetAll(t: Table): (r: seq<LocationDto>)
    requires TableInvariant(t)
    ensures forall i :: 0 <= i < |r| ==> r[i].id in t.rows && r[i] == Project(t.rows[r[i].id])
    ensures forall id :: id in t.rows ==> exists i :: 0 <= i < |r| && r[i].id == id
    ensures forall i, j :: 0 <= i < j < |r| ==> r[i].id < r[j].id
    ensures forall i :: 0 <= i < |r| ==> r[i].id >= 1
  {
    ListRangeSound(t.rows, 1, t.nextId);
    ListRangeComplete(t.rows, 1, t.nextId);
    ListRangeAscending(t.rows, 1, t.nextId);
    ListRange(t.rows, 1, t.nextId)
  }

  /** The response of one request together with the table it leaves behind. */
  datatype Step = Step(response: Response, table: Table)

  /** Name, Address, TableCount and ManagerId of `l` overwritten from the body. */
  function Overwrite(l: Location, dto: LocationDto): Location
    requires ModelValid(dto)
  {
    l.(name := dto.name.value, address := dto.address.value, tableCount := dto.tableCount, managerId := dto.managerId)
  }

  /**
   * Create starts from the entity's defaults, and every default except the id is replaced by the
   * request: once the store assigns the id, the new row does not depend on where it started.
   */
  lemma CreatedRowIgnoresDefaults(l: Location, dto: LocationDto, k: int)
    requires ModelValid(dto)
    ensures Overwrite(NewLocation(), dto).(id := k) == Overwrite(l, dto).(id := k)
    ensures Overwrite(NewLocation(), dto).(id := k) == Location(k, dto.name.value, dto.address.value, dto.tableCount, dto.managerId)
  {
  }

  /**
   * POST api/locations. The Admin-only gate decides 401/403 first, then the body is checked, then
   * a row with the next identity value is added.
   */
  function CreateStep(t: Table, caller: Caller, dto: LocationDto): (s: Step)
    requires TableInvariant(t)
    ensures TableInvariant(s.table)
    ensures caller.Anonymous? ==> s.response == Unauthorized
    ensures caller.Authenticated? && !caller.isAdmin ==> s.response == Forbidden
    ensures IsAdmin(caller) && !ValidInput(dto) ==> s.response == BadRequest
    ensures s.response.Created? <==> IsAdmin(caller) && ValidInput(dto)
    ensures !s.response.Created? ==> s.table == t
    ensures s.response.Created? ==>
      var id := s.response.body.id;
      && id >= 1 && id !in t.rows
      && id == t.nextId && s.table.nextId == t.nextId + 1
      && s.response.body == dto.(id := id)
      && s.table.rows.Keys == t.rows.Keys + {id}
      && s.table.rows[id] == Location(id, dto.name.value, dto.address.value, dto.tableCount, dto.managerId)
      && (forall k :: k in t.rows ==> s.table.rows[k] == t.rows[k])
  {
    if caller.Anonymous? then Step(Unauthorized, t)
    else if !caller.isAdmin then Step(Forbidden, t)
    else if !ModelValid(dto) then Step(BadRequest, t)
    else if dto.tableCount < 1 then Step(BadRequest, t)
    else
      var id := t.nextId;
      Step(Created(dto.(id := id)), Table(t.rows[id := Overwrite(NewLocation(), dto).(id := id)], id + 1))
  }

  /**
   * PUT api/locations/{id}. After the sign-in gate: body checks, then existence, then the
   * admin-or-manager rule; only then are the four fields overwritten.
   */
  function UpdateStep(t: Table, caller: Caller, id: int, dto: LocationDto): (s: Step)
    requires TableInvariant(t)
    ensures TableInvariant(s.table)
    ensures s.table.nextId == t.nextId
    ensures caller.Anonymous? ==> s.response == Unauthorized
    ensures caller.Authenticated? && !ValidInput(dto) ==> s.response == BadRequest
    ensures caller.Authenticated? && ValidInput(dto) && id !in t.rows ==> s.response == NotFound
    ensures caller.Authenticated? && ValidInput(dto) && id in t.rows && !MayChange(caller, t.rows[id]) ==>
      s.response == Forbidden
    ensures s.response.OkBody? <==>
      caller.Authenticated? && ValidInput(dto) && id in t.rows && MayChange(caller, t.rows[id])
    ensures !s.response.OkBody? ==> s.table == t
    ensures s.response.OkBody? ==>
      && s.response.body == dto.(id := id)
      && s.table.rows.Keys == t.rows.Keys
      && s.table.rows[id] == Location(id, dto.name.value, dto.address.value, dto.tableCount, dto.managerId)
      && (forall k :: k in t.rows && k != id ==> s.table.rows[k] == t.rows[k])
  {
    if caller.Anonymous? then Step(Unauthorized, t)
    else if !ModelValid(dto) then Step(BadRequest, t)
    else if dto.tableCount < 1 then Step(BadRequest, t)
    else if id !in t.rows then Step(NotFound, t)
    else if !MayChange(caller, t.rows[id]) then Step(Forbidden, t)
    else Step(OkBody(dto.(id := id)), t.(rows := t.rows[id := Overwrite(t.rows[id], dto)]))
  }

  /**
   * DELETE api/locations/{id}. After the sign-in gate: existence, then the admin-or-manager rule,
   * then the row is removed.
   */
  function DeleteStep(t: Table, caller: Caller, id: int): (s: Step)
    requires TableInvariant(t)
    ensures TableInvariant(s.table)
    ensures s.table.nextId == t.nextId
    ensures caller.Anonymous? ==> s.response == Unauthorized
    ensures caller.Authenticated? && id !in t.rows ==> s.response == NotFound
    ensures caller.Authenticated? && id in t.rows && !MayChange(caller, t.rows[id]) ==> s.response == Forbidden
    ensures s.response == Ok <==> caller.Authenticated? && id in t.rows && MayChange(caller, t.rows[id])
    ensures s.response != Ok ==> s.table == t
    ensures s.response == Ok ==>
      && s.table.rows.Keys == t.rows.Keys - {id}
      && (forall k :: k in s.table.rows ==> s.table.rows[k] == t.rows[k])
  {
    if caller.Anonymous? then Step(Unauthorized, t)
    else if id !in t.rows then Step(NotFound, t)
    else if !MayChange(caller, t.rows[id]) then Step(Forbidden, t)
    else Step(Ok, t.(rows := t.rows - {id}))
  }

  /** The location table the controller works on, changed in place by each request. */
  class LocationStore {

    var rows: map<int, Location>
    var nextId: int

    ghost function State(): Table
      reads this
    {
      Table(rows, nextId)
    }

    ghost predicate Valid()
      reads this
    {
      TableInvariant(State())
    }

    /** An empty table whose identity column starts at 1. */
    constructor ()
      ensures Valid()
      ensures rows == map[] && nextId == 1
    {
      rows := map[];
      nextId := 1;
    }

    method Create(caller: Caller, dto: LocationDto) returns (r: Response)
      requires Valid()
      modifies this
      ensures Valid()
      ensures Step(r, State()) == CreateStep(old(State()), caller, dto)
    {
      if caller.Anonymous? {
        return Unauthorized;
      }
      if !caller.isAdmin {
        return Forbidden;
      }
      if !ModelValid(dto) {
        return BadRequest;
      }
      if dto.tableCount < 1 {
        return BadRequest;
      }
      var location := NewLocation();
      location := location.(name := dto.name.value, address := dto.address.value);
      location := location.(tableCount := dto.tableCount, managerId := dto.managerId);
      // Add and SaveChanges: the store assigns the next identity value.
      location := location.(id := nextId);
      rows := rows[location.id := location];
      nextId := nextId + 1;
      r := Created(dto.(id := location.id));
    }

    method Update(caller: Caller, id: int, dto: LocationDto) returns (r: Response)
      requires Valid()
      modifies this
      ensures Valid()
      ensures Step(r, State()) == UpdateStep(old(State()), caller, id, dto)
    {
      if caller.Anonymous? {
        return Unauthorized;
      }
      if !ModelValid(dto) {
        return BadRequest;
      }
      if dto.tableCount < 1 {
        return BadRequest;
      }
      if id !in rows {
        return NotFound;
      }
      var location := rows[id];
      if !MayChange(caller, location) {
        return Forbidden;
      }
      location := location.(name := dto.name.value);
      location := location.(address := dto.address.value);
      location := location.(tableCount := dto.tableCount);
      location := location.(managerId := dto.managerId);
      rows := rows[id := location];
      r := OkBody(dto.(id := location.id));
    }

    method Delete(caller: Caller, id: int) returns (r: Response)
      requires Valid()
      modifies this
      ensures Valid()
      ensures Step(r, State()) == DeleteStep(old(State()), caller, id)
    {
      if caller.Anonymous? {
        return Unauthorized;
      }
      if id !in rows {
        return NotFound;
      }
      var location := rows[id];
      if !MayChange(caller, location) {
        return Forbidden;
      }
      rows := rows - {location.id};
      r := Ok;
    }
  }
}
