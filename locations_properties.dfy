/**
 * What the controller's clients observe across requests: round trips through GET after POST and
 * PUT, deleting twice, forbidden requests leaving rows in place, and the ownership rule.
 */
module LocationsProperties {

  import opened Wrappers
  import opened Locations
  import opened LocationConfiguration
  import opened LocationsController

  /** The entries of a listing that carry `id`, in order (the clients' `Where(x => x.Id == id)`). */
  function Matching(s: seq<LocationDto>, id: int): (r: seq<LocationDto>)
    ensures |r| <= |s|
    ensures forall i :: 0 <= i < |r| ==> r[i].id == id
  {
    if s == [] then []
    else if s[0].id == id then [s[0]] + Matching(s[1..], id)
    else Matching(s[1..], id)
  }

  /** A listing without `id` has no matching entry. */
  lemma {:induction false} MatchingAbsent(s: seq<LocationDto>, id: int)
    requires forall i :: 0 <= i < |s| ==> s[i].id != id
    ensures Matching(s, id) == []
  {
    if s != [] {
      assert forall i :: 0 <= i < |s[1..]| ==> s[1..][i] == s[i + 1];
      MatchingAbsent(s[1..], id);
    }
  }

  /** In a listing with ascending ids, an id that occurs matches exactly its one entry. */
  lemma {:induction false} MatchingUnique(s: seq<LocationDto>, id: int, k: int)
    requires AscendingIds(s)
    requires 0 <= k < |s| && s[k].id == id
    ensures Matching(s, id) == [s[k]]
  {
    assert forall i :: 0 <= i < |s[1..]| ==> s[1..][i] == s[i + 1];
    if k == 0 {
      MatchingAbsent(s[1..], id);
    } else {
      assert s[0].id < s[k].id;
      MatchingUnique(s[1..], id, k - 1);
    }
  }

  /**
   * The list endpoint holds exactly one entry for a stored id, equal to that row's projection,
   * and none for any other id.
   */
  lemma ListingForId(t: Table, id: int)
    requires TableInvariant(t)
    ensures Matching(GetAll(t), id) == if id in t.rows then [Project(t.rows[id])] else []
  {
    var all := GetAll(t);
    if id in t.rows {
      var k :| 0 <= k < |all| && all[k].id == id;
      MatchingUnique(all, id, k);
    } else {
      MatchingAbsent(all, id);
    }
  }

  /** Fetching any listed id by itself returns the same record as the listing. */
  lemma ListingAgreesWithGetById(t: Table)
    requires TableInvariant(t)
    ensures forall i :: 0 <= i < |GetAll(t)| ==> GetById(t, GetAll(t)[i].id) == OkBody(GetAll(t)[i])
  {
  }

  /** Every listed record has a name within the limit, an address and at least one table. */
  lemma ListedLocationsAreValid(t: Table)
    requires TableInvariant(t)
    ensures forall i :: 0 <= i < |GetAll(t)| ==> ValidInput(GetAll(t)[i])
  {
  }

  /**
   * After a successful POST, GET by the new id returns the Created body, the listing holds exactly
   * that one entry for it, and every earlier row reads back as before.
   */
  lemma CreateRoundTrip(t: Table, caller: Caller, dto: LocationDto)
    requires TableInvariant(t)
    requires CreateStep(t, caller, dto).response.Created?
    ensures var s := CreateStep(t, caller, dto);
      var d := s.response.body;
      && d.id >= 1
      && GetById(s.table, d.id) == OkBody(d)
      && Matching(GetAll(s.table), d.id) == [d]
      && (forall k :: k in t.rows ==> GetById(s.table, k) == GetById(t, k))
  {
    var s := CreateStep(t, caller, dto);
    var d := s.response.body;
    assert Project(s.table.rows[d.id]) == d;
    ListingForId(s.table, d.id);
  }

  /** A location created without a manager is returned, and read back, without one. */
  lemma CreateWithoutManager(t: Table, admin: Caller, dto: LocationDto)
    requires TableInvariant(t)
    requires IsAdmin(admin) && ValidInput(dto) && dto.managerId == None
    ensures var s := CreateStep(t, admin, dto);
      && s.response.Created? && s.response.body.managerId == None
      && GetById(s.table, s.response.body.id).body.managerId == None
  {
  }

  /** The example POST of name "a", address "asd" and five tables by an Admin. */
  lemma CreateExample(t: Table, adminId: int)
    requires TableInvariant(t)
    ensures var s := CreateStep(t, Authenticated(adminId, true), LocationDto(0, Some("a"), Some("asd"), 5, None));
      && s.response == Created(LocationDto(t.nextId, Some("a"), Some("asd"), 5, None))
      && GetById(s.table, t.nextId) == OkBody(s.response.body)
  {
  }

  /**
   * After a successful PUT, GET by id and the listing both return the request body with its id,
   * and every other row reads back as before.
   */
  lemma UpdateRoundTrip(t: Table, caller: Caller, id: int, dto: LocationDto)
    requires TableInvariant(t)
    requires UpdateStep(t, caller, id, dto).response.OkBody?
    ensures var s := UpdateStep(t, caller, id, dto);
      && s.response.body == dto.(id := id)
      && GetById(s.table, id) == OkBody(dto.(id := id))
      && Matching(GetAll(s.table), id) == [dto.(id := id)]
      && (forall k :: k != id ==> GetById(s.table, k) == GetById(t, k))
  {
    var s := UpdateStep(t, caller, id, dto);
    assert Project(s.table.rows[id]) == dto.(id := id);
    ListingForId(s.table, id);
  }

  /** A successful DELETE removes the row for good: GET, the listing and a second DELETE miss it. */
  lemma DeleteTwice(t: Table, caller: Caller, id: int)
    requires TableInvariant(t)
    requires DeleteStep(t, caller, id).response == Ok
    ensures var s := DeleteStep(t, caller, id);
      && GetById(s.table, id) == NotFound
      && Matching(GetAll(s.table), id) == []
      && DeleteStep(s.table, caller, id).response == NotFound
  {
    var s := DeleteStep(t, caller, id);
    ListingForId(s.table, id);
  }

  /** A forbidden DELETE keeps the row readable, so repeating it is forbidden again. */
  lemma ForbiddenDeleteRepeats(t: Table, caller: Caller, id: int)
    requires TableInvariant(t)
    requires DeleteStep(t, caller, id).response == Forbidden
    ensures var s := DeleteStep(t, caller, id);
      && s.table == t
      && GetById(s.table, id) == OkBody(Project(t.rows[id]))
      && DeleteStep(s.table, caller, id).response == Forbidden
  {
  }

  /** An id freed by DELETE is never handed out again by a later POST. */
  lemma DeletedIdNotReused(t: Table, caller: Caller, id: int, creator: Caller, dto: LocationDto)
    requires TableInvariant(t)
    requires DeleteStep(t, caller, id).response == Ok
    requires CreateStep(DeleteStep(t, caller, id).table, creator, dto).response.Created?
    ensures CreateStep(DeleteStep(t, caller, id).table, creator, dto).response.body.id != id
  {
  }

  /** A location without a manager may be changed by Admins only. */
  lemma UnmanagedOnlyAdmin(c: Caller, l: Location)
    requires l.managerId == None
    ensures MayChange(c, l) <==> IsAdmin(c)
  {
  }

  /**
   * Bob manages a location and Sue does not: Bob may update it without being an Admin, while
   * Sue's update and both of her deletes are forbidden and leave the table as it was.
   */
  lemma ManagerAndStranger(t: Table, id: int, bob: int, sue: int, dto: LocationDto)
    requires TableInvariant(t)
    requires id in t.rows && t.rows[id].managerId == Some(bob) && sue != bob
    requires ValidInput(dto)
    ensures UpdateStep(t, Authenticated(bob, false), id, dto).response == OkBody(dto.(id := id))
    ensures UpdateStep(t, Authenticated(sue, false), id, dto) == Step(Forbidden, t)
    ensures DeleteStep(t, Authenticated(sue, false), id) == Step(Forbidden, t)
  {
  }

  /** The 121-character name the clients send is refused by POST (as Admin) and by PUT. */
  lemma OverlongNameRefused(t: Table, caller: Caller, id: int, dto: LocationDto)
    requires TableInvariant(t)
    requires caller.Authenticated?
    requires dto.name.Some? && |dto.name.value| == NameMaxLength + 1
    ensures UpdateStep(t, caller, id, dto) == Step(BadRequest, t)
    ensures IsAdmin(caller) ==> CreateStep(t, caller, dto) == Step(BadRequest, t)
  {
    NameOverLimitRefused(dto.name.value);
  }
}
