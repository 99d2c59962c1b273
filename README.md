# Location lifecycle of the SELU 383 restaurant API, in Dafny

The API keeps a table of restaurant locations. Each location has an id, a name, an address, a
table count and an optional manager. `LocationsController` serves five endpoints over that table:

- list all locations;
- get one location by id;
- create a location (Admins only);
- update a location (Admins or the location's manager);
- delete a location (Admins or the location's manager).

This project models those endpoints, the `Location` entity and the store's constraint on its
name. It proves what each request returns and what it leaves in the table.

Files:

- `wrappers.dfy` (`Wrappers`): `Option`, which stands for C#'s nullable `string` and `int?`.
- `location.dfy` (`Locations`): the `Location` record and its defaults.
- `location_configuration.dfy` (`LocationConfiguration`): the Name rule. Name is required and at
  most 120 characters long.
- `locations_controller.dfy` (`LocationsController`). It holds:
  - the caller (`Anonymous` or `Authenticated(id, isAdmin)`);
  - the `LocationDto` transport record;
  - the HTTP responses;
  - the admin-or-manager rule `MayChange`;
  - `GetById` and `GetAll` as functions over the table;
  - one step function per mutating endpoint (`CreateStep`, `UpdateStep`, `DeleteStep`). Each gives
    the response and the table that follows;
  - the class `LocationStore`. Its fields are the row map and the next identity value.
    Its methods `Create`, `Update` and `Delete` change those fields in place, in the same order as
    the controller. Each is proved to agree with its step function.
- `locations_properties.dfy` (`LocationsProperties`): facts that span several requests. Among
  them: round trips through GET after POST and PUT, deleting twice, a forbidden delete leaving the
  row in place, and the Bob-and-Sue ownership cases.

The table invariant `TableInvariant` holds in every reachable state:

- every key is a positive id below the identity counter;
- every row is stored under its own id;
- every row's name satisfies the configuration;
- every row has at least one table.

Every step function preserves it, and so does every `LocationStore` method.

Order of checks, as the code has it:

- **Create.** The `[Authorize(Roles = Admin)]` gate comes first: anonymous gives 401, and a
  signed-in non-Admin gives 403. Then the body is checked (400). Then the row is added.
- **Update.** The `[Authorize]` gate comes first (401). Then the body is checked (400). Then the
  row is looked up (404). Then the admin-or-manager rule is applied (403). Then Name, Address,
  TableCount and ManagerId are overwritten.
- **Delete.** The gate (401), then the lookup (404), then the rule (403), then removal.

The code does not say where the 400 for a missing name, an over-long name or a missing address
comes from. It is not raised in the controller body. The model treats it as the framework's
request-body validation (`ModelValid`). That validation runs after the authorization gate and
before the action's own `TableCount < 1` check. All of these give 400, so their order among
themselves cannot be observed.

Two consequences of the code's order and checks:

- The `[Authorize(Roles = Admin)]` gate (`LocationsController.cs:51`) runs before the
  `TableCount < 1` check (`:54`). So an anonymous Create with zero tables gets 401, and a
  non-Admin's gets 403 (`CreateStep`).
- The source does not show whether blank names or addresses are refused. `IsRequired` on Name
  (`LocationConfiguration.cs:11`) only makes the column NOT NULL, and the validation that yields
  the 400 is not in the source. `ModelValid` requires a name and an address to be present and
  the name to be at most 120 characters, and it accepts empty and white-space strings.

## Model

| member | source | states |
|---|---|---|
| `LocationsController.CreatedRowIgnoresDefaults` | Selu383.SP26.Api/Controllers/LocationsController.cs:59-65 | Create builds the row from the entity's defaults (Location.cs:7-15), but once the id is assigned the row is the same as if it had started from any other location: it is exactly the id plus the request's name, address, table count and manager |
| `LocationConfiguration.MissingNameRefused` | Selu383.SP26.Api/Features/Locations/LocationConfiguration.cs:11 | A missing (null) name does not satisfy the Name rule |
| `LocationConfiguration.NameAtLimitAccepted` | Selu383.SP26.Api/Features/Locations/LocationConfiguration.cs:12 | A name of exactly 120 characters satisfies the rule |
| `LocationConfiguration.NameOverLimitRefused` | Selu383.SP26.Api/Features/Locations/LocationConfiguration.cs:12 | Any name longer than 120 characters is refused |
| `LocationConfiguration.OnlyNameConstrained` | Selu383.SP26.Api/Features/Locations/LocationConfiguration.cs:10-13 | Two locations with the same name get the same verdict, whatever their address, table count, manager or id |
| `LocationsController.GetById` | Selu383.SP26.Api/Controllers/LocationsController.cs:29-48 | NotFound exactly when no row has the id. Otherwise the five-field projection of that row, carrying the requested id |
| `LocationsController.GetAll` | Selu383.SP26.Api/Controllers/LocationsController.cs:15-27 | Every entry is the projection of a stored row. Every stored row has an entry. Ids strictly ascend, so they are pairwise distinct, and all are at least 1 |
| `LocationsController.CreateStep` | Selu383.SP26.Api/Controllers/LocationsController.cs:50-73 | Anonymous gives 401. A non-Admin gives 403. An Admin with invalid input gives 400. Every failure leaves the table unchanged. Created happens exactly for an Admin with valid input. Then one row is added under a fresh id that is at least 1, was not in the table and equals the counter. The row stores the request's four fields. The response is the request with that id. Earlier rows are untouched, and the invariant is kept |
| `LocationsController.UpdateStep` | Selu383.SP26.Api/Controllers/LocationsController.cs:75-107 | 401, then 400 for invalid input, then 404 for a missing id, then 403 for a caller who is neither Admin nor the manager. Every failure leaves the table unchanged. On success exactly Name, Address, TableCount and ManagerId of row `id` are replaced, keys and other rows stay, and the response is the request with `Id = id` |
| `LocationsController.DeleteStep` | Selu383.SP26.Api/Controllers/LocationsController.cs:109-130 | 401, then 404 for a missing id, then 403 for a caller who is neither Admin nor the manager. Every failure leaves the table unchanged. Ok exactly when the row exists and the caller may change it; then exactly that key is removed and all other rows stay |
| `LocationsController.LocationStore.Create` | Selu383.SP26.Api/Controllers/LocationsController.cs:52-73 | The in-place Create, one check after another, builds the entity from defaults, takes the next identity value and adds the row. Its response and the new table equal `CreateStep` of the old table, and the invariant is kept |
| `LocationsController.LocationStore.Update` | Selu383.SP26.Api/Controllers/LocationsController.cs:77-107 | The in-place Update overwrites the four fields of the looked-up row one by one. Its response and new table equal `UpdateStep` of the old table |
| `LocationsController.LocationStore.Delete` | Selu383.SP26.Api/Controllers/LocationsController.cs:111-130 | The in-place Delete removes the looked-up row. Its response and new table equal `DeleteStep` of the old table |
| `LocationsProperties.ListingForId` | Selu383.SP26.Tests/Controllers/Locations/LocationsHelpers.cs:85-92 | Filtering the listing by a stored id yields exactly one entry, the row's projection. Filtering by any other id yields nothing |
| `LocationsProperties.ListingAgreesWithGetById` | Selu383.SP26.Tests/Controllers/Locations/LocationsControllerTests.cs:40-59 | Getting any listed id by itself returns the same record as the listing |
| `LocationsProperties.ListedLocationsAreValid` | Selu383.SP26.Tests/Controllers/Locations/LocationsHelpers.cs:103-104 | Every listed record has a name of at most 120 characters, an address and at least one table |
| `LocationsProperties.CreateRoundTrip` | Selu383.SP26.Tests/Controllers/Locations/LocationsHelpers.cs:67-95 | After a successful Create, the new id is at least 1. GetById of it returns the Created body, and the listing has exactly one entry for it, equal to that body. Every earlier row reads back unchanged |
| `LocationsProperties.CreateWithoutManager` | Selu383.SP26.Api/Features/Locations/Location.cs:15 | An Admin's valid Create without a manager succeeds. Its response, and GetById of its id, carry no manager |
| `LocationsProperties.CreateExample` | Selu383.SP26.Tests/Controllers/Locations/LocationsControllerTests.cs:168-186 | The Admin Create of name "a", address "asd", 5 tables and no manager returns exactly that record with the next id. GetById of that id returns the same record |
| `LocationsProperties.UpdateRoundTrip` | Selu383.SP26.Tests/Controllers/Locations/LocationsHelpers.cs:46-65 | After a successful Update, the response, GetById and the single matching listing entry all equal the request with its id. Every other id reads back as before |
| `LocationsProperties.DeleteTwice` | Selu383.SP26.Tests/Controllers/Locations/LocationsControllerTests.cs:502-527 | After a successful Delete, GetById gives NotFound and the listing has no entry for the id. A second Delete of the same id gives NotFound |
| `LocationsProperties.ForbiddenDeleteRepeats` | Selu383.SP26.Tests/Controllers/Locations/LocationsControllerTests.cs:529-555 | A forbidden Delete leaves the table as it was and the row still readable, so repeating it is forbidden again |
| `LocationsProperties.DeletedIdNotReused` | Selu383.SP26.Api/Controllers/LocationsController.cs:67-70 | The identity value a Create hands out after a Delete is never the deleted id |
| `LocationsProperties.UnmanagedOnlyAdmin` | Selu383.SP26.Api/Controllers/LocationsController.cs:92 | A location with no manager may be updated or deleted by Admins only |
| `LocationsProperties.ManagerAndStranger` | Selu383.SP26.Tests/Controllers/Locations/LocationsControllerTests.cs:392-448 | The non-Admin manager's valid Update succeeds and returns the request with its id. Another non-Admin's Update and Delete are both Forbidden and leave the table unchanged |
| `LocationsProperties.OverlongNameRefused` | Selu383.SP26.Tests/Controllers/Locations/LocationsControllerTests.cs:254-279 | A 121-character name gives 400 with the table unchanged: on Update for any signed-in caller, and on Create for an Admin |

## Left out

- Authentication, cookies and the `[Authorize]` pipeline are reduced to the `Caller` datatype.
  `User.IsInRole(Admin)` and `GetCurrentUserId()` become its fields. A signed-in caller always has
  a definite integer id.
- Users, roles and user-role links (`User.cs`, `Role.cs`, `UserRole.cs`, `UserRoleConfiguration.cs`)
  and both `UserDto.cs` files are not part of this model. The controller only uses an Admin flag.
- `ManagerId` is an opaque optional integer. The controller does not check `ManagerId`. The
  store's foreign key to the users table would refuse an unknown id with a fault (HTTP 500), which
  is not modelled (see the persistence line). The `Manager` navigation property is not a separate
  field, because it is whatever `ManagerId` refers to.
- Persistence (`DataContext`, Entity Framework) becomes the in-memory map plus an identity counter.
  Each `SaveChanges` is one assignment. Store faults (HTTP 500) are not modelled.
- The store starts empty. The seeded locations are data, not logic.
- HTTP routing, JSON (de)serialisation and malformed request bodies are not modelled. The absolute
  `Location` header URL that `CreatedAtAction` builds is also left out; only the id in the Created
  body is kept.
- Concurrent requests and last-write-wins are not modelled. Each request is one atomic step.
- `GetAll`: the store's iteration order is unspecified, so the model uses ascending id order.
  Tests only look at membership and counts.
- `LocationsController.GetAll` does not state that the listing's length equals the row count. It
  states soundness, completeness and distinct ids, which together determine the listing as a set.
- `LocationsProperties.ListedLocationsAreValid` does not give the tests' "every name is non-blank".
  The source does not show whether blank names are refused, and `ModelValid` accepts them.
- C# `int` is 32 bits wide. Ids and table counts are unbounded integers here, so overflow of the
  identity counter is not modelled.
- C# measures name length in UTF-16 code units; the model counts Dafny characters.
- The test harness is not modelled: the HTTP client helpers, login helpers, the clean-up
  disposables and the "at least three locations" check.
