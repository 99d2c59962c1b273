/** The Location entity (Selu383.SP26.Api/Features/Locations/Location.cs). */
module Locations {

  import opened Wrappers

  /**
   * One row of the location table. `name` and `address` are plain strings, so they can never be
   * null. The entity's `Manager` navigation property is not a separate field: it is the user that
   * `managerId` refers to, so the single optional reference `managerId` stands for both.
   */
  datatype Location = Location(
    id: int,
    name: string,
    address: string,
    tableCount: int,
    managerId: Option<int>)

  /** The entity as `new Location { }` builds it: every property at its declared default. */
  function NewLocation(): Location
  {
    Location(0, "", "", 0, None)
  }
}
