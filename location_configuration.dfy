/** The store's constraint on the Location entity (Selu383.SP26.Api/Features/Locations/LocationConfiguration.cs). */
module LocationConfiguration {

  import opened Wrappers
  import opened Locations

  /** HasMaxLength(120) on Name. */
  const NameMaxLength: nat := 120

  /** Name is required (present) and at most NameMaxLength characters long. */
  predicate NameAccepted(name: Option<string>)
  {
    name.Some? && |name.value| <= NameMaxLength
  }

  /** A stored row satisfies the configuration; only its name is constrained. */
  predicate Conforms(l: Location)
  {
    NameAccepted(Some(l.name))
  }

  /** A missing name is refused. */
  lemma MissingNameRefused()
    ensures !NameAccepted(None)
  {
  }

  /** A name of exactly the maximum length is accepted. */
  lemma NameAtLimitAccepted(s: string)
    requires |s| == NameMaxLength
    ensures NameAccepted(Some(s))
  {
  }

  /** Any longer name, such as the 121-character one the tests send, is refused. */
  lemma NameOverLimitRefused(s: string)
    requires |s| > NameMaxLength
    ensures !NameAccepted(Some(s))
  {
  }

  /** Address, table count, manager and id are not constrained by this configuration. */
  lemma OnlyNameConstrained(a: Location, b: Location)
    requires a.name == b.name
    ensures Conforms(a) == Conforms(b)
  {
  }
}
