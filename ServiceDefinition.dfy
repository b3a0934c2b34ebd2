/**
 * A service registered with the in-memory service registry, and its
 * equality (ServiceRegistry/ServiceDefinition.cs).
 *
 * A null ServiceDefinition is `None` of an `Option<ServiceDefinition>`.
 * Null strings are modelled as "", a null Operations list as `None`.
 */
module ServiceDefinitions {
  import opened Wrappers

  /** The health check of a service instance; the timeout in milliseconds. */
  datatype ServiceCheck = ServiceCheck(http: string, timeout: int)

  datatype ServiceDefinition = ServiceDefinition(
    address: string,
    check: Option<ServiceCheck>,
    name: string,
    operations: Option<seq<string>>,
    port: int,
    protocol: string)

  /** Equal name, port and address: the only fields equality compares. */
  predicate SameEndpoint(a: ServiceDefinition, b: ServiceDefinition)
  {
    a.name == b.name && a.port == b.port && a.address == b.address
  }

  /**
   * Equals(ServiceDefinition) as written (lines 17-24): a null argument is
   * equal. Equals(object) (line 26) reaches it with None for a null or for
   * an object of any other type.
   */
  predicate Equals(self: ServiceDefinition, other: Option<ServiceDefinition>)
  {
    other.None? || SameEndpoint(self, other.value)
  }

  /** The `==` operator (line 27): object.Equals, which settles nulls itself and then calls Equals. */
  predicate OpEquals(lhs: Option<ServiceDefinition>, rhs: Option<ServiceDefinition>)
  {
    if lhs.None? || rhs.None? then lhs.None? && rhs.None?
    else Equals(lhs.value, rhs)
  }

  /** The `!=` operator (line 28). */
  predicate OpNotEquals(lhs: Option<ServiceDefinition>, rhs: Option<ServiceDefinition>)
  {
    !OpEquals(lhs, rhs)
  }

  /**
   * Equals as the IEquatable contract intends it: false for a null
   * argument, otherwise the same comparison.
   */
  predicate IntendedEquals(self: ServiceDefinition, other: Option<ServiceDefinition>)
  {
    other.Some? && SameEndpoint(self, other.value)
  }

  /** For a non-null argument, Equals holds exactly when name, port and address agree. */
  lemma EqualsComparesEndpoint(a: ServiceDefinition, b: ServiceDefinition)
    ensures Equals(a, Some(b)) <==> a.name == b.name && a.port == b.port && a.address == b.address
    ensures IntendedEquals(a, Some(b)) == Equals(a, Some(b))
  {
  }

  /** Check, Operations and Protocol play no part in equality. */
  lemma EqualsIgnoresCheckOperationsProtocol(a: ServiceDefinition, b: ServiceDefinition)
    requires a.name == b.name && a.port == b.port && a.address == b.address
    ensures Equals(a, Some(b)) && OpEquals(Some(a), Some(b))
  {
  }

  /** On non-null values `==` is reflexive, symmetric and transitive. */
  lemma OpEqualsIsEquivalence(a: ServiceDefinition, b: ServiceDefinition, c: ServiceDefinition)
    ensures OpEquals(Some(a), Some(a))
    ensures OpEquals(Some(a), Some(b)) == OpEquals(Some(b), Some(a))
    ensures OpEquals(Some(a), Some(b)) && OpEquals(Some(b), Some(c)) ==> OpEquals(Some(a), Some(c))
  {
  }

  /** Nulls: null == null, and no value == null, in either order. */
  lemma OpEqualsNull(a: ServiceDefinition)
    ensures OpEquals(None, None)
    ensures !OpEquals(Some(a), None) && !OpEquals(None, Some(a))
  {
  }

  /** `!=` is the negation of `==`. */
  lemma OpNotEqualsIsNegation(lhs: Option<ServiceDefinition>, rhs: Option<ServiceDefinition>)
    ensures OpNotEquals(lhs, rhs) <==> !OpEquals(lhs, rhs)
  {
  }

  /** As written, a ServiceDefinition equals null, although `==` says it does not. */
  lemma EqualsNullDisagreesWithOperator(a: ServiceDefinition)
    ensures Equals(a, None)
    ensures !OpEquals(Some(a), None)
  {
  }

  /** The intended Equals agrees with `==` on every argument, null included. */
  lemma IntendedEqualsAgreesWithOperator(a: ServiceDefinition, other: Option<ServiceDefinition>)
    ensures IntendedEquals(a, other) <==> OpEquals(Some(a), other)
    ensures !IntendedEquals(a, None)
  {
  }
}
