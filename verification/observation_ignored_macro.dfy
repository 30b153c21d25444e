/** `@ObservationIgnored`, as the Relay generators read it. */
module ObservationIgnoredMacro {
  import opened Syntax

  const attribute: Attribute := ObservationIgnored

  /** A stored `var`, not `static`/`class`, not `override`, and not `@ObservationIgnored`. */
  predicate IsStoredObservable(p: Property)
  {
    p.kind == Stored
    && p.mutability == Mutable
    && !p.isTypeScoped
    && !p.isOverride
    && attribute !in p.attributes
  }

  lemma NeverObservable(p: Property)
    requires p.mutability == Immutable || p.isTypeScoped || p.isOverride || p.kind == Computed
    ensures !IsStoredObservable(p)
  {
  }

  /** `@ObservationIgnored` is the only attribute consulted: any other one leaves the verdict alone. */
  lemma OnlyIgnoredConsulted(p: Property, a: Attribute)
    requires a != attribute
    ensures IsStoredObservable(p.(attributes := p.attributes + [a])) == IsStoredObservable(p)
  {
  }
}
