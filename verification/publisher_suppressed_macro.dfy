/**
 * `@PublisherSuppressed`: a marker that keeps a member out of the companion
 * publisher. Its peer expansion adds nothing; its meaning lies in the three
 * predicates below, which the generators consult.
 */
module PublisherSuppressedMacro {
  import opened Syntax

  const attribute: Attribute := PublisherSuppressed

  /** A stored `var`, not `static`/`class`, not `override`, and not suppressed. */
  predicate IsStoredPublisherTracked(p: Property)
  {
    p.kind == Stored
    && p.mutability == Mutable
    && !p.isTypeScoped
    && !p.isOverride
    && attribute !in p.attributes
  }

  /** A computed property, not `static`/`class`, not `override`, and not suppressed. */
  predicate IsComputedPublisherTracked(p: Property)
  {
    p.kind == Computed
    && !p.isTypeScoped
    && !p.isOverride
    && attribute !in p.attributes
  }

  predicate IsFunctionPublisherTracked(f: FunctionDecl)
  {
    attribute !in f.attributes
  }

  /** The marker's peer expansion: no declarations, whatever it is attached to. */
  function PeerExpansion(declaration: Member): (r: seq<Member>)
    ensures r == []
  {
    []
  }

  /** `let` properties, type-scoped properties and overrides never feed a stored publisher. */
  lemma NeverStoredTracked(p: Property)
    requires p.mutability == Immutable || p.isTypeScoped || p.isOverride
    ensures !IsStoredPublisherTracked(p)
  {
  }

  /** Computed tracking does not consult mutability. */
  lemma ComputedIgnoresMutability(p: Property, m: Mutability)
    ensures IsComputedPublisherTracked(p.(mutability := m)) == IsComputedPublisherTracked(p)
  {
  }

  /** The two kinds of tracking never hold of the same property. */
  lemma StoredAndComputedExclusive(p: Property)
    ensures !(IsStoredPublisherTracked(p) && IsComputedPublisherTracked(p))
  {
  }

  /**
   * Adding an attribute never enables tracking, and adding the marker always
   * disables it.
   */
  lemma MarkingOnlyDisables(p: Property, f: FunctionDecl, a: Attribute)
    ensures IsStoredPublisherTracked(p.(attributes := p.attributes + [a])) ==> IsStoredPublisherTracked(p)
    ensures IsComputedPublisherTracked(p.(attributes := p.attributes + [a])) ==> IsComputedPublisherTracked(p)
    ensures IsFunctionPublisherTracked(f.(attributes := f.attributes + [a])) ==> IsFunctionPublisherTracked(f)
    ensures a == attribute ==>
      !IsStoredPublisherTracked(p.(attributes := p.attributes + [a]))
      && !IsComputedPublisherTracked(p.(attributes := p.attributes + [a]))
      && !IsFunctionPublisherTracked(f.(attributes := f.attributes + [a]))
  {
  }
}
