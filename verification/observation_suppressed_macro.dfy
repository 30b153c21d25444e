/**
 * `@ObservationSuppressed`: a marker that keeps a member out of the observation
 * registrar. Its peer expansion adds nothing.
 */
module ObservationSuppressedMacro {
  import opened Syntax
  import ObservationIgnoredMacro
  import PublisherSuppressedMacro

  const attribute: Attribute := ObservationSuppressed

  /** A stored `var`, not `static`/`class`, not `override`, and carrying neither observation marker. */
  predicate IsStoredObservationTracked(p: Property)
  {
    p.kind == Stored
    && p.mutability == Mutable
    && !p.isTypeScoped
    && !p.isOverride
    && ObservationIgnoredMacro.attribute !in p.attributes
    && attribute !in p.attributes
  }

  predicate IsFunctionObservationTracked(f: FunctionDecl)
  {
    ObservationIgnoredMacro.attribute !in f.attributes
    && attribute !in f.attributes
  }

  /** The marker's peer expansion: no declarations, whatever it is attached to. */
  function PeerExpansion(declaration: Member): (r: seq<Member>)
    ensures r == []
  {
    []
  }

  /** Either observation marker on its own excludes a property or a method. */
  lemma EitherMarkerExcludes(p: Property, f: FunctionDecl)
    requires ObservationIgnored in p.attributes || ObservationSuppressed in p.attributes
    requires ObservationIgnored in f.attributes || ObservationSuppressed in f.attributes
    ensures !IsStoredObservationTracked(p)
    ensures !IsFunctionObservationTracked(f)
  {
  }

  /** Observation tracking is `isStoredObservable` with one more conjunct, so it implies it. */
  lemma TrackedImpliesObservable(p: Property)
    ensures IsStoredObservationTracked(p) ==> ObservationIgnoredMacro.IsStoredObservable(p)
    ensures ObservationIgnoredMacro.IsStoredObservable(p) && ObservationSuppressed !in p.attributes
            ==> IsStoredObservationTracked(p)
  {
  }

  /** The publisher markers play no part in observation tracking. */
  lemma IndependentOfPublisherMarkers(p: Property, f: FunctionDecl, a: Attribute)
    requires a == PublisherSuppressed || a == PublisherSupressed || a == PublisherIgnored
    ensures IsStoredObservationTracked(p.(attributes := p.attributes + [a])) == IsStoredObservationTracked(p)
    ensures IsFunctionObservationTracked(f.(attributes := f.attributes + [a])) == IsFunctionObservationTracked(f)
  {
  }

  /** `p` with `@ObservationSuppressed` added unless `observed`, and `@PublisherSuppressed` added unless `published`. */
  function Marked(p: Property, observed: bool, published: bool): Property
  {
    p.(attributes := p.attributes
                     + (if observed then [] else [attribute])
                     + (if published then [] else [PublisherSuppressed]))
  }

  /**
   * The two channels are independent: an unmarked stored instance `var` can be
   * placed on either, both or neither channel by its markers alone.
   */
  lemma {:induction false} ChannelsIndependent(p: Property, observed: bool, published: bool)
    requires p.kind == Stored && p.mutability == Mutable && !p.isTypeScoped && !p.isOverride
    requires p.attributes == []
    ensures IsStoredObservationTracked(Marked(p, observed, published)) == observed
    ensures PublisherSuppressedMacro.IsStoredPublisherTracked(Marked(p, observed, published)) == published
  {
    var q := Marked(p, observed, published);
    assert ObservationSuppressed in q.attributes <==> !observed;
    assert PublisherSuppressed in q.attributes <==> !published;
  }
}
