/**
 * `@Publishable` of the standalone package: it accepts only `final` classes marked
 * `@Observable` or `@Model`, diagnoses anything else and then expands to nothing,
 * propagates `@MainActor` to the builders, and adds one plain `Publishable`
 * extension.
 */
module SourcesPublishableMacro {
  import opened Syntax
  import SourcesPublishablePropertyPublisherDeclBuilder
  import SourcesPublishableObservationRegistrarDeclBuilder

  const invalidDeclaration := "Publishable macro can only be applied to final @Observable or @Model classes"

  predicate Accepted(g: DeclGroup)
  {
    g.ClassGroup? && (Observable in g.decl.attributes || Model in g.decl.attributes) && g.decl.isFinal
  }

  /** `validate`: the class, or a diagnostic reported to the context (not thrown). */
  function Validate(g: DeclGroup): (r: Result<ClassDecl, string>)
    ensures r.Ok? <==> Accepted(g)
    ensures r.Ok? ==> r.value == g.decl
    ensures r.Err? ==> r.error == invalidDeclaration
  {
    if Accepted(g) then Ok(g.decl) else Err(invalidDeclaration)
  }

  datatype PublishableMember =
    | PublisherMembers
    | PropertyPublisher(cls: SourcesPublishablePropertyPublisherDeclBuilder.PropertyPublisherClass)
    | ObservationRegistrar(registrar: SourcesPublishableObservationRegistrarDeclBuilder.Registrar)

  /** The output of an expansion: declarations, and the diagnostic reported, if any. */
  datatype Expansion<T> = Expansion(decls: seq<T>, diagnostic: Option<string>)

  /**
   * The member expansion: nothing after a diagnosed validation failure;
   * otherwise the three builders in order, the last two told whether the class is
   * `@MainActor`.
   */
  function MemberExpansion(g: DeclGroup, ps: seq<Property>): (r: Expansion<PublishableMember>)
    ensures r.diagnostic.Some? <==> !Accepted(g)
    ensures r.decls == [] <==> !Accepted(g)
    ensures Accepted(g) ==>
      var mainActor := MainActor in g.decl.attributes;
      r.decls == [PublisherMembers,
                  PropertyPublisher(SourcesPublishablePropertyPublisherDeclBuilder.Build(g.decl, ps, mainActor)),
                  ObservationRegistrar(SourcesPublishableObservationRegistrarDeclBuilder.Build(ps, mainActor))]
  {
    match Validate(g)
    case Err(message) => Expansion([], Some(message))
    case Ok(c) =>
      var isMainActor := MainActor in c.attributes;
      Expansion([PublisherMembers,
                 PropertyPublisher(SourcesPublishablePropertyPublisherDeclBuilder.Build(c, ps, isMainActor)),
                 ObservationRegistrar(SourcesPublishableObservationRegistrarDeclBuilder.Build(ps, isMainActor))], None)
  }

  /** `extension <type>: Publishable {}`, never with an isolation attribute. */
  datatype Extension = Extension(extendedType: string, baseType: string)

  function ExtensionExpansion(g: DeclGroup, extendedType: string): (r: Expansion<Extension>)
    ensures r.diagnostic.Some? <==> !Accepted(g)
    ensures !Accepted(g) ==> r.decls == []
    ensures Accepted(g) ==> r.decls == [Extension(extendedType, "Publishable")]
  {
    match Validate(g)
    case Err(message) => Expansion([], Some(message))
    case Ok(_) => Expansion([Extension(extendedType, "Publishable")], None)
  }

  /**
   * Both builders are `@MainActor` exactly when the class is, and they agree on it;
   * `@MainActor` otherwise changes neither.
   */
  lemma MainActorPropagated(g: DeclGroup, ps: seq<Property>)
    requires Accepted(g)
    ensures var ms := MemberExpansion(g, ps).decls;
      (ms[1].cls.mainActor <==> MainActor in g.decl.attributes)
      && ms[1].cls.mainActor == ms[2].registrar.mainActor
      && ms[1].cls.(mainActor := false) == SourcesPublishablePropertyPublisherDeclBuilder.Build(g.decl, ps, false)
      && ms[2].registrar.(mainActor := false) == SourcesPublishableObservationRegistrarDeclBuilder.Build(ps, false)
  {
    SourcesPublishablePropertyPublisherDeclBuilder.MainActorOnlyAnnotates(g.decl, ps);
    SourcesPublishableObservationRegistrarDeclBuilder.MainActorOnlyWraps(ps);
  }

  /** An invalid declaration is diagnosed once per expansion and both expansions add nothing. */
  lemma InvalidExpandsToNothing(g: DeclGroup, ps: seq<Property>, extendedType: string)
    requires !Accepted(g)
    ensures MemberExpansion(g, ps) == Expansion([], Some(invalidDeclaration))
    ensures ExtensionExpansion(g, extendedType) == Expansion([], Some(invalidDeclaration))
  {
  }
}
