/**
 * `@Publishable` in the Combine flavour: it accepts only `final` classes, adds the
 * publisher members, the `PropertyPublisher` class and the observation registrar,
 * and one extension conforming the class to `Publishable` under the resolved
 * isolation.
 */
module CombinePublishableMacro {
  import opened Syntax
  import opened RegistrarEvents
  import PropertyPublisherDeclBuilder
  import ObservationRegistrarDeclBuilder

  const notFinalClass := "Publishable macro can only be applied to final Observable classes"

  /** `validate`: a class marked `final`, or a thrown diagnostic. */
  function Validate(g: DeclGroup): (r: Result<ClassDecl, Diagnostic>)
    ensures r.Ok? <==> g.ClassGroup? && g.decl.isFinal
    ensures r.Ok? ==> r.value == g.decl
    ensures r.Err? ==> r.error == Diagnostic(notFinalClass, None)
  {
    if g.ClassGroup? && g.decl.isFinal then Ok(g.decl) else Err(Diagnostic(notFinalClass, None))
  }

  /** One builder's output, in the order the member expansion concatenates them. */
  datatype PublishableMember =
    | PublisherMembers
    | PropertyPublisher(cls: PropertyPublisherDeclBuilder.PropertyPublisherClass)
    | ObservationRegistrar(registrar: ObservationRegistrarDeclBuilder.Registrar)

  /**
   * The member expansion: validation, then the arguments, then the Publisher,
   * PropertyPublisher and ObservationRegistrar builders in that order, the last
   * two given the same preferred isolation.
   */
  function MemberExpansion(args: seq<Argument>, g: DeclGroup, ps: seq<Property>): (r: Result<seq<PublishableMember>, Diagnostic>)
    ensures r.Ok? <==> Validate(g).Ok? && IsolationParameter(args).Ok?
    ensures Validate(g).Err? ==> r == Err(Validate(g).error)
    ensures Validate(g).Ok? && IsolationParameter(args).Err? ==> r == Err(IsolationParameter(args).error)
    ensures r.Ok? ==>
      var preferred := IsolationParameter(args).value;
      r.value == [PublisherMembers,
                  PropertyPublisher(PropertyPublisherDeclBuilder.Build(g.decl, ps, preferred)),
                  ObservationRegistrar(ObservationRegistrarDeclBuilder.Build(g.decl, ps, preferred))]
  {
    match Validate(g)
    case Err(e) => Err(e)
    case Ok(c) =>
      match IsolationParameter(args)
      case Err(e) => Err(e)
      case Ok(preferred) =>
        Ok([PublisherMembers,
            PropertyPublisher(PropertyPublisherDeclBuilder.Build(c, ps, preferred)),
            ObservationRegistrar(ObservationRegistrarDeclBuilder.Build(c, ps, preferred))])
  }

  /** `extension <type>: <isolation> Publishable {}`. */
  datatype Extension = Extension(extendedType: string, isolation: Option<Isolation>, baseType: string)

  /** The extension expansion: exactly one extension, conforming to `Publishable` under the resolved isolation. */
  function ExtensionExpansion(args: seq<Argument>, g: DeclGroup, extendedType: string): (r: Result<seq<Extension>, Diagnostic>)
    ensures r.Ok? <==> Validate(g).Ok? && IsolationParameter(args).Ok?
    ensures Validate(g).Err? ==> r == Err(Validate(g).error)
    ensures r.Ok? ==>
      |r.value| == 1 && r.value[0].baseType == "Publishable" && r.value[0].extendedType == extendedType
      && r.value[0].isolation == ResolvedIsolation(IsolationParameter(args).value, g.decl.isolation)
  {
    match Validate(g)
    case Err(e) => Err(e)
    case Ok(c) =>
      match IsolationParameter(args)
      case Err(e) => Err(e)
      case Ok(preferred) => Ok([Extension(extendedType, ResolvedIsolation(preferred, c.isolation), "Publishable")])
  }

  /**
   * The conformance, the registrar's bridge and every publisher of the
   * `PropertyPublisher` class follow one isolation: the `isolation:` argument
   * when given, the class's own otherwise.
   */
  lemma OneIsolationThroughout(args: seq<Argument>, g: DeclGroup, ps: seq<Property>, extendedType: string)
    requires MemberExpansion(args, g, ps).Ok?
    ensures var isolation := ExtensionExpansion(args, g, extendedType).value[0].isolation;
      var members := MemberExpansion(args, g, ps).value;
      members[2].registrar.bridge == BridgeFor(isolation)
      && (forall s :: s in members[1].cls.stored ==> s.isolation == isolation)
      && (forall t :: t in members[1].cls.computed ==> t.isolation == isolation)
  {
    var preferred := IsolationParameter(args).value;
    var cls := PropertyPublisherDeclBuilder.Build(g.decl, ps, preferred);
    assert forall s :: s in cls.stored ==> exists i :: 0 <= i < |cls.stored| && cls.stored[i] == s;
    assert forall t :: t in cls.computed ==> exists i :: 0 <= i < |cls.computed| && cls.computed[i] == t;
  }

  /** Arguments under any other label never change either expansion. */
  lemma IsolationOnlyFromLabel(args: seq<Argument>, others: seq<Argument>, g: DeclGroup, ps: seq<Property>, extendedType: string)
    requires forall a :: a in others ==> a.name != "isolation"
    ensures MemberExpansion(others + args, g, ps) == MemberExpansion(args, g, ps)
    ensures ExtensionExpansion(others + args, g, extendedType) == ExtensionExpansion(args, g, extendedType)
  {
    IsolationReadOnlyFromLabel(args, others);
  }
}
