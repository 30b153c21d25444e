/**
 * `@Relayed`: the class-level macro that validates its class, adds the publisher
 * members and the Observable machinery, marks tracked members with
 * `@RelayedProperty`, and adds the `Publishable` and `Observable` conformances.
 */
module RelayedMacro {
  import opened Syntax
  import RelayedPropertyMacro
  import ObservableDeclBuilder
  import CombinePropertyPublisherDeclBuilder

  const attribute: Attribute := Relayed

  /** `ObservableMacro.attribute`, which is spelled `@Observation`. */
  const observableMacroAttribute: Attribute := Observation

  const notAClass := "@Relayed macro can only be applied to classes"
  const ownsObservable := "@Relayed macro generates its own Observable protocol conformance"

  /**
   * `validateNode` as written: the class is rejected when it carries an attribute
   * like `ObservableMacro.attribute`, that is `@Observation`.
   */
  function ValidateNodeAsWritten(g: DeclGroup): (r: Result<ClassDecl, Diagnostic>)
    ensures r.Ok? <==> g.ClassGroup? && observableMacroAttribute !in g.decl.attributes
    ensures r.Ok? ==> r.value == g.decl
  {
    match g
    case OtherGroup => Err(Diagnostic(notAClass, None))
    case ClassGroup(c) =>
      if observableMacroAttribute in c.attributes then Err(Diagnostic(ownsObservable, Some(observableMacroAttribute)))
      else Ok(c)
  }

  /**
   * `validateNode` as its diagnostic describes it: a non-class is rejected, and so
   * is a class that already carries `@Observable`, with a fix-it removing exactly
   * that attribute.
   */
  function ValidateNode(g: DeclGroup): (r: Result<ClassDecl, Diagnostic>)
    ensures r.Ok? <==> g.ClassGroup? && Observable !in g.decl.attributes
    ensures r.Ok? ==> r.value == g.decl
    ensures g.OtherGroup? ==> r == Err(Diagnostic(notAClass, None))
    ensures g.ClassGroup? && Observable in g.decl.attributes ==> r == Err(Diagnostic(ownsObservable, Some(Observable)))
  {
    match g
    case OtherGroup => Err(Diagnostic(notAClass, None))
    case ClassGroup(c) =>
      if Observable in c.attributes then Err(Diagnostic(ownsObservable, Some(Observable)))
      else Ok(c)
  }

  /**
   * As written, a class marked `@Observable` (and not `@Observation`) passes
   * validation, although the diagnostic and its fix-it are about `@Observable`.
   */
  lemma ObservableClassPassesAsWritten(c: ClassDecl)
    requires Observable in c.attributes && Observation !in c.attributes
    ensures ValidateNodeAsWritten(ClassGroup(c)) == Ok(c)
    ensures ValidateNode(ClassGroup(c)).Err? && ValidateNode(ClassGroup(c)).error.fixItRemoves == Some(Observable)
  {
  }

  /** Without either attribute, the written check and the described one agree. */
  lemma ValidationsAgreeWithoutAttributes(g: DeclGroup)
    requires g.ClassGroup? ==> Observable !in g.decl.attributes && Observation !in g.decl.attributes
    ensures ValidateNodeAsWritten(g) == ValidateNode(g)
  {
  }

  /** One entry of the member expansion, in the order the builders produce them. */
  datatype RelayedMember =
    | PublisherMembers(superclassType: Option<string>)
    | PropertyPublisher(cls: CombinePropertyPublisherDeclBuilder.PropertyPublisherClass)
    | ObservableMember(decl: ObservableDeclBuilder.ObservableDecl)

  /**
   * The superclass whose publisher machinery is extended: the class's first
   * inherited type, unless `Publishable` is among the conformances still to add,
   * in which case the class is its own root.
   */
  function SuperclassType(c: ClassDecl, protocols: seq<string>): (r: Option<string>)
    ensures r.Some? <==> "Publishable" !in protocols && c.superclass.Some?
    ensures r.Some? ==> r == c.superclass
  {
    if "Publishable" !in protocols then c.superclass else None
  }

  function ObservableMembers(ds: seq<ObservableDeclBuilder.ObservableDecl>): (r: seq<RelayedMember>)
    ensures |r| == |ds| && forall i :: 0 <= i < |ds| ==> r[i] == ObservableMember(ds[i])
  {
    seq(|ds|, i requires 0 <= i < |ds| => ObservableMember(ds[i]))
  }

  /**
   * The member expansion: validation (as written), then the arguments, then the
   * Publisher, PropertyPublisher and Observable builders in that order, all three
   * given the same superclass decision.
   */
  function MemberExpansion(args: seq<Argument>, g: DeclGroup, protocols: seq<string>, ps: seq<Property>, k: Classifiers): (r: Result<seq<RelayedMember>, Diagnostic>)
    ensures r.Ok? <==> ValidateNodeAsWritten(g).Ok? && IsolationParameter(args).Ok?
    ensures ValidateNodeAsWritten(g).Err? ==> r == Err(ValidateNodeAsWritten(g).error)
    ensures ValidateNodeAsWritten(g).Ok? && IsolationParameter(args).Err? ==> r == Err(IsolationParameter(args).error)
    ensures r.Ok? ==>
      var st := SuperclassType(g.decl, protocols);
      |r.value| == 7 &&
      r.value[0] == PublisherMembers(st) &&
      r.value[1].PropertyPublisher? &&
      r.value[1].cls == CombinePropertyPublisherDeclBuilder.Build(g.decl, ps, k, st, IsolationParameter(args).value) &&
      r.value[1].cls.inheritance == CombinePropertyPublisherDeclBuilder.InheritanceClause(st) &&
      r.value[1].cls.finishes == CombinePropertyPublisherDeclBuilder.FinishCalls(ps, k) &&
      r.value[2..] == ObservableMembers(ObservableDeclBuilder.Build())
  {
    match ValidateNodeAsWritten(g)
    case Err(e) => Err(e)
    case Ok(c) =>
      match IsolationParameter(args)
      case Err(e) => Err(e)
      case Ok(preferred) =>
        var st := SuperclassType(c, protocols);
        Ok([PublisherMembers(st),
            PropertyPublisher(CombinePropertyPublisherDeclBuilder.Build(c, ps, k, st, preferred))]
           + ObservableMembers(ObservableDeclBuilder.Build()))
  }

  /**
   * The member-attribute expansion as written: `shouldAttach` is asked about the
   * class the macro is attached to, not about the member being visited.
   */
  function MemberAttributeExpansionAsWritten(c: ClassDecl, member: RelayedPropertyMacro.Declaration): (r: seq<Attribute>)
    ensures r == [RelayedPropertyMacro.attribute] <==> RelayedPropertyMacro.ShouldAttach(RelayedPropertyMacro.ClassDeclaration(c))
  {
    if RelayedPropertyMacro.ShouldAttach(RelayedPropertyMacro.ClassDeclaration(c)) then [RelayedPropertyMacro.attribute] else []
  }

  /** As written, no member is ever marked: a class is not a standalone property. */
  lemma AsWrittenNeverMarks(c: ClassDecl, member: RelayedPropertyMacro.Declaration)
    ensures MemberAttributeExpansionAsWritten(c, member) == []
  {
  }

  /** The member-attribute expansion asking about the visited member: `[@RelayedProperty]` exactly when it should be attached. */
  function MemberAttributeExpansion(c: ClassDecl, member: RelayedPropertyMacro.Declaration): (r: seq<Attribute>)
    ensures r == [RelayedPropertyMacro.attribute] <==> RelayedPropertyMacro.ShouldAttach(member)
    ensures r == [] <==> !RelayedPropertyMacro.ShouldAttach(member)
  {
    if RelayedPropertyMacro.ShouldAttach(member) then [RelayedPropertyMacro.attribute] else []
  }

  /**
   * A tracked stored property without `@RelayedProperty`, such as `var breed` of a
   * `@Relayed` subclass, is marked; once marked it is not marked again.
   */
  lemma TrackedMemberMarkedOnce(c: ClassDecl, member: RelayedPropertyMacro.Declaration)
    requires member.VariableDeclaration? && member.parsed.Some?
    requires RelayedPropertyMacro.Tracked(member.parsed.value)
    requires RelayedPropertyMacro.attribute !in member.parsed.value.attributes
    ensures MemberAttributeExpansion(c, member) == [RelayedPropertyMacro.attribute]
    ensures MemberAttributeExpansionAsWritten(c, member) == []
    ensures MemberAttributeExpansion(c, RelayedPropertyMacro.Attached(member)) == []
  {
    RelayedPropertyMacro.ShouldAttachIdempotent(member);
  }

  /** A conformance in an extension's inheritance clause, with its isolation attribute. */
  datatype Conformance = Conformance(isolation: Option<Isolation>, baseType: string)

  /** `extension <type>: <conformance> {}`, with the class's availability attributes. */
  datatype Extension = Extension(availability: Option<string>, extendedType: string, conformance: Conformance)

  /**
   * The extension expansion. With nothing to conform to it stops before
   * validating; otherwise it collects `Relay.Publishable` (with the resolved
   * isolation) and then `Observation.Observable` (always `nonisolated`) in a local
   * list, and emits one extension per entry.
   */
  method ExtensionExpansion(args: seq<Argument>, g: DeclGroup, extendedType: string, protocols: seq<string>)
    returns (r: Result<seq<Extension>, Diagnostic>)
    ensures protocols == [] ==> r == Ok([])
    ensures protocols != [] ==> (r.Ok? <==> ValidateNodeAsWritten(g).Ok? && IsolationParameter(args).Ok?)
    ensures protocols != [] && ValidateNodeAsWritten(g).Err? ==> r == Err(ValidateNodeAsWritten(g).error)
    ensures r.Ok? && protocols != [] ==>
      var c := g.decl;
      var publishable := Extension(c.availability, extendedType,
        Conformance(ResolvedIsolation(IsolationParameter(args).value, c.isolation), "Relay.Publishable"));
      var observable := Extension(c.availability, extendedType, Conformance(Some(Nonisolated), "Observation.Observable"));
      r.value == (if "Publishable" in protocols then [publishable] else []) + (if "Observable" in protocols then [observable] else [])
  {
    if protocols == [] {
      return Ok([]);
    }
    var validated := ValidateNodeAsWritten(g);
    if validated.Err? {
      return Err(validated.error);
    }
    var c := validated.value;
    var parameters := IsolationParameter(args);
    if parameters.Err? {
      return Err(parameters.error);
    }
    var inheritedTypes: seq<Conformance> := [];
    if "Publishable" in protocols {
      var isolation := ResolvedIsolation(parameters.value, c.isolation);
      inheritedTypes := inheritedTypes + [Conformance(isolation, "Relay.Publishable")];
    }
    if "Observable" in protocols {
      inheritedTypes := inheritedTypes + [Conformance(Some(Nonisolated), "Observation.Observable")];
    }
    var extensions: seq<Extension> := [];
    var i := 0;
    while i < |inheritedTypes|
      invariant 0 <= i <= |inheritedTypes|
      invariant extensions == seq(i, j requires 0 <= j < i => Extension(c.availability, extendedType, inheritedTypes[j]))
    {
      extensions := extensions + [Extension(c.availability, extendedType, inheritedTypes[i])];
      i := i + 1;
    }
    return Ok(extensions);
  }

  /**
   * At most one extension per requested protocol, every one carrying the class's
   * availability; `Publishable` comes first and `Observable` is never isolated.
   */
  lemma ExtensionsPerProtocol(exts: seq<Extension>, c: ClassDecl, extendedType: string, protocols: seq<string>, preferred: Option<Isolation>)
    requires exts ==
      (if "Publishable" in protocols then [Extension(c.availability, extendedType, Conformance(ResolvedIsolation(preferred, c.isolation), "Relay.Publishable"))] else []) +
      (if "Observable" in protocols then [Extension(c.availability, extendedType, Conformance(Some(Nonisolated), "Observation.Observable"))] else [])
    ensures |exts| <= 2 && |exts| <= |protocols|
    ensures forall e :: e in exts ==> e.availability == c.availability && e.extendedType == extendedType
    ensures "Publishable" in protocols ==> exts[0].conformance.baseType == "Relay.Publishable"
    ensures forall e :: e in exts && e.conformance.baseType == "Observation.Observable" ==> e.conformance.isolation == Some(Nonisolated)
    ensures preferred.Some? && "Publishable" in protocols ==> exts[0].conformance.isolation == preferred
  {
    if "Publishable" in protocols && "Observable" in protocols {
      var i :| 0 <= i < |protocols| && protocols[i] == "Publishable";
      var j :| 0 <= j < |protocols| && protocols[j] == "Observable";
      assert i != j;
    }
  }
}
