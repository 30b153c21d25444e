/**
 * `@RelayedProperty`: turns a tracked stored property into a computed one with
 * relayed accessors, backed by a private peer `_name` that holds the value.
 */
module RelayedPropertyMacro {
  import opened Syntax
  import ObservationSuppressedMacro
  import PublisherSuppressedMacro
  import RelayedPropertyDeclAccessorBuilder

  const attribute: Attribute := RelayedProperty

  /** One binding `pattern: type = initializer` of a variable declaration. */
  datatype Binding = Binding(pattern: string, typeAnnotation: Option<string>, initializer: Option<string>)

  /**
   * A declaration a macro is attached to. `parsed` is what `parseStandalone` makes
   * of a variable declaration with a single property, `binding` is that property's
   * binding and `bindings` all the bindings written.
   */
  datatype Declaration =
    | VariableDeclaration(parsed: Option<Property>, binding: Binding, bindings: seq<Binding>)
    | ClassDeclaration(decl: ClassDecl)
    | FunctionDeclaration(fn: FunctionDecl)

  /** `PropertiesParser.parseStandalone`: only a variable declaration can yield a property. */
  function ParseStandalone(d: Declaration): Option<Property>
  {
    if d.VariableDeclaration? then d.parsed else None
  }

  predicate Tracked(p: Property)
  {
    ObservationSuppressedMacro.IsStoredObservationTracked(p) || PublisherSuppressedMacro.IsStoredPublisherTracked(p)
  }

  /** `validateNode`: a standalone property tracked on at least one channel. */
  function ValidateNode(d: Declaration): (r: Option<Property>)
    ensures r.Some? <==> ParseStandalone(d).Some? && Tracked(ParseStandalone(d).value)
    ensures r.Some? ==> r == ParseStandalone(d)
  {
    match ParseStandalone(d)
    case Some(p) => if Tracked(p) then Some(p) else None
    case None => None
  }

  /** `shouldAttach(to:)`: accepted and not already carrying `@RelayedProperty`. */
  function ShouldAttach(d: Declaration): (r: bool)
    ensures r <==> d.VariableDeclaration? && d.parsed.Some? && Tracked(d.parsed.value) && attribute !in d.parsed.value.attributes
  {
    match ValidateNode(d)
    case Some(p) => attribute !in p.attributes
    case None => false
  }

  /** The declaration once `@RelayedProperty` has been written on it. */
  function Attached(d: Declaration): Declaration
  {
    match d
    case VariableDeclaration(Some(p), b, bs) => VariableDeclaration(Some(p.(attributes := p.attributes + [attribute])), b, bs)
    case _ => d
  }

  /**
   * Attaching is idempotent: a declaration the macro would mark is accepted, and
   * once marked it is not marked again.
   */
  lemma ShouldAttachIdempotent(d: Declaration)
    ensures ShouldAttach(d) ==> ValidateNode(d).Some? && !ShouldAttach(Attached(d))
  {
    if ShouldAttach(d) {
      var p := d.parsed.value;
      var q := p.(attributes := p.attributes + [attribute]);
      assert attribute in q.attributes;
      assert ObservationSuppressedMacro.IsStoredObservationTracked(q) == ObservationSuppressedMacro.IsStoredObservationTracked(p);
      assert PublisherSuppressedMacro.IsStoredPublisherTracked(q) == PublisherSuppressedMacro.IsStoredPublisherTracked(p);
    }
  }

  /** The accessor expansion: no accessors for a rejected declaration. */
  function AccessorExpansion(d: Declaration): (r: seq<RelayedPropertyDeclAccessorBuilder.Accessor>)
    ensures r == [] <==> ValidateNode(d).None?
    ensures ValidateNode(d).Some? ==> r == RelayedPropertyDeclAccessorBuilder.BuildAccessors(ValidateNode(d).value)
  {
    match ValidateNode(d)
    case Some(p) => RelayedPropertyDeclAccessorBuilder.BuildAccessors(p)
    case None => []
  }

  /** The peer: the backing storage declaration and its bindings. */
  datatype Storage = Storage(property: Property, bindings: seq<Binding>)

  /**
   * The peer expansion: a private copy of the property named `_name`, without
   * `@RelayedProperty`, whose bindings are replaced by the single renamed binding.
   */
  method PeerExpansion(d: Declaration) returns (r: seq<Storage>)
    ensures ValidateNode(d).None? ==> r == []
    ensures ValidateNode(d).Some? ==>
      var p := ValidateNode(d).value;
      |r| == 1
      && r[0].property.name == "_" + p.name
      && r[0].property.access == Private
      && (forall a :: a in r[0].property.attributes <==> a in p.attributes && a != attribute)
      && r[0].bindings == [d.binding.(pattern := "_" + p.name)]
      && r[0].property.(name := p.name, access := p.access, attributes := p.attributes) == p
  {
    var validated := ValidateNode(d);
    if validated.None? {
      return [];
    }
    var p := validated.value;
    var attributes := Without(p.attributes, attribute);
    var name := "_" + p.name;
    var binding := d.binding.(pattern := name);
    var bindings := d.bindings;
    bindings := bindings[..0] + [binding] + bindings[|bindings|..];
    var storage := p.(attributes := attributes, access := Private, name := name);
    r := [Storage(storage, bindings)];
  }

  /**
   * The backing storage is classified like the property: it keeps every marker,
   * so a suppressed property has suppressed storage.
   */
  lemma StorageKeepsTracking(p: Property)
    ensures var s := p.(attributes := Without(p.attributes, attribute), access := Private, name := "_" + p.name);
      ObservationSuppressedMacro.IsStoredObservationTracked(s) == ObservationSuppressedMacro.IsStoredObservationTracked(p)
      && PublisherSuppressedMacro.IsStoredPublisherTracked(s) == PublisherSuppressedMacro.IsStoredPublisherTracked(p)
  {
  }
}
