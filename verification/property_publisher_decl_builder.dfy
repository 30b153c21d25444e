/**
 * The `PropertyPublisher` class `@Publishable` emits: a subclass of
 * `AnyPropertyPublisher<T>` with a `deinit` finishing every subject, one subject
 * and publisher per stored mutable instance property, one publisher per computed
 * instance property, and one per `@Memoized` method of the class.
 */
module PropertyPublisherDeclBuilder {
  import opened Syntax
  import opened TypeGroups
  import MemoizedMacro

  /** `fileprivate let _name = PassthroughSubject<T, Never>()` with the publisher `var name: AnyPublisher<T, Never>`. */
  datatype StoredPublisher = StoredPublisher(subject: string, name: string, valueType: string, isolation: Option<Isolation>, access: AccessSpec)

  /** `var name: AnyPublisher<T, Never> { _computedPropertyPublisher(for: \.name) }`. */
  datatype ComputedPublisher = ComputedPublisher(name: string, valueType: string, isolation: Option<Isolation>, access: AccessSpec)

  /** `final class PropertyPublisher: AnyPropertyPublisher<T>`, its `deinit` and its three sections. */
  datatype PropertyPublisherClass = PropertyPublisherClass(
    access: AccessLevel,
    isFinal: bool,
    subjectType: string,
    finishes: seq<string>,
    stored: seq<StoredPublisher>,
    computed: seq<ComputedPublisher>,
    memoized: seq<ComputedPublisher>)

  /** The `deinit` body: `_name.send(completion: .finished)` for every stored mutable instance property. */
  function FinishCalls(ps: seq<Property>): (r: seq<string>)
    ensures |r| == |StoredMutableInstance(ps)|
    ensures forall i :: 0 <= i < |r| ==> r[i] == "_" + StoredMutableInstance(ps)[i].name
  {
    var qs := StoredMutableInstance(ps);
    seq(|qs|, i requires 0 <= i < |qs| => "_" + qs[i].name)
  }

  /** The stored section, with the inherited isolation and the sibling access level. */
  function StoredPublishers(ps: seq<Property>, inherited: Option<Isolation>): (r: seq<StoredPublisher>)
    ensures |r| == |StoredMutableInstance(ps)|
    ensures forall i :: 0 <= i < |r| ==>
      var p := StoredMutableInstance(ps)[i];
      r[i] == StoredPublisher("_" + p.name, p.name, p.inferredType, inherited, SiblingOf(p.access))
  {
    var qs := StoredMutableInstance(ps);
    seq(|qs|, i requires 0 <= i < |qs| =>
      StoredPublisher("_" + qs[i].name, qs[i].name, qs[i].inferredType, inherited, SiblingOf(qs[i].access)))
  }

  /** The computed section, over `computed.instance`, with the inherited isolation and the sibling access level. */
  function ComputedPublishers(ps: seq<Property>, inherited: Option<Isolation>): (r: seq<ComputedPublisher>)
    ensures |r| == |ComputedInstance(ps)|
    ensures forall i :: 0 <= i < |r| ==>
      var p := ComputedInstance(ps)[i];
      r[i] == ComputedPublisher(p.name, p.inferredType, inherited, SiblingOf(p.access))
  {
    var qs := ComputedInstance(ps);
    seq(|qs|, i requires 0 <= i < |qs| =>
      ComputedPublisher(qs[i].name, qs[i].inferredType, inherited, SiblingOf(qs[i].access)))
  }

  /**
   * The arguments of a method's first `@Memoized` attribute, when it has one and
   * they parse (`try? MemoizedMacro.Parameters(from:)`).
   */
  function MemoizedParametersOf(f: FunctionDecl): (r: Option<MemoizedParameters>)
    ensures r.Some? ==> HasMemoized(f.attributes) && FirstMemoized(f.attributes).value.parameters == r
  {
    match FirstMemoized(f.attributes)
    case Some(a) => a.parameters
    case None => None
  }

  /** A method whose publisher is emitted: `@Memoized` with parsable arguments, and a return type. */
  predicate Discovered(f: FunctionDecl)
  {
    MemoizedParametersOf(f).Some? && MemoizedMacro.TrimmedReturnType(f).Some?
  }

  /** The discovered methods among the class's members, in declaration order. */
  function DiscoveredMethods(ms: seq<Member>): (r: seq<FunctionDecl>)
    ensures forall f :: f in r <==> FunctionMember(f) in ms && Discovered(f)
    ensures |r| <= |ms|
  {
    if ms == [] then []
    else
      var head := if ms[0].FunctionMember? && Discovered(ms[0].fn) then [ms[0].fn] else [];
      var rest := DiscoveredMethods(ms[1..]);
      assert ms == [ms[0]] + ms[1..];
      head + rest
  }

  /** Discovery distributes over a split of the members, so it keeps their declaration order. */
  lemma {:induction false} DiscoveredMethodsDistribute(a: seq<Member>, b: seq<Member>)
    ensures DiscoveredMethods(a + b) == DiscoveredMethods(a) + DiscoveredMethods(b)
  {
    if a == [] {
      assert a + b == b;
    } else {
      assert (a + b)[1..] == a[1..] + b;
      DiscoveredMethodsDistribute(a[1..], b);
    }
  }

  /** One member is discovered exactly when it is a method that `Discovered` accepts. */
  lemma DiscoveredMethodsOfOne(m: Member)
    ensures DiscoveredMethods([m]) == if m.FunctionMember? && Discovered(m.fn) then [m.fn] else []
  {
    assert [m][1..] == [];
  }

  /**
   * The publisher of a memoized value: the preferred name or the default one,
   * the method's return type, the preferred isolation or the inherited one, and
   * exactly the preferred access level.
   */
  function MemoizedPublisher(f: FunctionDecl, inherited: Option<Isolation>): (r: ComputedPublisher)
    requires Discovered(f)
    ensures var parameters := MemoizedParametersOf(f).value;
      (parameters.propertyName.Some? ==> r.name == parameters.propertyName.value)
      && (parameters.propertyName.None? ==> r.name == MemoizedMacro.DefaultName(f))
      && r.valueType == MemoizedMacro.TrimmedReturnType(f).value
      && (parameters.isolation.Some? ==> r.isolation == parameters.isolation)
      && (parameters.isolation.None? ==> r.isolation == inherited)
      && (parameters.access.Some? ==> r.access == Exactly(parameters.access.value))
      && (parameters.access.None? ==> r.access == Unstated)
  {
    var parameters := MemoizedParametersOf(f).value;
    var access := match parameters.access
      case Some(level) => Exactly(level)
      case None => Unstated;
    ComputedPublisher(
      parameters.propertyName.GetOr(MemoizedMacro.DefaultName(f)),
      MemoizedMacro.TrimmedReturnType(f).value,
      if parameters.isolation.Some? then parameters.isolation else inherited,
      access)
  }

  /** The memoized section: one publisher per discovered method. */
  function MemoizedPublishers(ms: seq<Member>, inherited: Option<Isolation>): (r: seq<ComputedPublisher>)
    ensures |r| == |DiscoveredMethods(ms)|
    ensures forall i :: 0 <= i < |r| ==> r[i] == MemoizedPublisher(DiscoveredMethods(ms)[i], inherited)
  {
    var fs := DiscoveredMethods(ms);
    seq(|fs|, i requires 0 <= i < |fs| => MemoizedPublisher(fs[i], inherited))
  }

  /**
   * `build()`: the class is `final`, inherits the class's access level, and holds
   * the `deinit`, then the stored, computed and memoized sections, all with the
   * inherited isolation (a preferred one first).
   */
  function Build(c: ClassDecl, ps: seq<Property>, preferred: Option<Isolation>): (r: PropertyPublisherClass)
    ensures r.isFinal && r.access == c.access && r.subjectType == c.typeName
    ensures r.finishes == FinishCalls(ps)
    ensures r.stored == StoredPublishers(ps, ResolvedIsolation(preferred, c.isolation))
    ensures r.computed == ComputedPublishers(ps, ResolvedIsolation(preferred, c.isolation))
    ensures r.memoized == MemoizedPublishers(c.members, ResolvedIsolation(preferred, c.isolation))
  {
    var inherited := ResolvedIsolation(preferred, c.isolation);
    PropertyPublisherClass(c.access, true, c.typeName, FinishCalls(ps),
      StoredPublishers(ps, inherited), ComputedPublishers(ps, inherited), MemoizedPublishers(c.members, inherited))
  }

  /**
   * `deinit` finishes exactly the subjects of the stored section, in order; every
   * stored publisher is for a stored mutable instance property and every computed
   * one for a computed instance property.
   */
  lemma SectionsMatchProperties(c: ClassDecl, ps: seq<Property>, preferred: Option<Isolation>)
    ensures var r := Build(c, ps, preferred);
      |r.finishes| == |r.stored|
      && (forall i :: 0 <= i < |r.stored| ==> r.finishes[i] == r.stored[i].subject == "_" + r.stored[i].name)
      && (forall s :: s in r.stored ==> exists p :: p in ps && IsStoredMutableInstance(p) && s.name == p.name && s.valueType == p.inferredType)
      && (forall t :: t in r.computed ==> exists p :: p in ps && IsComputedInstance(p) && t.name == p.name && t.valueType == p.inferredType)
  {
    var inherited := ResolvedIsolation(preferred, c.isolation);
    StoredFromProperties(ps, inherited);
    ComputedFromProperties(ps, inherited);
  }

  lemma StoredFromProperties(ps: seq<Property>, inherited: Option<Isolation>)
    ensures forall s :: s in StoredPublishers(ps, inherited) ==>
      exists p :: p in ps && IsStoredMutableInstance(p) && s.name == p.name && s.valueType == p.inferredType
  {
    var stored := StoredPublishers(ps, inherited);
    forall s | s in stored
      ensures exists p :: p in ps && IsStoredMutableInstance(p) && s.name == p.name && s.valueType == p.inferredType
    {
      var i :| 0 <= i < |stored| && stored[i] == s;
      assert StoredMutableInstance(ps)[i] in StoredMutableInstance(ps);
    }
  }

  lemma ComputedFromProperties(ps: seq<Property>, inherited: Option<Isolation>)
    ensures forall t :: t in ComputedPublishers(ps, inherited) ==>
      exists p :: p in ps && IsComputedInstance(p) && t.name == p.name && t.valueType == p.inferredType
  {
    var computed := ComputedPublishers(ps, inherited);
    forall t | t in computed
      ensures exists p :: p in ps && IsComputedInstance(p) && t.name == p.name && t.valueType == p.inferredType
    {
      var i :| 0 <= i < |computed| && computed[i] == t;
      assert ComputedInstance(ps)[i] in ComputedInstance(ps);
    }
  }

  /**
   * A memoized publisher has the name and type of the accessor `@Memoized` emits
   * for the same method, whenever that macro accepts it; an explicit isolation
   * on the method wins over the class's.
   */
  lemma MemoizedPublisherMatchesAccessor(c: ClassDecl, f: FunctionDecl, inherited: Option<Isolation>)
    requires Discovered(f)
    requires MemoizedMacro.Validate(FunctionMember(f), Some(c), MemoizedParametersOf(f).value.propertyName).Ok?
    ensures var input := MemoizedMacro.Validate(FunctionMember(f), Some(c), MemoizedParametersOf(f).value.propertyName).value;
      MemoizedPublisher(f, inherited).name == input.propertyName
      && MemoizedPublisher(f, inherited).valueType == input.trimmedReturnType
    ensures MemoizedParametersOf(f).value.isolation.Some? ==>
      MemoizedPublisher(f, inherited).isolation == MemoizedParametersOf(f).value.isolation
  {
  }

  /** A method with `@Memoized(isolation: …)` whose arguments parse gets a publisher with that isolation. */
  lemma PreferredIsolationWins(ms: seq<Member>, inherited: Option<Isolation>, i: nat)
    requires i < |DiscoveredMethods(ms)|
    ensures var f := DiscoveredMethods(ms)[i];
      FunctionMember(f) in ms
      && MemoizedPublishers(ms, inherited)[i].isolation ==
         ResolvedIsolation(MemoizedParametersOf(f).value.isolation, inherited)
  {
    assert DiscoveredMethods(ms)[i] in DiscoveredMethods(ms);
  }
}
