/**
 * The companion `PropertyPublisher` class that `@Relayed` and the Combine
 * flavour of `@Publishable` emit: its superclass, the will/didChange publishers
 * named after the type, the subject completions in `deinit`, and one publisher
 * per stored, computed and memoized property, in three sections.
 */
module CombinePropertyPublisherDeclBuilder {
  import opened Syntax
  import opened TypeGroups
  import CamelCase

  /** The superclass of the emitted `PropertyPublisher`. */
  datatype Inheritance = SuperclassPropertyPublisher(superclass: string) | AnyPropertyPublisher

  /** `<Superclass>.PropertyPublisher` when a superclass type is given, `Relay.AnyPropertyPublisher` otherwise. */
  function InheritanceClause(superclassType: Option<string>): (r: Inheritance)
    ensures r.SuperclassPropertyPublisher? <==> superclassType.Some?
    ensures superclassType.Some? ==> r.superclass == superclassType.value
  {
    match superclassType
    case Some(t) => SuperclassPropertyPublisher(t)
    case None => AnyPropertyPublisher
  }

  /** `_name.send(completion: .finished)`, wrapped in the property's `#if` when it has one. */
  datatype Finish = Finish(subject: string, ifConfig: Option<string>)

  /**
   * A member of the emitted class: the `PassthroughSubject` field `_name`, or a
   * `final var name: some Publisher<T, Never>`, each wrapped in an `#if` when the
   * source declaration has one.
   */
  datatype PublisherMember =
    | SubjectField(subject: string, valueType: string, ifConfig: Option<string>)
    | PublisherProperty(name: string, valueType: string, access: AccessSpec, availability: Option<string>, ifConfig: Option<string>)

  function SubjectName(name: string): string
  {
    "_" + name
  }

  /** The `deinit` body: `for property in properties.all where property.isStoredPublishable`. */
  function FinishCalls(ps: seq<Property>, k: Classifiers): (r: seq<Finish>)
    ensures |r| == |Filter(ps, k.isStoredPublishable)|
    ensures forall i :: 0 <= i < |r| ==>
      r[i] == Finish(SubjectName(Filter(ps, k.isStoredPublishable)[i].name), Filter(ps, k.isStoredPublishable)[i].ifConfig)
  {
    if ps == [] then []
    else
      var head := if k.isStoredPublishable(ps[0]) then [Finish(SubjectName(ps[0].name), ps[0].ifConfig)] else [];
      var rest := FinishCalls(ps[1..], k);
      assert Filter(ps, k.isStoredPublishable) == (if k.isStoredPublishable(ps[0]) then [ps[0]] else []) + Filter(ps[1..], k.isStoredPublishable);
      head + rest
  }

  /**
   * What one stored property contributes: a subject `_name` and a publisher `name`
   * of the same element type, with the sibling access level and no availability
   * attribute, since stored properties cannot be made potentially unavailable.
   */
  function StoredPublisherPair(p: Property): seq<PublisherMember>
  {
    [SubjectField(SubjectName(p.name), p.inferredType, p.ifConfig),
     PublisherProperty(p.name, p.inferredType, SiblingOf(p.access), None, p.ifConfig)]
  }

  /** The pairs of the given properties, one after another. */
  function Pairs(qs: seq<Property>): (r: seq<PublisherMember>)
    ensures |r| == 2 * |qs|
  {
    if qs == [] then [] else StoredPublisherPair(qs[0]) + Pairs(qs[1..])
  }

  lemma {:induction false} PairsAt(qs: seq<Property>, i: nat)
    requires i < |qs|
    ensures Pairs(qs)[2 * i] == StoredPublisherPair(qs[i])[0]
    ensures Pairs(qs)[2 * i + 1] == StoredPublisherPair(qs[i])[1]
  {
    if i > 0 {
      PairsAt(qs[1..], i - 1);
    }
  }

  /** The stored section: the same `for … where property.isStoredPublishable` loop as `deinit`. */
  function StoredPublishers(ps: seq<Property>, k: Classifiers): (r: seq<PublisherMember>)
    ensures r == Pairs(Filter(ps, k.isStoredPublishable))
  {
    if ps == [] then []
    else
      var head := if k.isStoredPublishable(ps[0]) then StoredPublisherPair(ps[0]) else [];
      var rest := StoredPublishers(ps[1..], k);
      var kept := Filter(ps, k.isStoredPublishable);
      assert kept == (if k.isStoredPublishable(ps[0]) then [ps[0]] else []) + Filter(ps[1..], k.isStoredPublishable);
      if k.isStoredPublishable(ps[0]) then
        assert kept[0] == ps[0] && kept[1..] == Filter(ps[1..], k.isStoredPublishable);
        head + rest
      else
        assert kept == Filter(ps[1..], k.isStoredPublishable);
        head + rest
  }

  /** A computed property's publisher keeps the property's availability attribute. */
  function ComputedPublisher(p: Property): PublisherMember
  {
    PublisherProperty(p.name, p.inferredType, SiblingOf(p.access), p.availability, p.ifConfig)
  }

  /** The computed section: `for property in properties.all where property.isComputedPublishable`. */
  function ComputedPublishers(ps: seq<Property>, k: Classifiers): (r: seq<PublisherMember>)
    ensures |r| == |Filter(ps, k.isComputedPublishable)|
    ensures forall i :: 0 <= i < |r| ==> r[i] == ComputedPublisher(Filter(ps, k.isComputedPublishable)[i])
  {
    if ps == [] then []
    else
      var head := if k.isComputedPublishable(ps[0]) then [ComputedPublisher(ps[0])] else [];
      var rest := ComputedPublishers(ps[1..], k);
      assert Filter(ps, k.isComputedPublishable) == (if k.isComputedPublishable(ps[0]) then [ps[0]] else []) + Filter(ps[1..], k.isComputedPublishable);
      head + rest
  }

  /** A method `MemoizedMacro.extract` accepts and that does not carry `@PublisherIgnored`. */
  predicate PublishesMemoized(f: FunctionDecl, k: Classifiers)
  {
    k.extractMemoized(f).Some? && PublisherIgnored !in f.attributes
  }

  /** The publisher of a memoized value: the extracted name and return type, the method's availability. */
  function MemoizedPublisher(f: FunctionDecl, e: Extraction): PublisherMember
  {
    var access := match e.preferredAccess
      case Some(level) => InheritedBySibling(level)
      case None => Unstated;
    PublisherProperty(e.propertyName, e.returnType, access, f.availability, f.ifConfig)
  }

  /** The memoized section, over the class's members in declaration order. */
  function MemoizedPublishers(ms: seq<Member>, k: Classifiers): (r: seq<PublisherMember>)
    ensures |r| <= |ms|
    ensures forall f :: FunctionMember(f) in ms && PublishesMemoized(f, k) ==>
      MemoizedPublisher(f, k.extractMemoized(f).value) in r
    ensures forall m :: m in r ==>
      exists f :: FunctionMember(f) in ms && PublishesMemoized(f, k) && m == MemoizedPublisher(f, k.extractMemoized(f).value)
  {
    if ms == [] then []
    else
      var head := match ms[0]
        case FunctionMember(f) => if PublishesMemoized(f, k) then [MemoizedPublisher(f, k.extractMemoized(f).value)] else []
        case _ => [];
      var rest := MemoizedPublishers(ms[1..], k);
      assert forall x :: x in ms[1..] ==> x in ms;
      head + rest
  }

  /** The memoized section distributes over a split of the members, so it keeps their declaration order. */
  lemma {:induction false} MemoizedPublishersDistribute(a: seq<Member>, b: seq<Member>, k: Classifiers)
    ensures MemoizedPublishers(a + b, k) == MemoizedPublishers(a, k) + MemoizedPublishers(b, k)
  {
    if a == [] {
      assert a + b == b;
    } else {
      assert (a + b)[1..] == a[1..] + b;
      MemoizedPublishersDistribute(a[1..], b, k);
    }
  }

  /** One member contributes one publisher if it is a method that publishes a memoized value, and nothing otherwise. */
  lemma MemoizedPublishersOfOne(m: Member, k: Classifiers)
    ensures MemoizedPublishers([m], k) ==
      if m.FunctionMember? && PublishesMemoized(m.fn, k) then [MemoizedPublisher(m.fn, k.extractMemoized(m.fn).value)] else []
  {
    assert [m][1..] == [];
  }

  /** The emitted class, with its isolation, access and `final` modifier inherited from the observed class. */
  datatype PropertyPublisherClass = PropertyPublisherClass(
    isolation: Option<Isolation>,
    access: AccessLevel,
    isFinal: bool,
    inheritance: Inheritance,
    willChange: string,
    didChange: string,
    finishes: seq<Finish>,
    members: seq<PublisherMember>)

  /** `<lowerCamelCaseType>WillChange`, from the type name split into camel-case words. */
  function WillChangeName(c: ClassDecl): string
  {
    CamelCase.LowerCamelCase(c.typeWords) + "WillChange"
  }

  function DidChangeName(c: ClassDecl): string
  {
    CamelCase.LowerCamelCase(c.typeWords) + "DidChange"
  }

  /**
   * `build()`: the class body holds the stored section, then the computed one,
   * then the memoized one.
   */
  function Build(c: ClassDecl, ps: seq<Property>, k: Classifiers, superclassType: Option<string>, preferred: Option<Isolation>): (r: PropertyPublisherClass)
    ensures preferred.Some? ==> r.isolation == preferred
    ensures preferred.None? ==> r.isolation == c.isolation
    ensures r.access == c.access && r.isFinal == c.isFinal
    ensures r.willChange == WillChangeName(c) && r.didChange == DidChangeName(c)
    ensures r.finishes == FinishCalls(ps, k)
    ensures r.inheritance == InheritanceClause(superclassType)
    ensures var s := StoredPublishers(ps, k); var t := ComputedPublishers(ps, k);
      |r.members| == |s| + |t| + |MemoizedPublishers(c.members, k)| &&
      r.members[..|s|] == s && r.members[|s|..|s| + |t|] == t && r.members[|s| + |t|..] == MemoizedPublishers(c.members, k)
  {
    PropertyPublisherClass(
      ResolvedIsolation(preferred, c.isolation), c.access, c.isFinal,
      InheritanceClause(superclassType), WillChangeName(c), DidChangeName(c),
      FinishCalls(ps, k),
      StoredPublishers(ps, k) + ComputedPublishers(ps, k) + MemoizedPublishers(c.members, k))
  }

  /**
   * `deinit` finishes exactly the subjects the stored section declares: one
   * completion per subject field, in the same order, under the same `#if`.
   */
  lemma EverySubjectFinishedOnce(ps: seq<Property>, k: Classifiers)
    ensures |StoredPublishers(ps, k)| == 2 * |FinishCalls(ps, k)|
    ensures forall i :: 0 <= i < |FinishCalls(ps, k)| ==>
      StoredPublishers(ps, k)[2 * i].SubjectField? &&
      StoredPublishers(ps, k)[2 * i].subject == FinishCalls(ps, k)[i].subject &&
      StoredPublishers(ps, k)[2 * i].ifConfig == FinishCalls(ps, k)[i].ifConfig
  {
    forall i | 0 <= i < |FinishCalls(ps, k)|
      ensures StoredPublishers(ps, k)[2 * i] == StoredPublisherPair(Filter(ps, k.isStoredPublishable)[i])[0]
    {
      PairsAt(Filter(ps, k.isStoredPublishable), i);
    }
  }

  /**
   * Each stored-publishable property `p` yields the subject `_p` followed by the
   * publisher `p`, both of `p`'s type, the publisher without availability.
   */
  lemma StoredSubjectPrecedesPublisher(ps: seq<Property>, k: Classifiers, i: nat)
    requires i < |Filter(ps, k.isStoredPublishable)|
    ensures var p := Filter(ps, k.isStoredPublishable)[i]; var s := StoredPublishers(ps, k);
      p in ps && k.isStoredPublishable(p) &&
      s[2 * i] == SubjectField("_" + p.name, p.inferredType, p.ifConfig) &&
      s[2 * i + 1].PublisherProperty? && s[2 * i + 1].name == p.name &&
      s[2 * i + 1].valueType == p.inferredType && s[2 * i + 1].availability.None?
  {
    var p := Filter(ps, k.isStoredPublishable)[i];
    assert p in Filter(ps, k.isStoredPublishable);
    PairsAt(Filter(ps, k.isStoredPublishable), i);
  }

  /** Computed publishers carry their property's availability; stored ones never do. */
  lemma AvailabilityOnlyOnComputed(ps: seq<Property>, k: Classifiers)
    ensures forall m :: m in StoredPublishers(ps, k) && m.PublisherProperty? ==> m.availability.None?
    ensures forall i :: 0 <= i < |ComputedPublishers(ps, k)| ==>
      ComputedPublishers(ps, k)[i].availability == Filter(ps, k.isComputedPublishable)[i].availability
  {
    PairsWithoutAvailability(Filter(ps, k.isStoredPublishable));
  }

  lemma {:induction false} PairsWithoutAvailability(qs: seq<Property>)
    ensures forall m :: m in Pairs(qs) && m.PublisherProperty? ==> m.availability.None?
  {
    if qs != [] {
      PairsWithoutAvailability(qs[1..]);
      assert forall m :: m in Pairs(qs) ==> m in StoredPublisherPair(qs[0]) || m in Pairs(qs[1..]);
    }
  }

  /** The sections are computed member by member, so they distribute over a split of the declarations. */
  lemma {:induction false} FinishCallsDistribute(a: seq<Property>, b: seq<Property>, k: Classifiers)
    ensures FinishCalls(a + b, k) == FinishCalls(a, k) + FinishCalls(b, k)
  {
    if a == [] {
      assert a + b == b;
    } else {
      assert (a + b)[1..] == a[1..] + b;
      FinishCallsDistribute(a[1..], b, k);
    }
  }

  lemma {:induction false} StoredPublishersDistribute(a: seq<Property>, b: seq<Property>, k: Classifiers)
    ensures StoredPublishers(a + b, k) == StoredPublishers(a, k) + StoredPublishers(b, k)
  {
    if a == [] {
      assert a + b == b;
    } else {
      assert (a + b)[1..] == a[1..] + b;
      StoredPublishersDistribute(a[1..], b, k);
    }
  }

  lemma {:induction false} ComputedPublishersDistribute(a: seq<Property>, b: seq<Property>, k: Classifiers)
    ensures ComputedPublishers(a + b, k) == ComputedPublishers(a, k) + ComputedPublishers(b, k)
  {
    if a == [] {
      assert a + b == b;
    } else {
      assert (a + b)[1..] == a[1..] + b;
      ComputedPublishersDistribute(a[1..], b, k);
    }
  }

  /**
   * The will/didChange publishers share the type's lower-camel-case name as prefix:
   * it starts with a lower-case character and differs from the type name in letter
   * case only, e.g. `Person` gives `personWillChange`.
   */
  lemma ChangePublisherNames(c: ClassDecl)
    ensures var prefix := CamelCase.LowerCamelCase(c.typeWords);
      WillChangeName(c) == prefix + "WillChange" && DidChangeName(c) == prefix + "DidChange" &&
      prefix != [] && !('A' <= prefix[0] <= 'Z') &&
      CamelCase.Folded(prefix) == CamelCase.Folded(CamelCase.Concat(c.typeWords))
  {
    CamelCase.JoinedStartsLower(c.typeWords);
    CamelCase.JoinedChangesOnlyCase(c.typeWords);
  }

  lemma PersonWillChange(c: ClassDecl)
    requires c.typeWords == ["Person"]
    ensures WillChangeName(c) == "personWillChange" && DidChangeName(c) == "personDidChange"
  {
    assert CamelCase.Folded("Person") == "person";
    assert c.typeWords[1..] == [];
  }
}
