/**
 * The members `@Relayed` adds for observation: the registrar property and four
 * `shouldNotifyObservers` overloads, which the setters consult before notifying.
 */
module ObservableDeclBuilder {
  import opened Events

  datatype Overload = Unconstrained | EquatableOverload | AnyObjectOverload | AnyObjectEquatableOverload

  datatype ObservableDecl = ObservationRegistrarProperty | ShouldNotifyObservers(overload: Overload)

  /** The registrar property, then the overloads from least to most constrained. */
  function Build(): (r: seq<ObservableDecl>)
    ensures |r| == 5 && r[0] == ObservationRegistrarProperty
  {
    [
      ObservationRegistrarProperty,
      ShouldNotifyObservers(Unconstrained),
      ShouldNotifyObservers(EquatableOverload),
      ShouldNotifyObservers(AnyObjectOverload),
      ShouldNotifyObservers(AnyObjectEquatableOverload)
    ]
  }

  /** Every overload is emitted exactly once, so every call resolves to exactly one body. */
  lemma BuildEmitsEachOverloadOnce(o: Overload)
    ensures multiset(Build())[ShouldNotifyObservers(o)] == 1
    ensures multiset(Build())[ObservationRegistrarProperty] == 1
  {
    var r := Build();
    assert multiset(r) == multiset{r[0], r[1], r[2], r[3], r[4]};
    match o {
      case Unconstrained =>
      case EquatableOverload =>
      case AnyObjectOverload =>
      case AnyObjectEquatableOverload =>
    }
  }

  /** What the compiler knows about a property's type when it resolves the call. */
  datatype Conformances = Conformances(equatable: bool, anyObject: bool)

  function RequiresEquatable(o: Overload): bool
  {
    o == EquatableOverload || o == AnyObjectEquatableOverload
  }

  function RequiresAnyObject(o: Overload): bool
  {
    o == AnyObjectOverload || o == AnyObjectEquatableOverload
  }

  /** The overload's generic constraints are met by the type. */
  predicate Applicable(o: Overload, c: Conformances)
  {
    (RequiresEquatable(o) ==> c.equatable) && (RequiresAnyObject(o) ==> c.anyObject)
  }

  /** `o` is at least as constrained as `o2`. */
  predicate AtLeastAsSpecific(o: Overload, o2: Overload)
  {
    (RequiresEquatable(o2) ==> RequiresEquatable(o)) && (RequiresAnyObject(o2) ==> RequiresAnyObject(o))
  }

  /** Overload resolution: the applicable overload that is at least as constrained as every other applicable one. */
  function Selected(c: Conformances): (o: Overload)
    ensures Applicable(o, c)
    ensures forall o2: Overload :: Applicable(o2, c) ==> AtLeastAsSpecific(o, o2)
  {
    if c.equatable && c.anyObject then AnyObjectEquatableOverload
    else if c.equatable then EquatableOverload
    else if c.anyObject then AnyObjectOverload
    else Unconstrained
  }

  /** The emitted overload bodies: `true`, `lhs != rhs`, `lhs !== rhs` and `lhs != rhs`. */
  function ShouldNotify(o: Overload, lhs: Value, rhs: Value): (r: bool)
    ensures lhs == rhs ==> (r <==> o == Unconstrained)
    ensures lhs.content != rhs.content && lhs.identity != rhs.identity ==> r
  {
    match o
    case Unconstrained => true
    case EquatableOverload => lhs.content != rhs.content
    case AnyObjectOverload => lhs.identity != rhs.identity
    case AnyObjectEquatableOverload => lhs.content != rhs.content
  }

  /** Re-assigning the same value notifies only when the type is neither Equatable nor a class. */
  lemma SameValueNotifiesOnlyUnconstrained(c: Conformances, v: Value)
    ensures ShouldNotify(Selected(c), v, v) <==> !c.equatable && !c.anyObject
  {
  }

  /**
   * An Equatable type, class or not, is compared by value: an instance that is
   * distinct but `==` does not notify. A class that is not Equatable is compared
   * by identity.
   */
  lemma ComparisonByConformance(c: Conformances, lhs: Value, rhs: Value)
    ensures c.equatable ==> (ShouldNotify(Selected(c), lhs, rhs) <==> lhs.content != rhs.content)
    ensures !c.equatable && c.anyObject ==> (ShouldNotify(Selected(c), lhs, rhs) <==> lhs.identity != rhs.identity)
    ensures !c.equatable && !c.anyObject ==> ShouldNotify(Selected(c), lhs, rhs)
  {
  }
}
