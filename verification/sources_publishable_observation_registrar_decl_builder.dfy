/**
 * The observation registrar of the standalone `@Publishable` package: a
 * `publish` function and the subject functions, optionally confined to the main
 * actor. Its `willSet`, `didSet`, `access` and `withMutation` are the runtime
 * defaults of `PublishableObservationRegistrar`.
 */
module SourcesPublishableObservationRegistrarDeclBuilder {
  import opened Syntax
  import opened Events
  import opened TypeGroups

  /** `properties.stored.mutable.instance`. */
  function RegisteredProperties(ps: seq<Property>): seq<Property>
  {
    StoredMutableInstance(ps)
  }

  /** The emitted registrar struct: `@MainActor` or not, its cast branches and subject functions. */
  datatype Registrar = Registrar(mainActor: bool, casts: seq<string>, subjects: seq<SubjectFunction>)

  /** `build()`: the two templates differ only in the `@MainActor` attribute. */
  function Build(ps: seq<Property>, mainActor: bool): (r: Registrar)
    ensures r.mainActor == mainActor
    ensures NoDuplicates(r.casts) && |r.subjects| == |r.casts|
    ensures forall i :: 0 <= i < |r.casts| ==>
      r.subjects[i].valueType == r.casts[i] && r.subjects[i].cases == Names(WithType(RegisteredProperties(ps), r.casts[i]))
  {
    var registered := RegisteredProperties(ps);
    Registrar(mainActor, UniqueTypes(registered), SubjectFunctions(registered))
  }

  /** With or without `@MainActor`, the registrar body is the same. */
  lemma MainActorOnlyWraps(ps: seq<Property>)
    ensures Build(ps, true).(mainActor := false) == Build(ps, false)
    ensures Build(ps, true).mainActor && !Build(ps, false).mainActor
  {
  }

  /** The emitted `publish(_:keyPath:)`: a registered key path is sent; any other trips `assertionFailure`. */
  function Publish(ps: seq<Property>, k: KeyPath, current: Value): (r: seq<Event>)
    ensures (exists p :: p in ps && IsStoredMutableInstance(p) && KeyPathOf(p) == k) ==> r == [Send(k.name, current)]
    ensures (forall p :: p in ps && IsStoredMutableInstance(p) ==> KeyPathOf(p) != k) ==> r == [AssertionFailure(k.name)]
  {
    var registered := RegisteredProperties(ps);
    assert FirstMatch(registered, k).None? ==> forall p :: p in ps && IsStoredMutableInstance(p) ==> KeyPathOf(p) != k;
    DispatchEvents(registered, k, current, [AssertionFailure(k.name)])
  }
}
