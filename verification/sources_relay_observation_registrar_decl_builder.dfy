/**
 * The observation registrar an earlier generation of `@Publishable` emitted:
 * the same type-grouped `publish`, ending in `assertionFailure` for an unknown
 * key path, and a `withMutation` that publishes and closes its bracket only
 * after the closure returns.
 */
module SourcesRelayObservationRegistrarDeclBuilder {
  import opened Syntax
  import opened Events
  import opened TypeGroups
  import opened RegistrarEvents

  /** `properties.stored.mutable.instance`. */
  function RegisteredProperties(ps: seq<Property>): seq<Property>
  {
    StoredMutableInstance(ps)
  }

  datatype Registrar = Registrar(casts: seq<string>, subjects: seq<SubjectFunction>, bridge: Bridge)

  /** `build()`: casts and subject functions over the registered types, and the bridge for the inherited isolation. */
  function Build(c: ClassDecl, ps: seq<Property>, preferred: Option<Isolation>): (r: Registrar)
    ensures NoDuplicates(r.casts) && |r.subjects| == |r.casts|
    ensures forall i :: 0 <= i < |r.casts| ==>
      r.subjects[i].valueType == r.casts[i] && r.subjects[i].cases == Names(WithType(RegisteredProperties(ps), r.casts[i]))
    ensures r.bridge.AssumeIsolated? <==> ResolvedIsolation(preferred, c.isolation).Some? && ResolvedIsolation(preferred, c.isolation).value.GlobalActor?
  {
    var registered := RegisteredProperties(ps);
    Registrar(UniqueTypes(registered), SubjectFunctions(registered), BridgeFor(ResolvedIsolation(preferred, c.isolation)))
  }

  /** The emitted `publish(_:keyPath:)`: a registered key path is sent; any other trips `assertionFailure`. */
  function Publish(ps: seq<Property>, k: KeyPath, current: Value): (r: seq<Event>)
    ensures (exists p :: p in ps && IsStoredMutableInstance(p) && KeyPathOf(p) == k) ==> r == [Send(k.name, current)]
    ensures (forall p :: p in ps && IsStoredMutableInstance(p) ==> KeyPathOf(p) != k) ==> r == [AssertionFailure(k.name)]
  {
    var registered := RegisteredProperties(ps);
    assert FirstMatch(registered, k).None? ==> forall p :: p in ps && IsStoredMutableInstance(p) ==> KeyPathOf(p) != k;
    DispatchEvents(registered, k, current, [AssertionFailure(k.name)])
  }

  /**
   * `willSet`/`didSet` balance, and so does `withMutation` when the closure
   * returns; when it throws, the bracket stays open and nothing is published.
   */
  lemma RegistrarBrackets(ps: seq<Property>, k: KeyPath, current: Value, result: int)
    ensures Balanced(WillSetEvents(k.name) + DidSetEvents(k.name, Publish(ps, k, current)))
    ensures Balanced(MutationEvents(k.name, Publish(ps, k, current), Returned(result), false))
    ensures Depth(MutationEvents(k.name, Publish(ps, k, current), Threw, false)) == 1
    ensures forall e :: e in MutationEvents(k.name, Publish(ps, k, current), Threw, false) ==> !e.Send?
  {
    var published := Publish(ps, k, current);
    assert Unbracketed(published);
    WillSetDidSetBalanced(k.name, published);
    UndeferredMutationOnReturn(k.name, published, result);
    UndeferredMutationLeaksOnThrow(k.name, published);
  }
}
