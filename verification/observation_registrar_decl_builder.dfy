/**
 * The observation registrar the current `@Publishable` emits: a `publish`
 * function casting the key path to each distinct property type in turn, one
 * `subject(for:on:)` per type, and registrar entry points whose `withMutation`
 * closes its bracket in a `defer`.
 */
module ObservationRegistrarDeclBuilder {
  import opened Syntax
  import opened Events
  import opened TypeGroups
  import opened RegistrarEvents

  /** `properties.stored.mutable.instance`. */
  function RegisteredProperties(ps: seq<Property>): seq<Property>
  {
    StoredMutableInstance(ps)
  }

  /** The emitted registrar: its cast branches, its subject functions and its isolation bridge. */
  datatype Registrar = Registrar(casts: seq<string>, subjects: seq<SubjectFunction>, bridge: Bridge)

  /**
   * `build()`: one cast branch per distinct registered type, in order of first
   * occurrence, and one subject function per type, branching over exactly the
   * registered properties of that type.
   */
  function Build(c: ClassDecl, ps: seq<Property>, preferred: Option<Isolation>): (r: Registrar)
    ensures NoDuplicates(r.casts)
    ensures forall t :: t in r.casts <==> exists p :: p in ps && IsStoredMutableInstance(p) && p.inferredType == t
    ensures |r.subjects| == |r.casts|
    ensures forall i :: 0 <= i < |r.casts| ==>
      r.subjects[i].valueType == r.casts[i] && r.subjects[i].cases == Names(WithType(RegisteredProperties(ps), r.casts[i]))
    ensures r.bridge == BridgeFor(ResolvedIsolation(preferred, c.isolation))
  {
    var registered := RegisteredProperties(ps);
    assert forall t :: t in Types(registered) <==> exists p :: p in registered && p.inferredType == t by {
      forall t ensures t in Types(registered) <==> exists p :: p in registered && p.inferredType == t {
        if t in Types(registered) {
          var i :| 0 <= i < |registered| && Types(registered)[i] == t;
          assert registered[i] in registered;
        }
        if exists p :: p in registered && p.inferredType == t {
          var p :| p in registered && p.inferredType == t;
          var i :| 0 <= i < |registered| && registered[i] == p;
          assert Types(registered)[i] == t;
        }
      }
    }
    Registrar(UniqueTypes(registered), SubjectFunctions(registered), BridgeFor(ResolvedIsolation(preferred, c.isolation)))
  }

  /**
   * The emitted `publish(_:keyPath:)`: a key path of a registered property sends
   * that property's current value to its subject; any other key path sends
   * nothing and asserts nothing.
   */
  function Publish(ps: seq<Property>, k: KeyPath, current: Value): (r: seq<Event>)
    ensures (exists p :: p in ps && IsStoredMutableInstance(p) && KeyPathOf(p) == k) ==> r == [Send(k.name, current)]
    ensures (forall p :: p in ps && IsStoredMutableInstance(p) ==> KeyPathOf(p) != k) ==> r == []
  {
    var registered := RegisteredProperties(ps);
    assert FirstMatch(registered, k).None? ==> forall p :: p in ps && IsStoredMutableInstance(p) ==> KeyPathOf(p) != k;
    DispatchEvents(registered, k, current, [])
  }

  /**
   * Every entry point keeps the brackets balanced, `withMutation` included when
   * its closure throws, because `publish` and `endModifications()` are deferred.
   */
  lemma RegistrarBalanced(ps: seq<Property>, k: KeyPath, current: Value, outcome: Outcome)
    ensures Balanced(WillSetEvents(k.name) + DidSetEvents(k.name, Publish(ps, k, current)))
    ensures Balanced(MutationEvents(k.name, Publish(ps, k, current), outcome, true))
  {
    var published := Publish(ps, k, current);
    assert Unbracketed(published);
    WillSetDidSetBalanced(k.name, published);
    DeferredMutationBalanced(k.name, published, outcome);
  }
}
