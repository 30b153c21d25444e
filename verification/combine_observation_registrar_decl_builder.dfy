/**
 * The observation registrar the Combine flavour of `@Publishable` emits: a
 * `publish` function with one key-path lookup per tracked property, and the
 * registrar entry points bracketing every change in `beginModifications` /
 * `endModifications`, with a deferred close in `withMutation`.
 */
module CombineObservationRegistrarDeclBuilder {
  import opened Syntax
  import opened Events
  import opened TypeGroups
  import opened RegistrarEvents

  /** `if keyPath == \.name { object.publisher._name.send(object[keyPath: \.name]); return }`. */
  datatype Lookup = Lookup(name: string, ifConfig: Option<string>)

  /** `properties.filter(\.isStoredPublishable)`. */
  function TrackedProperties(ps: seq<Property>, k: Classifiers): seq<Property>
  {
    Filter(ps, k.isStoredPublishable)
  }

  /** One lookup per tracked property, in order, under the property's `#if`. */
  function Lookups(tracked: seq<Property>): (r: seq<Lookup>)
    ensures |r| == |tracked|
    ensures forall i :: 0 <= i < |tracked| ==> r[i].name == tracked[i].name && r[i].ifConfig == tracked[i].ifConfig
  {
    seq(|tracked|, i requires 0 <= i < |tracked| => Lookup(tracked[i].name, tracked[i].ifConfig))
  }

  /** Running the emitted `publish`: the first lookup naming the key path sends the current value and returns. */
  function RunLookups(lookups: seq<Lookup>, key: string, current: Value): seq<Event>
  {
    if lookups == [] then []
    else if lookups[0].name == key then [Send(key, current)]
    else RunLookups(lookups[1..], key, current)
  }

  lemma {:induction false} RunLookupsFinds(tracked: seq<Property>, key: string, current: Value)
    ensures RunLookups(Lookups(tracked), key, current) == if key in Names(tracked) then [Send(key, current)] else []
  {
    if tracked != [] {
      assert Lookups(tracked)[1..] == Lookups(tracked[1..]);
      assert Names(tracked) == [tracked[0].name] + Names(tracked[1..]);
      RunLookupsFinds(tracked[1..], key, current);
    }
  }

  /** The emitted `publish(_:keyPath:)` for the class's properties. */
  function Publish(ps: seq<Property>, k: Classifiers, key: string, current: Value): (r: seq<Event>)
    ensures r == [Send(key, current)] <==> exists p :: p in ps && k.isStoredPublishable(p) && p.name == key
    ensures r == [] <==> !exists p :: p in ps && k.isStoredPublishable(p) && p.name == key
  {
    var tracked := TrackedProperties(ps, k);
    RunLookupsFinds(tracked, key, current);
    assert (key in Names(tracked)) <==> exists p :: p in tracked && p.name == key by {
      if key in Names(tracked) {
        var i :| 0 <= i < |tracked| && Names(tracked)[i] == key;
        assert tracked[i] in tracked;
      }
      if exists p :: p in tracked && p.name == key {
        var p :| p in tracked && p.name == key;
        var i :| 0 <= i < |tracked| && tracked[i] == p;
        assert Names(tracked)[i] == key;
      }
    }
    RunLookups(Lookups(tracked), key, current)
  }

  /** The emitted registrar: its lookups and its isolation bridge. */
  datatype Registrar = Registrar(lookups: seq<Lookup>, bridge: Bridge)

  /**
   * `build()`: the lookups come from the tracked properties, and the bridge from
   * the isolation the class inherits, a preferred one taking priority.
   */
  function Build(c: ClassDecl, ps: seq<Property>, k: Classifiers, preferred: Option<Isolation>): (r: Registrar)
    ensures r.lookups == Lookups(TrackedProperties(ps, k))
    ensures r.bridge.AssumeIsolated? <==> ResolvedIsolation(preferred, c.isolation).Some? && ResolvedIsolation(preferred, c.isolation).value.GlobalActor?
  {
    Registrar(Lookups(TrackedProperties(ps, k)), BridgeFor(ResolvedIsolation(preferred, c.isolation)))
  }

  /**
   * Every entry point of the emitted registrar keeps the publisher's brackets
   * balanced: a `willSet`/`didSet` pair, and `withMutation` however its closure
   * ends; a change is published at most once, inside the bracket.
   */
  lemma RegistrarBalanced(ps: seq<Property>, k: Classifiers, key: string, current: Value, outcome: Outcome)
    ensures Balanced(WillSetEvents(key) + DidSetEvents(key, Publish(ps, k, key, current)))
    ensures Balanced(MutationEvents(key, Publish(ps, k, key, current), outcome, true))
    ensures |Publish(ps, k, key, current)| <= 1
  {
    var published := Publish(ps, k, key, current);
    assert Unbracketed(published);
    WillSetDidSetBalanced(key, published);
    DeferredMutationBalanced(key, published, outcome);
  }
}
