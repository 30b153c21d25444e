/**
 * The earlier generation of the `@Memoized` builder: a cache `_name` that is
 * neither `final` nor bracketed by a publisher, whose hits always register access
 * on `\._name`, and whose invalidation runs inside the class's own
 * `withMutation(keyPath: \._name)`.
 */
module SourcesMemoizedDeclBuilder {
  import opened Syntax
  import opened Events
  import opened RegistrarEvents
  import opened MemoizedRuntime

  datatype MemoizedDecl =
    /** `private var _name: Optional<T> = nil`. */
    | Cache(name: string, valueType: string, isolation: Option<Isolation>)
    /** `var name: T { ... }`, calling method `calls`, with the preferred access level. */
    | Accessor(name: string, valueType: string, isolation: Option<Isolation>, access: Option<AccessLevel>,
               calls: string, bridge: Bridge)

  /** A cache hit: `access(keyPath: \._name)`, then the cached value. */
  function HitEvents(name: string): seq<Event>
  {
    [Access("_" + name)]
  }

  /**
   * The `withMutation(keyPath:)` the class has: the plain one `@Observable`
   * generates, which only calls the observation registrar, or, in a class that is
   * also `@Publishable`, the publishable registrar's, which opens a publisher
   * bracket, runs the closure, publishes and closes the bracket.
   */
  datatype MutationRoute = PlainRegistrar | PublishingRegistrar(published: seq<Event>)

  /**
   * `instance?.withMutation(keyPath: \._name) { instance?._name = nil }`; nothing
   * once the instance is gone. Clearing the cache cannot throw.
   */
  function InvalidationEvents(name: string, alive: bool, route: MutationRoute): seq<Event>
  {
    if !alive then []
    else
      match route
      case PlainRegistrar => [Mutation("_" + name), Clear(name)]
      case PublishingRegistrar(published) => MutationEvents("_" + name, [Clear(name)] + published, Returned(0), false)
  }

  /**
   * Invalidation is a no-op once the instance is gone; otherwise it clears the
   * cache inside a mutation of `\._name`. Through the plain registrar it never
   * reaches a publisher; through the publishable one it is the registrar's
   * `withMutation` with the clear ahead of `publish`, and it opens and closes one
   * publisher bracket. Either way it is balanced when `publish` sends only.
   */
  lemma InvalidationShape(name: string, alive: bool, route: MutationRoute)
    ensures !alive ==> InvalidationEvents(name, alive, route) == []
    ensures alive ==> Precedes(InvalidationEvents(name, alive, route), Mutation("_" + name), Clear(name))
    ensures route.PlainRegistrar? ==> forall e :: e in InvalidationEvents(name, alive, route) ==> !PublisherEvent(e)
    ensures alive && route.PublishingRegistrar? ==>
      var es := InvalidationEvents(name, alive, route);
      es[0] == Begin && es[|es| - 1] == End && es[1] == Mutation("_" + name) && es[2] == Clear(name)
      && es[3..|es| - 1] == route.published
    ensures (route.PublishingRegistrar? ==> Unbracketed(route.published)) ==> Balanced(InvalidationEvents(name, alive, route))
  {
    var es := InvalidationEvents(name, alive, route);
    if !alive {
      UnbracketedIsBalanced(es);
    } else {
      match route {
        case PlainRegistrar =>
          UnbracketedIsBalanced(es);
          assert es[0] == Mutation("_" + name) && es[1] == Clear(name);
        case PublishingRegistrar(published) =>
          var body := [Mutation("_" + name), Clear(name)] + published;
          assert es == [Begin] + body + [End];
          assert es[1] == Mutation("_" + name) && es[2] == Clear(name);
          assert es[3..|es| - 1] == published;
          if Unbracketed(published) {
            assert Unbracketed(body) by {
              assert forall e :: e in body ==> e == Mutation("_" + name) || e == Clear(name) || e in published;
            }
            UnbracketedIsBalanced(body);
            BracketedIsBalanced(body);
          }
      }
    }
  }

  /** `build()`: the cache, then the accessor, both with the inherited isolation (a preferred one first). */
  function Build(f: FunctionDecl, scope: ClassDecl, returnType: string, name: string,
                 preferredAccess: Option<AccessLevel>, preferredIsolation: Option<Isolation>): (r: seq<MemoizedDecl>)
    ensures |r| == 2 && r[0].Cache? && r[1].Accessor?
    ensures r[0].name == "_" + name && r[1].name == name && r[1].calls == f.name
    ensures r[0].valueType == returnType && r[1].valueType == returnType
    ensures r[0].isolation == r[1].isolation == ResolvedIsolation(preferredIsolation, scope.isolation)
    ensures r[1].access == preferredAccess
    ensures r[1].bridge.AssumeIsolated? <==> r[1].isolation.Some? && r[1].isolation.value.GlobalActor?
  {
    var isolation := ResolvedIsolation(preferredIsolation, scope.isolation);
    [ Cache("_" + name, returnType, isolation),
      Accessor(name, returnType, isolation, preferredAccess, f.name, BridgeFor(isolation)) ]
  }

  /** The run-time behaviour of an emitted accessor, given what its method reads and computes. */
  function AccessorMemo(a: MemoizedDecl, route: MutationRoute, deps: set<string>, nested: seq<nat>,
                        compute: map<string, int> -> int): Memo
    requires a.Accessor?
  {
    Memo(a.name, deps, nested, compute, HitEvents(a.name), InvalidationEvents(a.name, true, route))
  }

  /**
   * Whatever the method and the class, a hit registers access on the cache's key
   * path, and invalidation clears the cache inside a mutation. A publisher is
   * reached exactly when the class's `withMutation` is the publishable registrar's.
   */
  lemma EmittedAccessorEffects(f: FunctionDecl, scope: ClassDecl, returnType: string, name: string,
                               preferredAccess: Option<AccessLevel>, preferredIsolation: Option<Isolation>,
                               route: MutationRoute, deps: set<string>, nested: seq<nat>,
                               compute: map<string, int> -> int)
    ensures var m := AccessorMemo(Build(f, scope, returnType, name, preferredAccess, preferredIsolation)[1], route, deps, nested, compute);
      m.onHit == [Access("_" + name)]
      && Precedes(m.onInvalidate, Mutation("_" + name), Clear(name))
      && (route.PlainRegistrar? ==> forall e :: e in m.onInvalidate ==> !PublisherEvent(e))
      && (route.PublishingRegistrar? ==> Begin in m.onInvalidate && End in m.onInvalidate)
  {
    InvalidationShape(name, true, route);
    var es := InvalidationEvents(name, true, route);
    if route.PublishingRegistrar? {
      assert es[0] == Begin && es[|es| - 1] == End;
    }
  }
}
