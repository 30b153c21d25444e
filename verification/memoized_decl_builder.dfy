/**
 * The two declarations `@Memoized` adds next to a method: the cache `_name` and
 * the accessor `name`, whose body returns the cache on a hit and otherwise runs
 * the method under observation tracking, storing the result and arranging for
 * the cache to be invalidated on the next change of what the method read.
 */
module MemoizedDeclBuilder {
  import opened Syntax
  import opened Events
  import opened RegistrarEvents
  import ObservationSuppressedMacro
  import PublisherSupressedMacro
  import opened MemoizedRuntime

  /** The four bodies `invalidateCache()` can be emitted with. */
  datatype Invalidation =
    | ObservedAndPublished   // publisher bracket around the registrar's willSet/didSet
    | PublishedOnly          // publisher bracket only
    | ObservedOnly           // the registrar's willSet/didSet only
    | ClearOnly              // the cache is cleared, nothing else

  datatype MemoizedDecl =
    /** `private final var _name: Optional<T> = nil`, after a comment when the method has availability attributes. */
    | Cache(name: string, valueType: string, isolation: Option<Isolation>, isFinal: bool, availabilityComment: bool)
    /** `final var name: T { ... }`, calling method `calls`, with the method's availability and the preferred access level. */
    | Accessor(
        name: string,
        valueType: string,
        availability: Option<string>,
        isolation: Option<Isolation>,
        access: Option<AccessLevel>,
        isFinal: bool,
        calls: string,
        registersAccess: bool,
        invalidation: Invalidation,
        bridge: Bridge)

  /**
   * `invalidateCacheFunction()`: bracketed in the publisher's modifications when
   * the class is `@Relayed` and the method is publisher-tracked, reported to the
   * registrar when the method is observation-tracked.
   */
  function InvalidationFor(c: ClassDecl, f: FunctionDecl): (r: Invalidation)
    ensures (r.ObservedAndPublished? || r.PublishedOnly?)
      <==> Relayed in c.attributes && PublisherSupressedMacro.IsFunctionPublisherTracked(f)
    ensures (r.ObservedAndPublished? || r.ObservedOnly?)
      <==> ObservationSuppressedMacro.IsFunctionObservationTracked(f)
  {
    if Relayed in c.attributes && PublisherSupressedMacro.IsFunctionPublisherTracked(f) then
      if ObservationSuppressedMacro.IsFunctionObservationTracked(f) then ObservedAndPublished else PublishedOnly
    else if ObservationSuppressedMacro.IsFunctionObservationTracked(f) then ObservedOnly
    else ClearOnly
  }

  /**
   * The effects of running `invalidateCache()` for property `name`; `alive` says
   * whether the weakly held instance still exists. Every variant clears the cache.
   */
  function InvalidationEvents(inv: Invalidation, name: string, alive: bool): seq<Event>
  {
    if !alive then []
    else
      match inv
      case ObservedAndPublished => [Begin, WillSet(name), Clear(name), DidSet(name), End]
      case PublishedOnly => [Begin, Clear(name), End]
      case ObservedOnly => [WillSet(name), Clear(name), DidSet(name)]
      case ClearOnly => [Clear(name)]
  }

  /** The effects of a cache hit: an `access` on `\.name` when the method is observation-tracked. */
  function HitEvents(registersAccess: bool, name: string): seq<Event>
  {
    if registersAccess then [Access(name)] else []
  }

  /**
   * Invalidation is a no-op once the instance is gone; otherwise it clears the
   * cache, opens a publisher bracket exactly for the bracketed variants and closes
   * it, and reports the change to the registrar around the clearing exactly for
   * the observed variants.
   */
  lemma InvalidationShape(inv: Invalidation, name: string, alive: bool)
    ensures !alive ==> InvalidationEvents(inv, name, alive) == []
    ensures alive ==> Clear(name) in InvalidationEvents(inv, name, alive)
    ensures Balanced(InvalidationEvents(inv, name, alive))
    ensures Begin in InvalidationEvents(inv, name, alive) <==> alive && (inv.ObservedAndPublished? || inv.PublishedOnly?)
    ensures WillSet(name) in InvalidationEvents(inv, name, alive) <==> alive && (inv.ObservedAndPublished? || inv.ObservedOnly?)
    ensures alive && (inv.ObservedAndPublished? || inv.ObservedOnly?) ==>
      Precedes(InvalidationEvents(inv, name, alive), WillSet(name), Clear(name))
      && Precedes(InvalidationEvents(inv, name, alive), Clear(name), DidSet(name))
  {
    var es := InvalidationEvents(inv, name, alive);
    if alive {
      match inv
      case ObservedAndPublished =>
        var body := [WillSet(name), Clear(name), DidSet(name)];
        assert Unbracketed(body);
        UnbracketedIsBalanced(body);
        BracketedIsBalanced(body);
        assert es == [Begin] + body + [End];
        assert es[1] == WillSet(name) && es[2] == Clear(name) && es[3] == DidSet(name);
      case PublishedOnly =>
        var body := [Clear(name)];
        UnbracketedIsBalanced(body);
        BracketedIsBalanced(body);
        assert es == [Begin] + body + [End];
      case ObservedOnly =>
        UnbracketedIsBalanced(es);
        assert es[0] == WillSet(name) && es[1] == Clear(name) && es[2] == DidSet(name);
      case ClearOnly =>
        UnbracketedIsBalanced(es);
    }
  }

  /**
   * `build()`: the cache and then the accessor. The accessor carries the method's
   * availability, the preferred access level and the inherited isolation (a
   * preferred one first); the cache carries only the isolation, preceded by a
   * comment when the method has availability attributes.
   */
  function Build(f: FunctionDecl, scope: ClassDecl, returnType: string, name: string,
                 preferredAccess: Option<AccessLevel>, preferredIsolation: Option<Isolation>): (r: seq<MemoizedDecl>)
    ensures |r| == 2 && r[0].Cache? && r[1].Accessor?
    ensures r[0].name == "_" + name && r[1].name == name && r[1].calls == f.name
    ensures r[0].valueType == returnType && r[1].valueType == returnType
    ensures r[0].isFinal && r[1].isFinal
    ensures r[0].availabilityComment <==> f.availability.Some?
    ensures r[1].availability == f.availability && r[1].access == preferredAccess
    ensures r[0].isolation == r[1].isolation == ResolvedIsolation(preferredIsolation, scope.isolation)
    ensures r[1].registersAccess <==> ObservationSuppressedMacro.IsFunctionObservationTracked(f)
    ensures r[1].invalidation == InvalidationFor(scope, f)
    ensures r[1].bridge.AssumeIsolated? <==> r[1].isolation.Some? && r[1].isolation.value.GlobalActor?
  {
    var isolation := ResolvedIsolation(preferredIsolation, scope.isolation);
    [ Cache("_" + name, returnType, isolation, true, f.availability.Some?),
      Accessor(name, returnType, f.availability, isolation, preferredAccess, true, f.name,
               ObservationSuppressedMacro.IsFunctionObservationTracked(f),
               InvalidationFor(scope, f), BridgeFor(isolation)) ]
  }

  /** The run-time behaviour of an emitted accessor, given what its method reads and computes. */
  function AccessorMemo(a: MemoizedDecl, deps: set<string>, nested: seq<nat>, compute: map<string, int> -> int): Memo
    requires a.Accessor?
  {
    Memo(a.name, deps, nested, compute, HitEvents(a.registersAccess, a.name), InvalidationEvents(a.invalidation, a.name, true))
  }

  /**
   * What the emitted accessor does: a hit registers access exactly when the method
   * is observation-tracked, and invalidation clears the cache, balanced, inside a
   * publisher bracket exactly when the class is `@Relayed` and the method is
   * publisher-tracked.
   */
  lemma EmittedAccessorEffects(f: FunctionDecl, scope: ClassDecl, returnType: string, name: string,
                               preferredAccess: Option<AccessLevel>, preferredIsolation: Option<Isolation>,
                               deps: set<string>, nested: seq<nat>, compute: map<string, int> -> int)
    ensures var m := AccessorMemo(Build(f, scope, returnType, name, preferredAccess, preferredIsolation)[1], deps, nested, compute);
      (Access(name) in m.onHit <==> ObservationSuppressedMacro.IsFunctionObservationTracked(f))
      && Clear(name) in m.onInvalidate
      && Balanced(m.onInvalidate)
      && (Begin in m.onInvalidate <==> Relayed in scope.attributes && PublisherSupressedMacro.IsFunctionPublisherTracked(f))
  {
    var a := Build(f, scope, returnType, name, preferredAccess, preferredIsolation)[1];
    InvalidationShape(a.invalidation, name, true);
  }

  function Input(inputs: map<string, int>, k: string): int
  {
    if k in inputs then inputs[k] else 0
  }

  /** A cube whose `baseArea` reads `x` and `y`, and whose `volume` reads `baseArea` and `z`. */
  function BaseArea(): Memo
  {
    Memo("baseArea", {"x", "y"}, [], m => Input(m, "x") * Input(m, "y"),
         HitEvents(true, "baseArea"), InvalidationEvents(ObservedOnly, "baseArea", true))
  }

  function Volume(): Memo
  {
    Memo("volume", {"x", "y", "z"}, [0], m => Input(m, "x") * Input(m, "y") * Input(m, "z"),
         HitEvents(true, "volume"), InvalidationEvents(ObservedOnly, "volume", true))
  }

  /**
   * Reading twice calls the method once; a change of an input clears the cache
   * without recomputing; the next read recomputes; a change of an unrelated input
   * keeps the cache.
   */
  method CubeBaseAreaAccess() returns (access1: int, access2: int, access3: int, calls: seq<nat>, cachedAfterY: bool, cachedAfterOffset: bool)
    ensures access1 == 2 && access2 == 2 && access3 == 6
    ensures calls == [2] && !cachedAfterY && cachedAfterOffset
  {
    var cube := new MemoizedHost(map["x" := 1, "y" := 1, "z" := 1, "offset" := 0], [BaseArea()]);
    cube.Write("x", 2);
    access1 := cube.Read(0);
    access2 := cube.Read(0);
    assert cube.calls[0] == 1;
    cube.Write("y", 3);
    cachedAfterY := cube.caches[0].Some?;
    assert cube.calls[0] == 1;
    access3 := cube.Read(0);
    cube.Write("offset", 100);
    cachedAfterOffset := cube.caches[0].Some?;
    calls := cube.calls;
  }

  /**
   * The first step of the dependent-cube scenario: reading `volume` calls its
   * method once and, because the method reads `baseArea` through its accessor,
   * fills and counts `baseArea` too.
   */
  method CubeAfterVolumeRead() returns (cube: MemoizedHost, volume: int)
    ensures fresh(cube) && cube.Valid()
    ensures cube.memos == [BaseArea(), Volume()] && cube.inputs == map["x" := 1, "y" := 1, "z" := 1]
    ensures volume == 1 && cube.caches == [Some(1), Some(1)] && cube.calls == [1, 1]
  {
    cube := new MemoizedHost(map["x" := 1, "y" := 1, "z" := 1], [BaseArea(), Volume()]);
    volume := cube.Read(1);
  }

  /** The first read of `volume`, as the object's counters and caches show it. */
  method CubeVolumeFillsBaseArea() returns (volume: int, calls: seq<nat>, baseAreaCached: bool)
    ensures volume == 1 && calls == [1, 1] && baseAreaCached
  {
    var cube;
    cube, volume := CubeAfterVolumeRead();
    baseAreaCached := cube.caches[0].Some?;
    calls := cube.calls;
  }

  /** Then `baseArea` is read from its cache, and a change of `x` clears both caches. */
  method CubeAfterXWrite() returns (cube: MemoizedHost)
    ensures fresh(cube) && cube.Valid()
    ensures cube.memos == [BaseArea(), Volume()] && cube.inputs == map["x" := 2, "y" := 1, "z" := 1]
    ensures cube.caches == [None, None] && cube.calls == [1, 1]
  {
    var volume;
    cube, volume := CubeAfterVolumeRead();
    var baseArea := cube.Read(0);
    cube.Write("x", 2);
  }

  /** Then `baseArea` is recomputed, and `volume` is recomputed reading `baseArea` from its cache. */
  method CubeAfterXChange() returns (cube: MemoizedHost)
    ensures fresh(cube) && cube.Valid()
    ensures cube.memos == [BaseArea(), Volume()] && cube.inputs == map["x" := 2, "y" := 1, "z" := 1]
    ensures cube.caches == [Some(2), Some(2)] && cube.calls == [2, 2]
  {
    cube := CubeAfterXWrite();
    var baseArea := cube.Read(0);
    var volume := cube.Read(1);
  }

  /** A change of `z` invalidates `volume` but leaves `baseArea`, which does not read it, cached. */
  method CubeAfterZWrite() returns (cube: MemoizedHost)
    ensures fresh(cube) && cube.Valid()
    ensures cube.memos == [BaseArea(), Volume()] && cube.inputs == map["x" := 2, "y" := 1, "z" := 3]
    ensures cube.caches == [Some(2), None] && cube.calls == [2, 2]
  {
    cube := CubeAfterXChange();
    cube.Write("z", 3);
  }

  /**
   * The whole dependent-cube scenario: after the change of `z`, `volume` is
   * recomputed reading `baseArea` from its cache, and `baseArea` is not recomputed.
   */
  method CubeDependentAccess() returns (volume: int, baseArea: int, volumeCached: bool, baseAreaCached: bool, calls: seq<nat>)
    ensures volume == 6 && baseArea == 2
    ensures !volumeCached && baseAreaCached
    ensures calls == [2, 3]
  {
    var cube := CubeAfterZWrite();
    volumeCached := cube.caches[1].Some?;
    baseAreaCached := cube.caches[0].Some?;
    volume := cube.Read(1);
    baseArea := cube.Read(0);
    calls := cube.calls;
  }
}
