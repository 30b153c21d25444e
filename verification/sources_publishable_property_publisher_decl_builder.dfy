/**
 * The `PropertyPublisher` class of the earliest `@Publishable` generation: the
 * whole class is `@MainActor` when the observed class is, and each publisher's
 * access level is its property's, capped at `public`.
 */
module SourcesPublishablePropertyPublisherDeclBuilder {
  import opened Syntax
  import opened TypeGroups

  /**
   * `accessControlLevel(inheritedBy: .peer, maxAllowed: .public)`: the property's
   * own level, lowered to `public` when it is `open`.
   */
  function PeerAccess(level: AccessLevel): (r: AccessLevel)
    ensures AtMost(r, Public) && AtMost(r, level)
    ensures AtMost(level, Public) ==> r == level
    ensures !AtMost(level, Public) ==> r == Public
  {
    if AtMost(level, Public) then level else Public
  }

  /** `fileprivate let _name = PassthroughSubject<T, Never>()` and `var name: AnyPublisher<T, Never>`. */
  datatype StoredPublisher = StoredPublisher(subject: string, name: string, valueType: string, access: AccessLevel)
  datatype ComputedPublisher = ComputedPublisher(name: string, valueType: string, access: AccessLevel)

  datatype PropertyPublisherClass = PropertyPublisherClass(
    mainActor: bool,
    access: AccessLevel,
    isFinal: bool,
    subjectType: string,
    finishes: seq<string>,
    stored: seq<StoredPublisher>,
    computed: seq<ComputedPublisher>)

  function StoredPublishers(ps: seq<Property>): (r: seq<StoredPublisher>)
    ensures |r| == |StoredMutableInstance(ps)|
    ensures forall i :: 0 <= i < |r| ==>
      var p := StoredMutableInstance(ps)[i];
      r[i] == StoredPublisher("_" + p.name, p.name, p.inferredType, PeerAccess(p.access))
  {
    var qs := StoredMutableInstance(ps);
    seq(|qs|, i requires 0 <= i < |qs| => StoredPublisher("_" + qs[i].name, qs[i].name, qs[i].inferredType, PeerAccess(qs[i].access)))
  }

  function ComputedPublishers(ps: seq<Property>): (r: seq<ComputedPublisher>)
    ensures |r| == |ComputedInstance(ps)|
    ensures forall i :: 0 <= i < |r| ==>
      var p := ComputedInstance(ps)[i];
      r[i] == ComputedPublisher(p.name, p.inferredType, PeerAccess(p.access))
  {
    var qs := ComputedInstance(ps);
    seq(|qs|, i requires 0 <= i < |qs| => ComputedPublisher(qs[i].name, qs[i].inferredType, PeerAccess(qs[i].access)))
  }

  /** `build()`: one template or the other, differing only in the `@MainActor` attribute. */
  function Build(c: ClassDecl, ps: seq<Property>, mainActor: bool): (r: PropertyPublisherClass)
    ensures r.mainActor == mainActor && r.isFinal && r.subjectType == c.typeName
    ensures r.access == c.access
    ensures |r.finishes| == |r.stored| && forall i :: 0 <= i < |r.stored| ==> r.finishes[i] == r.stored[i].subject
    ensures r.stored == StoredPublishers(ps) && r.computed == ComputedPublishers(ps)
  {
    var stored := StoredPublishers(ps);
    PropertyPublisherClass(mainActor, c.access, true, c.typeName,
      seq(|stored|, i requires 0 <= i < |stored| => stored[i].subject), stored, ComputedPublishers(ps))
  }

  /** The `@MainActor` choice changes nothing but the attribute. */
  lemma MainActorOnlyAnnotates(c: ClassDecl, ps: seq<Property>)
    ensures Build(c, ps, true).(mainActor := false) == Build(c, ps, false)
  {
  }

  /** No publisher is `open`, and one for a property below `open` has exactly its property's level. */
  lemma PublishersNeverOpen(c: ClassDecl, ps: seq<Property>, mainActor: bool)
    ensures forall s :: s in Build(c, ps, mainActor).stored ==> s.access != Open
    ensures forall t :: t in Build(c, ps, mainActor).computed ==> t.access != Open
    ensures forall i :: 0 <= i < |StoredMutableInstance(ps)| && StoredMutableInstance(ps)[i].access != Open ==>
      Build(c, ps, mainActor).stored[i].access == StoredMutableInstance(ps)[i].access
  {
  }
}
