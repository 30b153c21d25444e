/**
 * The property-list operations the registrar and publisher builders use
 * (`stored.mutable.instance`, `uniqueInferredTypes`, `withInferredType`), and
 * the key-path dispatch that the generated `publish` and `subject(for:)`
 * functions perform once they are compiled.
 */
module TypeGroups {
  import opened Syntax
  import opened Events

  /** Order-preserving filter, as `PropertiesList` filters and `for … where` loops. */
  function Filter(ps: seq<Property>, keep: Property -> bool): (r: seq<Property>)
    ensures forall p :: p in r <==> p in ps && keep(p)
    ensures |r| <= |ps|
  {
    if ps == [] then [] else (if keep(ps[0]) then [ps[0]] else []) + Filter(ps[1..], keep)
  }

  /** Filtering distributes over concatenation: the relative order of kept members is the declaration order. */
  lemma {:induction false} FilterAppend(a: seq<Property>, b: seq<Property>, keep: Property -> bool)
    ensures Filter(a + b, keep) == Filter(a, keep) + Filter(b, keep)
  {
    if a == [] {
      assert a + b == b;
    } else {
      assert (a + b)[1..] == a[1..] + b;
      FilterAppend(a[1..], b, keep);
    }
  }

  /** A stored, mutable, instance property: `properties.stored.mutable.instance`. */
  predicate IsStoredMutableInstance(p: Property)
  {
    p.kind == Stored && p.mutability == Mutable && !p.isTypeScoped
  }

  /** A computed instance property, with or without a setter: `properties.computed.instance`. */
  predicate IsComputedInstance(p: Property)
  {
    p.kind == Computed && !p.isTypeScoped
  }

  function StoredMutableInstance(ps: seq<Property>): (r: seq<Property>)
    ensures forall p :: p in r <==> p in ps && IsStoredMutableInstance(p)
  {
    Filter(ps, IsStoredMutableInstance)
  }

  function ComputedInstance(ps: seq<Property>): (r: seq<Property>)
    ensures forall p :: p in r <==> p in ps && IsComputedInstance(p)
  {
    Filter(ps, IsComputedInstance)
  }

  function Names(ps: seq<Property>): (r: seq<string>)
    ensures |r| == |ps|
    ensures forall i :: 0 <= i < |ps| ==> r[i] == ps[i].name
  {
    seq(|ps|, i requires 0 <= i < |ps| => ps[i].name)
  }

  function Types(ps: seq<Property>): (r: seq<string>)
    ensures |r| == |ps|
    ensures forall i :: 0 <= i < |ps| ==> r[i] == ps[i].inferredType
  {
    seq(|ps|, i requires 0 <= i < |ps| => ps[i].inferredType)
  }

  predicate NoDuplicates(ts: seq<string>)
  {
    forall i, j :: 0 <= i < j < |ts| ==> ts[i] != ts[j]
  }

  /** Index of the first occurrence of `t` in `ts`. */
  function FirstIndex(ts: seq<string>, t: string): (i: nat)
    requires t in ts
    ensures i < |ts| && ts[i] == t
    ensures forall j :: 0 <= j < i ==> ts[j] != t
  {
    if ts[0] == t then 0 else 1 + FirstIndex(ts[1..], t)
  }

  lemma {:induction false} FirstIndexAppend(ts: seq<string>, u: string, t: string)
    requires t in ts
    ensures FirstIndex(ts + [u], t) == FirstIndex(ts, t)
  {
    var i := FirstIndex(ts, t);
    assert (ts + [u])[i] == t;
    assert forall j :: 0 <= j < i ==> (ts + [u])[j] == ts[j];
  }

  /**
   * `uniqueInferredTypes`: every inferred type once, in the order of first
   * occurrence.
   */
  function UniqueTypes(ps: seq<Property>): (ts: seq<string>)
    ensures NoDuplicates(ts)
    ensures forall t :: t in ts <==> t in Types(ps)
    ensures forall i, j :: 0 <= i < j < |ts| ==> FirstIndex(Types(ps), ts[i]) < FirstIndex(Types(ps), ts[j])
    decreases |ps|
  {
    if ps == [] then []
    else
      var init := ps[..|ps| - 1];
      var u := UniqueTypes(init);
      var t := ps[|ps| - 1].inferredType;
      assert Types(ps) == Types(init) + [t];
      assert forall s :: s in u ==> FirstIndex(Types(ps), s) == FirstIndex(Types(init), s) by {
        forall s | s in u ensures FirstIndex(Types(ps), s) == FirstIndex(Types(init), s) {
          FirstIndexAppend(Types(init), t, s);
        }
      }
      if t in u then u
      else
        assert FirstIndex(Types(ps), t) == |init|;
        u + [t]
  }

  /** `withInferredType(like: t)`: the properties of type `t`, in order. */
  function WithType(ps: seq<Property>, t: string): (r: seq<Property>)
    ensures forall p :: p in r <==> p in ps && p.inferredType == t
  {
    if ps == [] then [] else (if ps[0].inferredType == t then [ps[0]] else []) + WithType(ps[1..], t)
  }

  /** The properties whose type is one of `ts`, in order. */
  function OfTypes(ps: seq<Property>, ts: seq<string>): seq<Property>
  {
    if ps == [] then [] else (if ps[0].inferredType in ts then [ps[0]] else []) + OfTypes(ps[1..], ts)
  }

  /** The type groups laid end to end, one group per type of `ts`. */
  function Grouped(ps: seq<Property>, ts: seq<string>): seq<Property>
  {
    if ts == [] then [] else WithType(ps, ts[0]) + Grouped(ps, ts[1..])
  }

  lemma {:induction false} OfTypesCons(ps: seq<Property>, t: string, rest: seq<string>)
    requires t !in rest
    ensures multiset(OfTypes(ps, [t] + rest)) == multiset(WithType(ps, t)) + multiset(OfTypes(ps, rest))
  {
    if ps != [] {
      OfTypesCons(ps[1..], t, rest);
    }
  }

  lemma {:induction false} GroupedIsOfTypes(ps: seq<Property>, ts: seq<string>)
    requires NoDuplicates(ts)
    ensures multiset(Grouped(ps, ts)) == multiset(OfTypes(ps, ts))
  {
    if ts == [] {
      OfTypesNone(ps, ts);
    } else {
      assert ts == [ts[0]] + ts[1..];
      assert NoDuplicates(ts[1..]);
      assert ts[0] !in ts[1..];
      GroupedIsOfTypes(ps, ts[1..]);
      OfTypesCons(ps, ts[0], ts[1..]);
    }
  }

  lemma {:induction false} OfTypesNone(ps: seq<Property>, ts: seq<string>)
    requires ts == []
    ensures OfTypes(ps, ts) == []
  {
    if ps != [] {
      OfTypesNone(ps[1..], ts);
    }
  }

  lemma {:induction false} OfTypesAll(ps: seq<Property>, ts: seq<string>)
    requires forall t :: t in Types(ps) ==> t in ts
    ensures OfTypes(ps, ts) == ps
  {
    if ps != [] {
      assert ps[0].inferredType == Types(ps)[0];
      assert forall t :: t in Types(ps[1..]) ==> t in Types(ps) by {
        forall t | t in Types(ps[1..]) ensures t in Types(ps) {
          var j :| 0 <= j < |ps[1..]| && Types(ps[1..])[j] == t;
          assert Types(ps)[j + 1] == t;
        }
      }
      OfTypesAll(ps[1..], ts);
      assert ps == [ps[0]] + ps[1..];
    }
  }

  /**
   * The type groups partition the properties: laid end to end they hold every
   * property exactly as often as the list does.
   */
  lemma GroupsPartition(ps: seq<Property>)
    ensures multiset(Grouped(ps, UniqueTypes(ps))) == multiset(ps)
  {
    GroupedIsOfTypes(ps, UniqueTypes(ps));
    OfTypesAll(ps, UniqueTypes(ps));
  }

  /** A generated `subject(for:on:)` overload: one branch per name, then `return nil`. */
  datatype SubjectFunction = SubjectFunction(valueType: string, cases: seq<string>)

  /** One `subject(for:on:)` per unique type, branching over that type's properties in order. */
  function SubjectFunctions(ps: seq<Property>): (r: seq<SubjectFunction>)
    ensures |r| == |UniqueTypes(ps)|
    ensures forall i :: 0 <= i < |r| ==>
      r[i].valueType == UniqueTypes(ps)[i] && r[i].cases == Names(WithType(ps, r[i].valueType))
  {
    var ts := UniqueTypes(ps);
    seq(|ts|, i requires 0 <= i < |ts| => SubjectFunction(ts[i], Names(WithType(ps, ts[i]))))
  }

  /** The first name in `cases` equal to `name`: the branch `if keyPath == \.name` that fires. */
  function FirstCase(cases: seq<string>, name: string): (r: Option<string>)
    ensures r.Some? <==> name in cases
    ensures r.Some? ==> r.value == name
  {
    if cases == [] then None else if cases[0] == name then Some(name) else FirstCase(cases[1..], name)
  }

  /** Calls `subject(for:)` at value type `t`: the overload for `t` is the one that runs. */
  function RunSubject(fns: seq<SubjectFunction>, t: string, name: string): Option<string>
  {
    if fns == [] then None
    else if fns[0].valueType == t then FirstCase(fns[0].cases, name)
    else RunSubject(fns[1..], t, name)
  }

  /**
   * The generated `publish(_:keyPath:)`: for each cast branch in order, the cast
   * succeeds when the key path's value type is the branch's type; a non-nil
   * subject is sent the current value and the function returns. The result is
   * the subject's property, or None when every branch falls through.
   */
  function RunPublish(casts: seq<string>, fns: seq<SubjectFunction>, k: KeyPath): Option<string>
  {
    if casts == [] then None
    else if k.valueType == casts[0] && RunSubject(fns, casts[0], k.name).Some? then RunSubject(fns, casts[0], k.name)
    else RunPublish(casts[1..], fns, k)
  }

  /** Reference: the first property with the key path's name and value type. */
  function FirstMatch(ps: seq<Property>, k: KeyPath): (r: Option<Property>)
    ensures r.Some? ==> r.value in ps && KeyPathOf(r.value) == k
    ensures r.None? ==> forall p :: p in ps ==> KeyPathOf(p) != k
  {
    if ps == [] then None else if KeyPathOf(ps[0]) == k then Some(ps[0]) else FirstMatch(ps[1..], k)
  }

  lemma {:induction false} FirstCaseOfGroup(ps: seq<Property>, k: KeyPath)
    ensures FirstCase(Names(WithType(ps, k.valueType)), k.name).Some? <==> FirstMatch(ps, k).Some?
  {
    if ps != [] {
      FirstCaseOfGroup(ps[1..], k);
      var head := if ps[0].inferredType == k.valueType then [ps[0]] else [];
      assert WithType(ps, k.valueType) == head + WithType(ps[1..], k.valueType);
      assert Names(WithType(ps, k.valueType)) == Names(head) + Names(WithType(ps[1..], k.valueType));
      if KeyPathOf(ps[0]) != k {
        assert FirstMatch(ps, k) == FirstMatch(ps[1..], k);
        if head != [] {
          assert Names(head) == [ps[0].name];
          assert ps[0].name != k.name;
        }
      } else {
        assert Names(head) == [k.name];
      }
    }
  }

  lemma {:induction false} RunSubjectFinds(ps: seq<Property>, fns: seq<SubjectFunction>, t: string, name: string)
    requires forall i :: 0 <= i < |fns| ==> fns[i].cases == Names(WithType(ps, fns[i].valueType))
    requires exists i :: 0 <= i < |fns| && fns[i].valueType == t
    ensures RunSubject(fns, t, name) == FirstCase(Names(WithType(ps, t)), name)
  {
    if fns[0].valueType != t {
      var i :| 0 <= i < |fns| && fns[i].valueType == t;
      assert fns[1..][i - 1].valueType == t;
      RunSubjectFinds(ps, fns[1..], t, name);
    }
  }

  /** Running `subject(for:)` at a unique type runs that type's group. */
  lemma SubjectAtUniqueType(ps: seq<Property>, t: string, name: string)
    requires t in Types(ps)
    ensures RunSubject(SubjectFunctions(ps), t, name) == FirstCase(Names(WithType(ps, t)), name)
  {
    var fns := SubjectFunctions(ps);
    var ts := UniqueTypes(ps);
    assert t in ts;
    var i :| 0 <= i < |ts| && ts[i] == t;
    assert fns[i].valueType == t;
    RunSubjectFinds(ps, fns, t, name);
  }

  lemma {:induction false} RunPublishOver(ps: seq<Property>, casts: seq<string>, k: KeyPath)
    requires forall t :: t in casts ==> t in Types(ps)
    requires k.valueType in casts || FirstMatch(ps, k).None?
    ensures RunPublish(casts, SubjectFunctions(ps), k).Some? <==> FirstMatch(ps, k).Some?
    ensures RunPublish(casts, SubjectFunctions(ps), k).Some? ==> RunPublish(casts, SubjectFunctions(ps), k).value == k.name
  {
    var fns := SubjectFunctions(ps);
    if casts != [] {
      var t := casts[0];
      SubjectAtUniqueType(ps, t, k.name);
      var hit := RunSubject(fns, t, k.name);
      assert hit.Some? ==> hit.value == k.name;
      if k.valueType == t {
        FirstCaseOfGroup(ps, k);
        if hit.None? {
          RunPublishOver(ps, casts[1..], k);
        }
      } else {
        RunPublishOver(ps, casts[1..], k);
      }
    }
  }

  /**
   * The emitted dispatch, with one cast branch and one `subject(for:)` per unique
   * type, publishes exactly the key paths some property declares, and names that
   * property: it agrees with a linear search for the first matching property.
   */
  lemma PublishDispatchIsLinearSearch(ps: seq<Property>, k: KeyPath)
    ensures RunPublish(UniqueTypes(ps), SubjectFunctions(ps), k).Some? <==> FirstMatch(ps, k).Some?
    ensures FirstMatch(ps, k).Some? ==> RunPublish(UniqueTypes(ps), SubjectFunctions(ps), k) == Some(FirstMatch(ps, k).value.name)
  {
    var m := FirstMatch(ps, k);
    if m.Some? {
      var j :| 0 <= j < |ps| && ps[j] == m.value;
      assert Types(ps)[j] == k.valueType;
    }
    RunPublishOver(ps, UniqueTypes(ps), k);
  }

  /**
   * The effect of the emitted `publish(_:keyPath:)` over the registered
   * properties: the dispatched subject is sent the property's current value, and a
   * key path no branch accepts runs `onMiss`.
   */
  function DispatchEvents(registered: seq<Property>, k: KeyPath, current: Value, onMiss: seq<Event>): (r: seq<Event>)
    ensures FirstMatch(registered, k).Some? ==> r == [Send(k.name, current)]
    ensures FirstMatch(registered, k).None? ==> r == onMiss
  {
    PublishDispatchIsLinearSearch(registered, k);
    match RunPublish(UniqueTypes(registered), SubjectFunctions(registered), k)
    case Some(name) => [Send(name, current)]
    case None => onMiss
  }
}
