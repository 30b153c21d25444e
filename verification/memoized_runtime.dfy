/**
 * The accessors `@Memoized` emits, at run time. Each memoized method of an object
 * has a cache (`_name`, nil until first read), is recomputed only on a miss, and
 * has its cache cleared by the `onChange` of the observation tracking that ran
 * the method, that is on the first write to an input the method read.
 */
module MemoizedRuntime {
  import opened Syntax
  import opened Events

  /**
   * One memoized method: its property name, the stored inputs it reads (directly,
   * or through another memoized property), the memoized properties it reads (by
   * index, in the order it reads them), its value as a function of those inputs,
   * and the effects its emitted accessor has on a cache hit and when its cache is
   * invalidated.
   */
  datatype Memo = Memo(
    name: string,
    deps: set<string>,
    nested: seq<nat>,
    compute: map<string, int> -> int,
    onHit: seq<Event>,
    onInvalidate: seq<Event>)

  /**
   * A memoized method reads only memoized properties declared before it, so that
   * reading never loops, and depends on every input those depend on.
   */
  predicate WellFormed(memos: seq<Memo>)
  {
    forall i :: 0 <= i < |memos| ==>
      forall j :: j in memos[i].nested ==> j < i && memos[j].deps <= memos[i].deps
  }

  /** The inputs a memo depends on, and nothing else. */
  function Restrict(inputs: map<string, int>, deps: set<string>): (r: map<string, int>)
    ensures r.Keys == inputs.Keys * deps
    ensures forall k :: k in r ==> r[k] == inputs[k]
  {
    map k | k in inputs.Keys * deps :: inputs[k]
  }

  /** What calling the memoized method returns for the current inputs. */
  function Evaluate(m: Memo, inputs: map<string, int>): int
  {
    m.compute(Restrict(inputs, m.deps))
  }

  /** Writing an input a memo does not read leaves its value as it was. */
  lemma UnrelatedWriteKeepsValue(m: Memo, inputs: map<string, int>, k: string, x: int)
    requires k !in m.deps
    ensures Evaluate(m, inputs[k := x]) == Evaluate(m, inputs)
  {
    assert Restrict(inputs[k := x], m.deps) == Restrict(inputs, m.deps);
  }

  /**
   * The effects of one write to input `k`, for the memos `0..n`: every memo that
   * reads `k` and is cached runs its invalidation, in declaration order.
   */
  function InvalidationLog(memos: seq<Memo>, caches: seq<Option<int>>, k: string, n: nat): (r: seq<Event>)
    requires n <= |memos| && n <= |caches|
    ensures (forall j :: 0 <= j < n ==> k !in memos[j].deps || caches[j].None?) ==> r == []
  {
    if n == 0 then []
    else
      InvalidationLog(memos, caches, k, n - 1)
      + (if k in memos[n - 1].deps && caches[n - 1].Some? then memos[n - 1].onInvalidate else [])
  }

  /** The caches, the call counters and the effect log of an object with memoized methods. */
  datatype CacheState = CacheState(caches: seq<Option<int>>, calls: seq<nat>, log: seq<Event>)

  predicate Sized(memos: seq<Memo>, s: CacheState)
  {
    |s.caches| == |memos| && |s.calls| == |memos|
  }

  /**
   * Reading memoized property `i`: a hit adds the accessor's hit effects; a miss
   * first reads, through their accessors, the memoized properties the method
   * reads, then calls the method once and caches its value.
   */
  function AfterRead(memos: seq<Memo>, inputs: map<string, int>, s: CacheState, i: nat): (r: CacheState)
    requires WellFormed(memos) && Sized(memos, s) && i < |memos|
    ensures Sized(memos, r)
    decreases i + 1, 0
  {
    if s.caches[i].Some? then s.(log := s.log + memos[i].onHit)
    else
      assert forall j :: j in memos[i].nested ==> j < i;
      var t := AfterReads(memos, inputs, s, memos[i].nested, i);
      t.(caches := t.caches[i := Some(Evaluate(memos[i], inputs))], calls := t.calls[i := t.calls[i] + 1])
  }

  /** Reading the memoized properties `js`, all declared before `bound`, one after another. */
  function AfterReads(memos: seq<Memo>, inputs: map<string, int>, s: CacheState, js: seq<nat>, bound: nat): (r: CacheState)
    requires WellFormed(memos) && Sized(memos, s) && bound <= |memos|
    requires forall j :: j in js ==> j < bound
    ensures Sized(memos, r)
    decreases bound, |js|
  {
    if js == [] then s
    else
      var front := js[..|js| - 1];
      assert forall j :: j in front ==> j in js;
      assert forall j :: j in front ==> j < bound;
      assert js[|js| - 1] in js;
      var t := AfterReads(memos, inputs, s, front, bound);
      AfterRead(memos, inputs, t, js[|js| - 1])
  }

  /** Every cached value is the method's value for the current inputs. */
  predicate Coherent(memos: seq<Memo>, inputs: map<string, int>, s: CacheState)
    requires Sized(memos, s)
  {
    forall i :: 0 <= i < |memos| && s.caches[i].Some? ==> s.caches[i].value == Evaluate(memos[i], inputs)
  }

  /**
   * A read keeps every cache coherent, leaves every filled cache as it was, never
   * lowers a call counter, and appends to the log. Afterwards property `i` is
   * cached with its current value; a hit calls nothing and only appends the hit
   * effects, a miss calls the method exactly once and leaves every memoized
   * property it reads cached too.
   */
  lemma {:induction false} ReadFillsAndKeeps(memos: seq<Memo>, inputs: map<string, int>, s: CacheState, i: nat)
    requires WellFormed(memos) && Sized(memos, s) && i < |memos| && Coherent(memos, inputs, s)
    ensures var r := AfterRead(memos, inputs, s, i);
      Coherent(memos, inputs, r)
      && r.caches[i] == Some(Evaluate(memos[i], inputs))
      && (forall j :: 0 <= j < |memos| && s.caches[j].Some? ==> r.caches[j] == s.caches[j])
      && (forall j :: 0 <= j < |memos| ==> s.calls[j] <= r.calls[j])
      && |s.log| <= |r.log| && r.log[..|s.log|] == s.log
      && (s.caches[i].Some? ==> r == s.(log := s.log + memos[i].onHit))
      && (s.caches[i].None? ==> r.calls[i] == s.calls[i] + 1 && forall j :: j in memos[i].nested ==> j < i && r.caches[j].Some?)
    decreases i + 1, 0
  {
    if s.caches[i].None? {
      assert forall j :: j in memos[i].nested ==> j < i;
      ReadsFillAndKeep(memos, inputs, s, memos[i].nested, i);
      ReadsTouchOnlyBelow(memos, inputs, s, memos[i].nested, i);
    }
  }

  /** The same for reading several memoized properties declared before `bound`. */
  lemma {:induction false} ReadsFillAndKeep(memos: seq<Memo>, inputs: map<string, int>, s: CacheState, js: seq<nat>, bound: nat)
    requires WellFormed(memos) && Sized(memos, s) && bound <= |memos| && Coherent(memos, inputs, s)
    requires forall j :: j in js ==> j < bound
    ensures var r := AfterReads(memos, inputs, s, js, bound);
      Coherent(memos, inputs, r)
      && (forall j :: 0 <= j < |memos| && s.caches[j].Some? ==> r.caches[j] == s.caches[j])
      && (forall j :: 0 <= j < |memos| ==> s.calls[j] <= r.calls[j])
      && |s.log| <= |r.log| && r.log[..|s.log|] == s.log
      && (forall j :: j in js ==> r.caches[j].Some?)
    decreases bound, |js|
  {
    if js != [] {
      var front := js[..|js| - 1];
      assert forall j :: j in front ==> j in js;
      assert js[|js| - 1] in js;
      ReadsFillAndKeep(memos, inputs, s, front, bound);
      var t := AfterReads(memos, inputs, s, front, bound);
      ReadFillsAndKeeps(memos, inputs, t, js[|js| - 1]);
      var r := AfterRead(memos, inputs, t, js[|js| - 1]);
      assert |t.log| <= |r.log| by {
        assert r.log[..|t.log|] == t.log;
      }
      forall j | j in js
        ensures r.caches[j].Some?
      {
        if j != js[|js| - 1] {
          assert j in front;
        }
      }
    }
  }

  /** A read of `i` touches no cache and no counter of a memo declared after `i`. */
  lemma {:induction false} ReadTouchesOnlyBelow(memos: seq<Memo>, inputs: map<string, int>, s: CacheState, i: nat)
    requires WellFormed(memos) && Sized(memos, s) && i < |memos|
    ensures var r := AfterRead(memos, inputs, s, i);
      forall j :: i < j < |memos| ==> r.calls[j] == s.calls[j] && r.caches[j] == s.caches[j]
    decreases i + 1, 0
  {
    if s.caches[i].None? {
      assert forall j :: j in memos[i].nested ==> j < i;
      ReadsTouchOnlyBelow(memos, inputs, s, memos[i].nested, i);
    }
  }

  lemma {:induction false} ReadsTouchOnlyBelow(memos: seq<Memo>, inputs: map<string, int>, s: CacheState, js: seq<nat>, bound: nat)
    requires WellFormed(memos) && Sized(memos, s) && bound <= |memos|
    requires forall j :: j in js ==> j < bound
    ensures var r := AfterReads(memos, inputs, s, js, bound);
      forall j :: bound <= j < |memos| ==> r.calls[j] == s.calls[j] && r.caches[j] == s.caches[j]
    decreases bound, |js|
  {
    if js != [] {
      var front := js[..|js| - 1];
      assert forall j :: j in front ==> j in js;
      assert js[|js| - 1] in js;
      ReadsTouchOnlyBelow(memos, inputs, s, front, bound);
      ReadTouchesOnlyBelow(memos, inputs, AfterReads(memos, inputs, s, front, bound), js[|js| - 1]);
    }
  }

  /** An object with stored inputs and memoized methods. */
  class MemoizedHost {
    var inputs: map<string, int>
    const memos: seq<Memo>
    var caches: seq<Option<int>>
    var calls: seq<nat>
    var log: seq<Event>

    /**
     * One cache and one call counter per memo, memos that read only earlier
     * memos, and every cached value current.
     */
    ghost predicate Valid()
      reads this
    {
      |caches| == |memos| && |calls| == |memos| && WellFormed(memos)
      && Coherent(memos, inputs, CacheState(caches, calls, log))
    }

    function State(): CacheState
      reads this
    {
      CacheState(caches, calls, log)
    }

    /** A fresh object: nothing cached and no method called yet. */
    constructor (inputs: map<string, int>, memos: seq<Memo>)
      requires WellFormed(memos)
      ensures Valid()
      ensures this.inputs == inputs && this.memos == memos && log == []
      ensures forall i :: 0 <= i < |memos| ==> caches[i].None? && calls[i] == 0
    {
      this.inputs := inputs;
      this.memos := memos;
      caches := seq(|memos|, _ => None);
      calls := seq(|memos|, _ => 0);
      log := [];
    }

    /**
     * Reading memoized property `i`: a hit returns the cache with the accessor's
     * hit effects and no call; a miss first reads the memoized properties the
     * method reads, through their own accessors, then calls the method once,
     * stores the result and returns it. Either way the value is the method's
     * value now.
     */
    method Read(i: nat) returns (v: int)
      requires Valid() && i < |memos|
      modifies this`caches, this`calls, this`log
      decreases i
      ensures Valid()
      ensures v == Evaluate(memos[i], inputs) && caches[i] == Some(v)
      ensures State() == AfterRead(memos, inputs, old(State()), i)
      ensures forall j :: 0 <= j < |memos| && old(caches[j]).Some? ==> caches[j] == old(caches[j])
      ensures old(caches[i]).Some? ==> caches == old(caches) && calls == old(calls) && log == old(log) + memos[i].onHit
      ensures old(caches[i]).None? ==> calls[i] == old(calls[i]) + 1 && forall j :: j in memos[i].nested ==> j < i && caches[j].Some?
    {
      ghost var before := State();
      match caches[i] {
      case Some(cached) =>
        log := log + memos[i].onHit;
        v := cached;
      case None =>
        var nested := memos[i].nested;
        var n := 0;
        while n < |nested|
          invariant 0 <= n <= |nested| && Valid()
          invariant forall j :: j in nested[..n] ==> j < i
          invariant State() == AfterReads(memos, inputs, before, nested[..n], i)
        {
          assert nested[..n + 1][..n] == nested[..n];
          assert nested[n] in nested;
          var value := Read(nested[n]);
          n := n + 1;
          assert forall j :: j in nested[..n] ==> j in nested;
        }
        assert nested[..n] == nested;
        var result := Evaluate(memos[i], inputs);
        calls := calls[i := calls[i] + 1];
        caches := caches[i := Some(result)];
        v := result;
      }
      ReadFillsAndKeeps(memos, inputs, before, i);
    }

    /**
     * Writing input `k`: every cached memo that reads `k` is invalidated (its
     * cache cleared, not recomputed), and every other cache is kept.
     */
    method Write(k: string, x: int)
      requires Valid()
      modifies this`inputs, this`caches, this`log
      ensures Valid()
      ensures inputs == old(inputs)[k := x]
      ensures |caches| == |memos|
      ensures forall i :: 0 <= i < |memos| ==> caches[i] == if k in memos[i].deps then None else old(caches[i])
      ensures log == old(log) + InvalidationLog(memos, old(caches), k, |memos|)
    {
      ghost var before := caches;
      ghost var previous := inputs;
      inputs := inputs[k := x];
      var i := 0;
      while i < |memos|
        invariant 0 <= i <= |memos| && |caches| == |memos| && inputs == previous[k := x]
        invariant forall j :: 0 <= j < |memos| && before[j].Some? ==> before[j].value == Evaluate(memos[j], previous)
        invariant forall j :: 0 <= j < i ==> caches[j] == if k in memos[j].deps then None else before[j]
        invariant forall j :: i <= j < |memos| ==> caches[j] == before[j]
        invariant log == old(log) + InvalidationLog(memos, before, k, i)
      {
        if k in memos[i].deps {
          if caches[i].Some? {
            log := log + memos[i].onInvalidate;
          }
          caches := caches[i := None];
        }
        i := i + 1;
      }
      forall j | 0 <= j < |memos| && caches[j].Some?
        ensures caches[j].value == Evaluate(memos[j], inputs)
      {
        UnrelatedWriteKeepsValue(memos[j], previous, k, x);
      }
    }
  }
}
