/**
 * The observable effects of the code the macros emit, as an event log, and the
 * bracket depth of the companion publisher's `beginModifications` /
 * `endModifications` calls.
 */
module Events {

  /**
   * A property value: `content` is what `==` compares, `identity` what `===`
   * compares (the object identity of a class instance).
   */
  datatype Value = Value(identity: nat, content: int)

  datatype Event =
    | Begin                            // publisher._beginModifications()
    | End                              // publisher._endModifications()
    | Access(key: string)              // registrar.access(self, keyPath: \.key)
    | WillSet(key: string)             // registrar.willSet(self, keyPath: \.key)
    | DidSet(key: string)              // registrar.didSet(self, keyPath: \.key)
    | Mutation(key: string)            // the underlying registrar's withMutation(of:keyPath:) runs the mutation
    | Publish(key: string)             // the registrar's publish(object, keyPath:) is called
    | Store(key: string, value: Value) // the backing storage `_key` is written
    | Clear(key: string)               // the memoized cache `_key` is set to nil
    | Send(key: string, value: Value)  // publisher._key.send(value)
    | AssertionFailure(key: string)    // assertionFailure("Unknown keyPath")

  function Delta(e: Event): int
  {
    if e == Begin then 1 else if e == End then -1 else 0
  }

  /** Net number of open modification brackets after the events. */
  function Depth(es: seq<Event>): int
  {
    if es == [] then 0 else Delta(es[0]) + Depth(es[1..])
  }

  /** The lowest net bracket count reached by any prefix, the empty one included. */
  function LowestDepth(es: seq<Event>): (m: int)
    ensures m <= 0
  {
    if es == [] then 0 else Min(0, Delta(es[0]) + LowestDepth(es[1..]))
  }

  function Min(a: int, b: int): int
  {
    if a <= b then a else b
  }

  /** No prefix closes more brackets than it opened, and the whole closes all it opened. */
  predicate Balanced(es: seq<Event>)
  {
    Depth(es) == 0 && LowestDepth(es) == 0
  }

  /** No publisher bracket at all. */
  predicate Unbracketed(es: seq<Event>)
  {
    Begin !in es && End !in es
  }

  /** An event that calls the observation registrar. */
  predicate RegistrarEvent(e: Event)
  {
    e.Access? || e.WillSet? || e.DidSet? || e.Mutation?
  }

  /** An event that reaches the companion publisher. */
  predicate PublisherEvent(e: Event)
  {
    e.Begin? || e.End? || e.Send?
  }

  /** Some occurrence of `x` comes strictly before some occurrence of `y`. */
  predicate Precedes(es: seq<Event>, x: Event, y: Event)
  {
    exists i, j :: 0 <= i < j < |es| && es[i] == x && es[j] == y
  }

  lemma {:induction false} DepthAppend(a: seq<Event>, b: seq<Event>)
    ensures Depth(a + b) == Depth(a) + Depth(b)
  {
    if a == [] {
      assert a + b == b;
    } else {
      assert (a + b)[1..] == a[1..] + b;
      DepthAppend(a[1..], b);
    }
  }

  lemma {:induction false} UnbracketedDepth(es: seq<Event>)
    requires Unbracketed(es)
    ensures Depth(es) == 0
  {
    if es != [] {
      assert es[0] in es;
      assert Unbracketed(es[1..]) by {
        assert forall e :: e in es[1..] ==> e in es;
      }
      UnbracketedDepth(es[1..]);
    }
  }

  lemma {:induction false} LowestDepthAppend(a: seq<Event>, b: seq<Event>)
    ensures LowestDepth(a + b) == Min(LowestDepth(a), Depth(a) + LowestDepth(b))
  {
    if a == [] {
      assert a + b == b;
    } else {
      assert (a + b)[1..] == a[1..] + b;
      LowestDepthAppend(a[1..], b);
    }
  }

  /** `LowestDepth` is a lower bound on the depth after every prefix. */
  lemma {:induction false} LowestDepthBoundsPrefixes(es: seq<Event>, k: nat)
    requires k <= |es|
    ensures LowestDepth(es) <= Depth(es[..k])
  {
    if k > 0 {
      assert es[..k][1..] == es[1..][..k - 1];
      LowestDepthBoundsPrefixes(es[1..], k - 1);
    }
  }

  /** A balanced log never closes a bracket it has not opened: every prefix has a non-negative depth. */
  lemma BalancedPrefixes(es: seq<Event>, k: nat)
    requires Balanced(es) && k <= |es|
    ensures Depth(es[..k]) >= 0
  {
    LowestDepthBoundsPrefixes(es, k);
  }

  lemma {:induction false} UnbracketedLowest(es: seq<Event>)
    requires Unbracketed(es)
    ensures LowestDepth(es) == 0
  {
    if es != [] {
      assert es[0] in es;
      assert Unbracketed(es[1..]) by {
        assert forall e :: e in es[1..] ==> e in es;
      }
      UnbracketedLowest(es[1..]);
    }
  }

  lemma UnbracketedIsBalanced(es: seq<Event>)
    requires Unbracketed(es)
    ensures Balanced(es)
  {
    UnbracketedDepth(es);
    UnbracketedLowest(es);
  }

  lemma BalancedAppend(a: seq<Event>, b: seq<Event>)
    requires Balanced(a) && Balanced(b)
    ensures Balanced(a + b)
  {
    DepthAppend(a, b);
    LowestDepthAppend(a, b);
  }

  /** `[Begin] + body + [End]` with a balanced body is balanced: brackets nest. */
  lemma BracketedIsBalanced(body: seq<Event>)
    requires Balanced(body)
    ensures Balanced([Begin] + body + [End])
  {
    DepthAppend([Begin] + body, [End]);
    DepthAppend([Begin], body);
    LowestDepthAppend([Begin] + body, [End]);
    LowestDepthAppend([Begin], body);
  }
}
