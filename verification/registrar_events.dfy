/**
 * The four observation-registrar entry points every generation of the macros
 * emits or inherits (`willSet`, `didSet`, `access`, `withMutation`) as event
 * sequences, and the choice of the isolation bridge they run through.
 * `published` stands for whatever the registrar's `publish(_:keyPath:)` does;
 * each generation supplies its own.
 */
module RegistrarEvents {
  import opened Syntax
  import opened Events

  /** How the observed mutation closure ends: it returns a value, or it throws. */
  datatype Outcome = Returned(result: int) | Threw

  /** `beginModifications()`, then the underlying registrar's `willSet`. */
  function WillSetEvents(key: string): seq<Event>
  {
    [Begin, WillSet(key)]
  }

  /** The underlying registrar's `didSet`, then `publish`, then `endModifications()`. */
  function DidSetEvents(key: string, published: seq<Event>): seq<Event>
  {
    [DidSet(key)] + published + [End]
  }

  /** `access` only delegates to the underlying registrar. */
  function AccessEvents(key: string): seq<Event>
  {
    [Access(key)]
  }

  /**
   * `withMutation`: `beginModifications()`, then the underlying `withMutation`
   * running the closure. With `deferred`, `publish` and `endModifications()` sit
   * in a `defer` block and run however the closure ends; without it they follow
   * the call and are skipped when the closure throws.
   */
  function MutationEvents(key: string, published: seq<Event>, outcome: Outcome, deferred: bool): seq<Event>
  {
    if outcome.Returned? || deferred then [Begin, Mutation(key)] + published + [End]
    else [Begin, Mutation(key)]
  }

  /** The value `withMutation` hands back: the closure's own result, or the rethrown error. */
  function MutationResult(outcome: Outcome): (r: Outcome)
    ensures r.Returned? <==> outcome.Returned?
    ensures r.Returned? ==> r.result == outcome.result
  {
    outcome
  }

  /**
   * A `willSet` followed by its `didSet` opens exactly one bracket and closes it,
   * calls the underlying registrar before publishing, and publishes inside the bracket.
   */
  lemma WillSetDidSetBalanced(key: string, published: seq<Event>)
    requires Unbracketed(published)
    ensures Depth(WillSetEvents(key)) == 1
    ensures Balanced(WillSetEvents(key) + DidSetEvents(key, published))
    ensures WillSetEvents(key)[0] == Begin && WillSetEvents(key)[1] == WillSet(key)
    ensures DidSetEvents(key, published)[0] == DidSet(key)
    ensures DidSetEvents(key, published)[1..|published| + 1] == published
    ensures DidSetEvents(key, published)[|published| + 1] == End
  {
    assert Depth(WillSetEvents(key)) == 1 by {
      assert WillSetEvents(key)[1..] == [WillSet(key)];
      assert [WillSet(key)][1..] == [];
      assert Depth([WillSet(key)]) == 0;
    }
    var body := [WillSet(key), DidSet(key)] + published;
    assert Unbracketed([WillSet(key), DidSet(key)]);
    assert Unbracketed(body) by {
      assert forall e :: e in body ==> e in [WillSet(key), DidSet(key)] || e in published;
    }
    UnbracketedIsBalanced(body);
    BracketedIsBalanced(body);
    assert WillSetEvents(key) + DidSetEvents(key, published) == [Begin] + body + [End];
  }

  /** `access` never touches the publisher's modification brackets. */
  lemma AccessNeverBrackets(key: string)
    ensures Unbracketed(AccessEvents(key)) && Balanced(AccessEvents(key))
    ensures forall e :: e in AccessEvents(key) ==> RegistrarEvent(e)
  {
    UnbracketedIsBalanced(AccessEvents(key));
  }

  /** With a deferred close, `withMutation` is balanced whether the closure returns or throws. */
  lemma DeferredMutationBalanced(key: string, published: seq<Event>, outcome: Outcome)
    requires Unbracketed(published)
    ensures Balanced(MutationEvents(key, published, outcome, true))
    ensures MutationEvents(key, published, outcome, true) == MutationEvents(key, published, Returned(0), false)
  {
    var body := [Mutation(key)] + published;
    assert Unbracketed(body) by {
      assert forall e :: e in body ==> e == Mutation(key) || e in published;
    }
    UnbracketedIsBalanced(body);
    BracketedIsBalanced(body);
    assert MutationEvents(key, published, outcome, true) == [Begin] + body + [End];
  }

  /**
   * Without the `defer`, a throwing closure leaves one bracket open and skips
   * `publish`: the publisher's modification count stays one too high.
   */
  lemma UndeferredMutationLeaksOnThrow(key: string, published: seq<Event>)
    requires Unbracketed(published)
    ensures Depth(MutationEvents(key, published, Threw, false)) == 1
    ensures !Balanced(MutationEvents(key, published, Threw, false))
    ensures forall e :: e in MutationEvents(key, published, Threw, false) ==> !e.Send? && !e.Publish?
  {
    var es := MutationEvents(key, published, Threw, false);
    assert es[1..] == [Mutation(key)];
    assert [Mutation(key)][1..] == [];
    assert Depth([Mutation(key)]) == 0;
  }

  /** Without the `defer`, a closure that returns behaves as the deferred form. */
  lemma UndeferredMutationOnReturn(key: string, published: seq<Event>, result: int)
    requires Unbracketed(published)
    ensures Balanced(MutationEvents(key, published, Returned(result), false))
    ensures MutationEvents(key, published, Returned(result), false) == MutationEvents(key, published, Returned(result), true)
  {
    DeferredMutationBalanced(key, published, Returned(result));
  }

  /** The `assumeIsolatedIfNeeded` helper a registrar or cache is emitted with. */
  datatype Bridge = AssumeIsolated(actor: string) | Direct

  /**
   * `assumeIsolated` on the global actor when the inherited isolation names one;
   * a direct call otherwise (no isolation, or `nonisolated`).
   */
  function BridgeFor(isolation: Option<Isolation>): (b: Bridge)
    ensures b.AssumeIsolated? <==> isolation.Some? && isolation.value.GlobalActor?
    ensures b.AssumeIsolated? ==> b.actor == isolation.value.actor
  {
    match isolation
    case Some(GlobalActor(a)) => AssumeIsolated(a)
    case _ => Direct
  }
}
