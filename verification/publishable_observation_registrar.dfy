/**
 * The runtime side of `@Publishable`: the default `willSet`, `didSet`, `access`
 * and `withMutation` that `PublishableObservationRegistrar` (and, identically,
 * `MainActorPublishableObservationRegistrar`) give every generated registrar.
 * Each default performs ordered side effects on the object's publisher and on
 * the underlying Observation registrar.
 */
module PublishableObservationRegistrar {
  import opened Events
  import opened RegistrarEvents

  /**
   * An object seen through its registrar. `pending` is the publisher's count of
   * open modifications, `log` every effect so far, and `publish` the generated
   * `publish(_:keyPath:)` the conforming registrar supplies, by key.
   */
  class PublishableObject {
    var pending: int
    var log: seq<Event>
    const publish: string -> seq<Event>

    ghost predicate Valid()
      reads this
    {
      pending == Depth(log) && forall key :: Unbracketed(publish(key))
    }

    constructor (publish: string -> seq<Event>)
      requires forall key :: Unbracketed(publish(key))
      ensures Valid() && log == [] && pending == 0 && this.publish == publish
    {
      this.publish := publish;
      log := [];
      pending := 0;
    }

    /** Records one effect, keeping the pending count in step with the log. */
    method Emit(e: Event)
      requires Valid()
      modifies this`log, this`pending
      ensures Valid() && log == old(log) + [e] && pending == old(pending) + Delta(e)
    {
      DepthAppend(log, [e]);
      assert [e][1..] == [];
      log := log + [e];
      pending := pending + Delta(e);
    }

    /** Runs the conforming registrar's `publish(_:keyPath:)`. */
    method Publish(key: string)
      requires Valid()
      modifies this`log
      ensures Valid() && log == old(log) + publish(key) && pending == old(pending)
    {
      DepthAppend(log, publish(key));
      UnbracketedDepth(publish(key));
      log := log + publish(key);
    }

    method WillSet(key: string)
      requires Valid()
      modifies this`log, this`pending
      ensures Valid() && log == old(log) + WillSetEvents(key) && pending == old(pending) + 1
    {
      Emit(Begin);
      Emit(Event.WillSet(key));
    }

    method DidSet(key: string)
      requires Valid()
      modifies this`log, this`pending
      ensures Valid() && log == old(log) + DidSetEvents(key, publish(key)) && pending == old(pending) - 1
    {
      Emit(Event.DidSet(key));
      Publish(key);
      Emit(End);
    }

    method Access(key: string)
      requires Valid()
      modifies this`log, this`pending
      ensures Valid() && log == old(log) + AccessEvents(key) && pending == old(pending)
    {
      Emit(Event.Access(key));
    }

    /**
     * `withMutation` as written: no `defer`, so when the closure throws the error
     * propagates after `beginModifications()` and before `publish` and
     * `endModifications()`. The closure's result is returned unchanged.
     */
    method WithMutation(key: string, outcome: Outcome) returns (r: Outcome)
      requires Valid()
      modifies this`log, this`pending
      ensures Valid() && log == old(log) + MutationEvents(key, publish(key), outcome, false)
      ensures pending == old(pending) + (if outcome.Threw? then 1 else 0)
      ensures r == MutationResult(outcome)
    {
      Emit(Begin);
      Emit(Mutation(key));
      if outcome.Threw? {
        return Threw;
      }
      Publish(key);
      Emit(End);
      return outcome;
    }

    /** `withMutation` with `publish` and `endModifications()` deferred, as the later generations emit it. */
    method DeferredWithMutation(key: string, outcome: Outcome) returns (r: Outcome)
      requires Valid()
      modifies this`log, this`pending
      ensures Valid() && log == old(log) + MutationEvents(key, publish(key), outcome, true)
      ensures pending == old(pending)
      ensures r == MutationResult(outcome)
    {
      Emit(Begin);
      Emit(Mutation(key));
      Publish(key);
      Emit(End);
      return outcome;
    }
  }
}
