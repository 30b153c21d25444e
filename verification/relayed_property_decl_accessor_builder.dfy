/**
 * The accessors `@RelayedProperty` gives a stored property (`init`, `get`, `set`,
 * `_modify`), and what each emitted accessor does when it runs: the events it
 * produces on the observation registrar, the backing storage `_name` and the
 * companion publisher.
 */
module RelayedPropertyDeclAccessorBuilder {
  import opened Syntax
  import opened Events
  import ObservableDeclBuilder
  import ObservationSuppressedMacro
  import PublisherSuppressedMacro

  /** The channels an accessor drives: the template branch the builder picks. */
  datatype Channels = BothChannels | ObservationOnly | PublisherOnly

  /** The builder's branch: observation first, and the publisher-only template as the fallback. */
  function ChannelsOf(p: Property): (r: Channels)
    ensures r == BothChannels <==>
      ObservationSuppressedMacro.IsStoredObservationTracked(p) && PublisherSuppressedMacro.IsStoredPublisherTracked(p)
    ensures r == ObservationOnly <==>
      ObservationSuppressedMacro.IsStoredObservationTracked(p) && !PublisherSuppressedMacro.IsStoredPublisherTracked(p)
    ensures r == PublisherOnly <==> !ObservationSuppressedMacro.IsStoredObservationTracked(p)
  {
    if ObservationSuppressedMacro.IsStoredObservationTracked(p) then
      if PublisherSuppressedMacro.IsStoredPublisherTracked(p) then BothChannels else ObservationOnly
    else PublisherOnly
  }

  predicate Observes(c: Channels)
  {
    c != PublisherOnly
  }

  predicate Publishes(c: Channels)
  {
    c != ObservationOnly
  }

  datatype Accessor =
    | InitAccessor(initializes: string)    // `@storageRestrictions(initializes: _name) init(initialValue)`
    | GetAccessor(registersAccess: bool)
    | SetAccessor(channels: Channels)
    | ModifyAccessor(channels: Channels)

  /** `buildAccessors`: init, get, set and `_modify`, in that order. */
  function BuildAccessors(p: Property): (r: seq<Accessor>)
    ensures |r| == 4
    ensures r[0] == InitAccessor("_" + p.name)
    ensures r[1].GetAccessor? && r[2].SetAccessor? && r[3].ModifyAccessor?
    ensures r[1].registersAccess == Observes(r[2].channels)
    ensures r[2].channels == r[3].channels == ChannelsOf(p)
    ensures r[1].registersAccess <==> ObservationSuppressedMacro.IsStoredObservationTracked(p)
    ensures ObservationSuppressedMacro.IsStoredObservationTracked(p) || PublisherSuppressedMacro.IsStoredPublisherTracked(p)
            ==> (Publishes(r[2].channels) <==> PublisherSuppressedMacro.IsStoredPublisherTracked(p))
  {
    var c := ChannelsOf(p);
    [InitAccessor("_" + p.name), GetAccessor(Observes(c)), SetAccessor(c), ModifyAccessor(c)]
  }

  /**
   * The chosen accessors observe exactly the observation-tracked properties and,
   * for a property `@RelayedProperty` accepts (tracked on at least one channel),
   * publish exactly the publisher-tracked ones.
   */
  lemma ChannelsMatchTracking(p: Property)
    ensures Observes(ChannelsOf(p)) <==> ObservationSuppressedMacro.IsStoredObservationTracked(p)
    ensures ObservationSuppressedMacro.IsStoredObservationTracked(p) || PublisherSuppressedMacro.IsStoredPublisherTracked(p)
            ==> (Publishes(ChannelsOf(p)) <==> PublisherSuppressedMacro.IsStoredPublisherTracked(p))
  {
  }

  /** The emitted getter's events. */
  function GetEvents(key: string, registersAccess: bool): seq<Event>
  {
    if registersAccess then [Access(key)] else []
  }

  /** The emitted setter's events for `newValue`, given the `shouldNotifyObservers` verdict. */
  function SetEvents(key: string, c: Channels, notify: bool, newValue: Value): seq<Event>
  {
    if !notify then [Store(key, newValue)]
    else
      match c
      case BothChannels => [Begin, WillSet(key), Store(key, newValue), DidSet(key), Send(key, newValue), End]
      case ObservationOnly => [WillSet(key), Store(key, newValue), DidSet(key)]
      case PublisherOnly => [Begin, Store(key, newValue), Send(key, newValue), End]
  }

  /**
   * The emitted `_modify`'s events when the caller leaves `mutated` in the yielded
   * storage; the deferred part runs after the caller's in-place write.
   */
  function ModifyEvents(key: string, c: Channels, mutated: Value): seq<Event>
  {
    match c
    case BothChannels => [Begin, Access(key), WillSet(key), Store(key, mutated), DidSet(key), Send(key, mutated), End]
    case ObservationOnly => [Access(key), WillSet(key), Store(key, mutated), DidSet(key)]
    case PublisherOnly => [Begin, Store(key, mutated), Send(key, mutated), End]
  }

  /**
   * Every setter stores the new value; it calls the registrar exactly when it
   * observes and notifies, and brackets and sends exactly when it publishes and
   * notifies.
   */
  lemma SetterEventsByChannel(key: string, c: Channels, notify: bool, v: Value)
    ensures var es := SetEvents(key, c, notify, v);
      Store(key, v) in es
      && (WillSet(key) in es <==> notify && Observes(c))
      && (DidSet(key) in es <==> notify && Observes(c))
      && (Send(key, v) in es <==> notify && Publishes(c))
      && (Begin in es <==> notify && Publishes(c))
  {
    var es := SetEvents(key, c, notify, v);
    if !notify {
      assert es == [Store(key, v)];
    } else {
      match c {
        case BothChannels => assert es[2] == Store(key, v);
        case ObservationOnly => assert es[1] == Store(key, v);
        case PublisherOnly => assert es[1] == Store(key, v);
      }
    }
  }

  /**
   * Every `_modify` stores the mutated value; it registers access and calls the
   * registrar exactly when it observes, and brackets and sends exactly when it
   * publishes.
   */
  lemma ModifyEventsByChannel(key: string, c: Channels, v: Value)
    ensures var es := ModifyEvents(key, c, v);
      Store(key, v) in es
      && (Access(key) in es <==> Observes(c))
      && (WillSet(key) in es <==> Observes(c))
      && (Send(key, v) in es <==> Publishes(c))
      && (Begin in es <==> Publishes(c))
  {
    var es := ModifyEvents(key, c, v);
    match c {
      case BothChannels => assert es[3] == Store(key, v);
      case ObservationOnly => assert es[2] == Store(key, v);
      case PublisherOnly => assert es[1] == Store(key, v);
    }
  }

  /** When `shouldNotifyObservers` says no, every setter only stores the new value. */
  lemma SetterShortCircuits(key: string, c: Channels, v: Value)
    ensures SetEvents(key, c, false, v) == [Store(key, v)]
  {
  }

  /** Every setter and `_modify` closes each publisher bracket it opens, so modification depth is restored. */
  lemma AccessorsBalanced(key: string, c: Channels, notify: bool, v: Value)
    ensures Balanced(SetEvents(key, c, notify, v))
    ensures Balanced(ModifyEvents(key, c, v))
  {
    SetterBalanced(key, c, notify, v);
    ModifyBalanced(key, c, v);
  }

  lemma {:induction false} SetterBalanced(key: string, c: Channels, notify: bool, v: Value)
    ensures Balanced(SetEvents(key, c, notify, v))
  {
    var setEvents := SetEvents(key, c, notify, v);
    if !notify || c == ObservationOnly {
      UnbracketedIsBalanced(setEvents);
    } else if c == BothChannels {
      var body := [WillSet(key), Store(key, v), DidSet(key), Send(key, v)];
      UnbracketedIsBalanced(body);
      BracketedIsBalanced(body);
      assert setEvents == [Begin] + body + [End];
    } else {
      var body := [Store(key, v), Send(key, v)];
      UnbracketedIsBalanced(body);
      BracketedIsBalanced(body);
      assert setEvents == [Begin] + body + [End];
    }
  }

  lemma {:induction false} ModifyBalanced(key: string, c: Channels, v: Value)
    ensures Balanced(ModifyEvents(key, c, v))
  {
    var modifyEvents := ModifyEvents(key, c, v);
    match c {
      case BothChannels =>
        var body := [Access(key), WillSet(key), Store(key, v), DidSet(key), Send(key, v)];
        UnbracketedIsBalanced(body);
        BracketedIsBalanced(body);
        assert modifyEvents == [Begin] + body + [End];
      case ObservationOnly =>
        UnbracketedIsBalanced(modifyEvents);
      case PublisherOnly =>
        var body := [Store(key, v), Send(key, v)];
        UnbracketedIsBalanced(body);
        BracketedIsBalanced(body);
        assert modifyEvents == [Begin] + body + [End];
    }
  }

  /**
   * The setter on both channels: each step runs once, in the order Begin,
   * willSet, store, didSet, send of the new value, End.
   */
  lemma SetterOrderOnBothChannels(key: string, v: Value)
    ensures var es := SetEvents(key, BothChannels, true, v);
      Precedes(es, Begin, WillSet(key)) && Precedes(es, WillSet(key), Store(key, v))
      && Precedes(es, Store(key, v), DidSet(key)) && Precedes(es, DidSet(key), Send(key, v))
      && Precedes(es, Send(key, v), End)
  {
    var es := SetEvents(key, BothChannels, true, v);
    assert es[0] == Begin && es[1] == WillSet(key) && es[2] == Store(key, v);
    assert es[3] == DidSet(key) && es[4] == Send(key, v) && es[5] == End;
  }

  /** The setter on both channels stores, calls `didSet` and sends exactly once. */
  lemma SetterStepsOnceOnBothChannels(key: string, v: Value)
    ensures var es := SetEvents(key, BothChannels, true, v);
      multiset(es)[Store(key, v)] == 1 && multiset(es)[Send(key, v)] == 1 && multiset(es)[DidSet(key)] == 1
  {
    var es := SetEvents(key, BothChannels, true, v);
    var once := multiset{Store(key, v), DidSet(key), Send(key, v)};
    assert multiset(es) == multiset{Begin, WillSet(key), End} + once;
    assert multiset{Begin, WillSet(key), End}[Store(key, v)] == 0;
    assert multiset{Begin, WillSet(key), End}[Send(key, v)] == 0;
    assert multiset{Begin, WillSet(key), End}[DidSet(key)] == 0;
  }

  /**
   * `_modify` on both channels opens the bracket before the caller writes and,
   * after it, sends the mutated value and closes the bracket.
   */
  lemma ModifyOrderOnBothChannels(key: string, v: Value)
    ensures var es := ModifyEvents(key, BothChannels, v);
      es[0] == Begin && es[|es| - 1] == End
      && Precedes(es, Store(key, v), Send(key, v)) && Precedes(es, Send(key, v), End)
  {
    var es := ModifyEvents(key, BothChannels, v);
    assert es[3] == Store(key, v) && es[5] == Send(key, v) && es[6] == End;
  }

  /** The observation-only accessors never touch the publisher; the publisher-only ones never touch the registrar. */
  lemma ChannelsSeparate(key: string, notify: bool, v: Value)
    ensures forall e :: e in SetEvents(key, ObservationOnly, notify, v) ==> !PublisherEvent(e)
    ensures forall e :: e in ModifyEvents(key, ObservationOnly, v) ==> !PublisherEvent(e)
    ensures forall e :: e in GetEvents(key, Observes(PublisherOnly)) ==> !RegistrarEvent(e)
    ensures forall e :: e in SetEvents(key, PublisherOnly, notify, v) ==> !RegistrarEvent(e)
    ensures forall e :: e in ModifyEvents(key, PublisherOnly, v) ==> !RegistrarEvent(e)
  {
  }

  /** The setter sends a publisher value only while the modification bracket is open. */
  lemma SetterSendInsideBracket(key: string, c: Channels, notify: bool, v: Value)
    ensures forall i :: (0 <= i < |SetEvents(key, c, notify, v)| && SetEvents(key, c, notify, v)[i].Send?
                         ==> Depth(SetEvents(key, c, notify, v)[..i]) == 1)
  {
    forall i | 0 <= i < |SetEvents(key, c, notify, v)| && SetEvents(key, c, notify, v)[i].Send?
      ensures Depth(SetEvents(key, c, notify, v)[..i]) == 1
    {
      SetterSendDepth(key, c, notify, v, i);
    }
  }

  lemma {:induction false} SetterSendDepth(key: string, c: Channels, notify: bool, v: Value, i: nat)
    requires i < |SetEvents(key, c, notify, v)| && SetEvents(key, c, notify, v)[i].Send?
    ensures Depth(SetEvents(key, c, notify, v)[..i]) == 1
  {
    var setEvents := SetEvents(key, c, notify, v);
    if c == BothChannels {
      assert setEvents == [Begin, WillSet(key), Store(key, v), DidSet(key), Send(key, v), End];
      assert i == 4;
      assert setEvents[..4] == [Begin] + [WillSet(key), Store(key, v), DidSet(key)];
      DepthAppend([Begin], [WillSet(key), Store(key, v), DidSet(key)]);
      UnbracketedDepth([WillSet(key), Store(key, v), DidSet(key)]);
    } else {
      assert c == PublisherOnly && setEvents == [Begin, Store(key, v), Send(key, v), End];
      assert i == 2;
      assert setEvents[..2] == [Begin] + [Store(key, v)];
      DepthAppend([Begin], [Store(key, v)]);
      UnbracketedDepth([Store(key, v)]);
    }
  }

  /** `_modify` sends a publisher value only while the modification bracket is open. */
  lemma ModifySendInsideBracket(key: string, c: Channels, v: Value)
    ensures forall i :: (0 <= i < |ModifyEvents(key, c, v)| && ModifyEvents(key, c, v)[i].Send?
                         ==> Depth(ModifyEvents(key, c, v)[..i]) == 1)
  {
    forall i | 0 <= i < |ModifyEvents(key, c, v)| && ModifyEvents(key, c, v)[i].Send?
      ensures Depth(ModifyEvents(key, c, v)[..i]) == 1
    {
      ModifySendDepth(key, c, v, i);
    }
  }

  lemma {:induction false} ModifySendDepth(key: string, c: Channels, v: Value, i: nat)
    requires i < |ModifyEvents(key, c, v)| && ModifyEvents(key, c, v)[i].Send?
    ensures Depth(ModifyEvents(key, c, v)[..i]) == 1
  {
    var modifyEvents := ModifyEvents(key, c, v);
    if c == BothChannels {
      assert modifyEvents == [Begin, Access(key), WillSet(key), Store(key, v), DidSet(key), Send(key, v), End];
      assert i == 5;
      assert modifyEvents[..5] == [Begin] + [Access(key), WillSet(key), Store(key, v), DidSet(key)];
      DepthAppend([Begin], [Access(key), WillSet(key), Store(key, v), DidSet(key)]);
      UnbracketedDepth([Access(key), WillSet(key), Store(key, v), DidSet(key)]);
    } else {
      assert c == PublisherOnly && modifyEvents == [Begin, Store(key, v), Send(key, v), End];
      assert i == 2;
      assert modifyEvents[..2] == [Begin] + [Store(key, v)];
      DepthAppend([Begin], [Store(key, v)]);
      UnbracketedDepth([Store(key, v)]);
    }
  }

  /**
   * Assigning a value equal to the current one to an Equatable property stores it
   * and produces neither a publisher value nor an observation callback.
   */
  lemma EqualAssignmentIsSilent(key: string, c: Channels, conformances: ObservableDeclBuilder.Conformances, current: Value, v: Value)
    requires conformances.equatable && current.content == v.content
    ensures var es := SetEvents(key, c, ObservableDeclBuilder.ShouldNotify(ObservableDeclBuilder.Selected(conformances), current, v), v);
      es == [Store(key, v)] && (forall e :: e in es ==> !e.Send? && !e.DidSet?)
  {
  }

  /**
   * Assigning any value to a property whose type is neither Equatable nor a class
   * yields exactly one publisher value and one observation callback.
   */
  lemma UnconstrainedAssignmentNotifies(key: string, conformances: ObservableDeclBuilder.Conformances, current: Value, v: Value)
    requires !conformances.equatable && !conformances.anyObject
    ensures var es := SetEvents(key, BothChannels, ObservableDeclBuilder.ShouldNotify(ObservableDeclBuilder.Selected(conformances), current, v), v);
      multiset(es)[Send(key, v)] == 1 && multiset(es)[DidSet(key)] == 1
  {
    SetterStepsOnceOnBothChannels(key, v);
  }

  /**
   * A property with the accessors `@RelayedProperty` emits: its backing storage,
   * the companion publisher's modification depth, and the log of effects.
   */
  class RelayedStorage {
    const key: string
    const channels: Channels
    const overload: ObservableDeclBuilder.Overload
    var backing: Value
    var depth: int
    var log: seq<Event>

    /** The depth counter is the log's net bracket count, and no bracket is left open between accesses. */
    ghost predicate Valid()
      reads this
    {
      depth == Depth(log) && Balanced(log)
    }

    /** The `init` accessor: it initializes `_name` and does nothing else. */
    constructor Init(p: Property, overload: ObservableDeclBuilder.Overload, initialValue: Value)
      ensures Valid()
      ensures key == p.name && channels == ChannelsOf(p) && this.overload == overload
      ensures backing == initialValue && depth == 0 && log == []
    {
      key := p.name;
      channels := ChannelsOf(p);
      this.overload := overload;
      backing := initialValue;
      depth := 0;
      log := [];
      UnbracketedIsBalanced([]);
    }

    /** The getter: the backing value, after registering access when observed. */
    method Get() returns (v: Value)
      requires Valid()
      modifies this`log
      ensures Valid()
      ensures v == backing
      ensures log == old(log) + GetEvents(key, Observes(channels))
    {
      if Observes(channels) {
        log := log + [Access(key)];
        UnbracketedIsBalanced([Access(key)]);
        BalancedAppend(old(log), [Access(key)]);
        DepthAppend(old(log), [Access(key)]);
        UnbracketedDepth([Access(key)]);
      }
      v := backing;
    }

    /** One step of an accessor body. */
    method Emit(e: Event)
      modifies this`log, this`depth
      ensures log == old(log) + [e] && depth == old(depth) + Delta(e)
    {
      log := log + [e];
      depth := depth + Delta(e);
    }

    /** Records the effects of a complete accessor run and checks that they leave the state valid. */
    lemma Closed(before: seq<Event>, events: seq<Event>, d: int)
      requires before + events == log && d == depth
      requires Depth(before) + Depth(events) == d
      requires Balanced(before) && Balanced(events)
      ensures Valid()
    {
      DepthAppend(before, events);
      BalancedAppend(before, events);
    }

    /**
     * The setter: it asks `shouldNotifyObservers` with the old and the new value,
     * then runs the template of its channels.
     */
    method Set(newValue: Value)
      requires Valid()
      modifies this
      ensures Valid()
      ensures backing == newValue && depth == old(depth)
      ensures log == old(log) + SetEvents(key, channels, ObservableDeclBuilder.ShouldNotify(overload, old(backing), newValue), newValue)
    {
      var notify := ObservableDeclBuilder.ShouldNotify(overload, backing, newValue);
      if !notify {
        backing := newValue;
        Emit(Store(key, newValue));
      } else {
        match channels {
        case BothChannels => SetBoth(newValue);
        case ObservationOnly => SetObservationOnly(newValue);
        case PublisherOnly => SetPublisherOnly(newValue);
        }
      }
      AccessorsBalanced(key, channels, notify, newValue);
      Closed(old(log), SetEvents(key, channels, notify, newValue), depth);
    }

    /** The setter's statements when both channels are driven. */
    method SetBoth(newValue: Value)
      modifies this`backing, this`log, this`depth
      ensures backing == newValue && depth == old(depth)
      ensures log == old(log) + SetEvents(key, BothChannels, true, newValue)
    {
      Emit(Begin);
      Emit(WillSet(key));
      backing := newValue;
      Emit(Store(key, newValue));
      Emit(DidSet(key));
      Emit(Send(key, newValue));
      Emit(End);
      assert log == old(log) + [Begin, WillSet(key), Store(key, newValue), DidSet(key), Send(key, newValue), End];
    }

    /** The setter's statements when only the observation registrar is driven. */
    method SetObservationOnly(newValue: Value)
      modifies this`backing, this`log, this`depth
      ensures backing == newValue && depth == old(depth)
      ensures log == old(log) + SetEvents(key, ObservationOnly, true, newValue)
    {
      Emit(WillSet(key));
      backing := newValue;
      Emit(Store(key, newValue));
      Emit(DidSet(key));
      assert log == old(log) + [WillSet(key), Store(key, newValue), DidSet(key)];
    }

    /** The setter's statements when only the publisher is driven. */
    method SetPublisherOnly(newValue: Value)
      modifies this`backing, this`log, this`depth
      ensures backing == newValue && depth == old(depth)
      ensures log == old(log) + SetEvents(key, PublisherOnly, true, newValue)
    {
      Emit(Begin);
      backing := newValue;
      Emit(Store(key, newValue));
      Emit(Send(key, newValue));
      Emit(End);
      assert log == old(log) + [Begin, Store(key, newValue), Send(key, newValue), End];
    }

    /**
     * `_modify`: the storage is yielded to the caller, whose in-place write
     * `mutate` leaves the new value; the deferred steps then run.
     */
    method Modify(mutate: Value -> Value)
      requires Valid()
      modifies this
      ensures Valid()
      ensures backing == mutate(old(backing)) && depth == old(depth)
      ensures log == old(log) + ModifyEvents(key, channels, mutate(old(backing)))
    {
      var mutated := mutate(backing);
      ModifyTo(mutated);
    }

    /** The body of `_modify` once the caller has left `mutated` in the yielded storage. */
    method ModifyTo(mutated: Value)
      requires Valid()
      modifies this
      ensures Valid()
      ensures backing == mutated && depth == old(depth)
      ensures log == old(log) + ModifyEvents(key, channels, mutated)
    {
      match channels {
      case BothChannels => ModifyBoth(mutated);
      case ObservationOnly => ModifyObservationOnly(mutated);
      case PublisherOnly => ModifyPublisherOnly(mutated);
      }
      AccessorsBalanced(key, channels, true, mutated);
      Closed(old(log), ModifyEvents(key, channels, mutated), depth);
    }

    /** `_modify` on both channels: the bracket and `willSet` before the yield, the rest deferred. */
    method ModifyBoth(mutated: Value)
      modifies this`backing, this`log, this`depth
      ensures backing == mutated && depth == old(depth)
      ensures log == old(log) + ModifyEvents(key, BothChannels, mutated)
    {
      Emit(Begin);
      Emit(Access(key));
      Emit(WillSet(key));
      backing := mutated;
      Emit(Store(key, mutated));
      Emit(DidSet(key));
      Emit(Send(key, backing));
      Emit(End);
      assert log == old(log) + [Begin, Access(key), WillSet(key), Store(key, mutated), DidSet(key), Send(key, mutated), End];
    }

    /** `_modify` on the observation registrar only. */
    method ModifyObservationOnly(mutated: Value)
      modifies this`backing, this`log, this`depth
      ensures backing == mutated && depth == old(depth)
      ensures log == old(log) + ModifyEvents(key, ObservationOnly, mutated)
    {
      Emit(Access(key));
      Emit(WillSet(key));
      backing := mutated;
      Emit(Store(key, mutated));
      Emit(DidSet(key));
      assert log == old(log) + [Access(key), WillSet(key), Store(key, mutated), DidSet(key)];
    }

    /** `_modify` on the publisher only. */
    method ModifyPublisherOnly(mutated: Value)
      modifies this`backing, this`log, this`depth
      ensures backing == mutated && depth == old(depth)
      ensures log == old(log) + ModifyEvents(key, PublisherOnly, mutated)
    {
      Emit(Begin);
      backing := mutated;
      Emit(Store(key, mutated));
      Emit(Send(key, backing));
      Emit(End);
      assert log == old(log) + [Begin, Store(key, mutated), Send(key, mutated), End];
    }
  }
}
