# Relay macros, modelled in Dafny

Relay is a set of Swift macros and a small runtime that give `@Observable` classes
Combine publishers. The macros are:

- `@Publishable` adds a companion `PropertyPublisher` class and an observation registrar that publishes every change.
- `@Relayed` does the same for classes that do not use `@Observable`. It emits its own registrar field and `shouldNotifyObservers` overloads, and marks every tracked stored property with `@RelayedProperty`.
- `@RelayedProperty` replaces a stored property with accessors over a private backing `_name`.
- `@Memoized` caches the value of a method in a property. The cache is invalidated when anything the method read changes.
- `@PublisherSuppressed` (also spelled `@PublisherSupressed`), `@ObservationSuppressed` and `@ObservationIgnored` are markers that keep a member out of one channel.

Three generations of the builders coexist in the repository: `Macros/RelayMacros`, `Sources/RelayMacros` and `Sources/PublishableMacros`. Each is modelled as written, in its own module. The Combine flavour of `@Publishable` (`CombinePublishableMacro`) is wired to the `Macros/RelayMacros/Publishable` builders, because those are the ones whose initialisers match its calls: `PropertyPublisherDeclBuilder(declaration:properties:preferredGlobalActorIsolation:)` and an `ObservationRegistrarDeclBuilder` without a `context:` argument.

The model works on abstract records, not on syntax text:

- **Declarations.** Classes, properties, methods and attributes are datatypes (`Syntax`). The macros' outputs are sequences of declaration records, for example a subject, a publisher, a `deinit` completion, a cache or an extension.
- **Classification predicates.** The marker macros are predicates over properties and methods. Their lemmas state exclusion, independence and implication.
- **Emitted code as events.** What the emitted code does when it runs is an event log (`Events`):
  - `Begin`/`End` bracket the publisher's modifications;
  - `Access`, `WillSet`, `DidSet` and `Mutation` are calls on the observation registrar;
  - `Store` and `Clear` write the backing storage or a cache;
  - `Send` delivers a value to a subject.
- **Balance.** A log is balanced when no prefix closes more brackets than it opened and the whole log closes every bracket it opened.
- **Stateful code.** Code that changes state step by step is modelled as classes:
  - the relayed accessors are `RelayedPropertyDeclAccessorBuilder.RelayedStorage`;
  - the runtime registrar defaults are `PublishableObservationRegistrar.PublishableObject`;
  - the memoized accessor's cache is `MemoizedRuntime.MemoizedHost`.

Some helpers are not part of this model: the property parser, the camel-case splitter, `isStoredPublishable`/`isComputedPublishable` and `MemoizedMacro.extract`. They enter as inputs: `Property` records, a method's `words`, and the arrow-typed fields of `Syntax.Classifiers`.

## Model

| member | source | states |
|---|---|---|
| `PublisherSuppressedMacro.PeerExpansion` | Macros/RelayMacros/Combine/Common/PublisherSuppressedMacro.swift:18-24 | The marker's peer expansion adds no declaration, whatever it is attached to. |
| `PublisherSuppressedMacro.NeverStoredTracked` | Macros/RelayMacros/Combine/Common/PublisherSuppressedMacro.swift:29-35 | `IsStoredPublisherTracked` never holds of `let` properties, `static`/`class` properties or overrides. |
| `PublisherSuppressedMacro.ComputedIgnoresMutability` | Macros/RelayMacros/Combine/Common/PublisherSuppressedMacro.swift:37-42 | Computed-publisher tracking does not depend on mutability. |
| `PublisherSuppressedMacro.StoredAndComputedExclusive` | Macros/RelayMacros/Combine/Common/PublisherSuppressedMacro.swift:29-42 | No property satisfies both `IsStoredPublisherTracked` and `IsComputedPublisherTracked`. |
| `PublisherSuppressedMacro.MarkingOnlyDisables` | Macros/RelayMacros/Combine/Common/PublisherSuppressedMacro.swift:29-49 | Adding an attribute never makes `IsStoredPublisherTracked`, `IsComputedPublisherTracked` or `IsFunctionPublisherTracked` true. Adding `@PublisherSuppressed` makes all three false. |
| `PublisherSupressedMacro.PeerExpansion` | Macros/RelayMacros/Combine/Common/PublisherSupressedMacro.swift:18-24 | The legacy marker's peer expansion adds nothing. |
| `PublisherSupressedMacro.NeverStoredTracked` | Macros/RelayMacros/Combine/Common/PublisherSupressedMacro.swift:29-35 | `let`, type-scoped and overriding properties are never stored-publisher-tracked under the legacy spelling. |
| `PublisherSupressedMacro.ComputedIgnoresMutability` | Macros/RelayMacros/Combine/Common/PublisherSupressedMacro.swift:37-42 | Computed tracking under the legacy spelling ignores mutability. |
| `PublisherSupressedMacro.StoredAndComputedExclusive` | Macros/RelayMacros/Combine/Common/PublisherSupressedMacro.swift:29-42 | Stored and computed tracking never hold together. |
| `PublisherSupressedMacro.MarkingOnlyDisables` | Macros/RelayMacros/Combine/Common/PublisherSupressedMacro.swift:29-49 | An attribute never enables tracking. `@PublisherSupressed` disables it for properties and methods. |
| `ObservationIgnoredMacro.NeverObservable` | Macros/RelayMacros/Combine/Common/ObservationIgnoredMacro.swift:18-24 | `IsStoredObservable` never holds of `let`, type-scoped, overriding or computed properties. |
| `ObservationIgnoredMacro.OnlyIgnoredConsulted` | Macros/RelayMacros/Combine/Common/ObservationIgnoredMacro.swift:23 | An attribute other than `@ObservationIgnored` never changes `isStoredObservable`. |
| `ObservationSuppressedMacro.PeerExpansion` | Macros/RelayMacros/Combine/Common/ObservationSuppressedMacro.swift:18-24 | The marker's peer expansion adds nothing. |
| `ObservationSuppressedMacro.EitherMarkerExcludes` | Macros/RelayMacros/Combine/Common/ObservationSuppressedMacro.swift:29-44 | Either observation marker alone makes `IsStoredObservationTracked` and `IsFunctionObservationTracked` false. |
| `ObservationSuppressedMacro.TrackedImpliesObservable` | Macros/RelayMacros/Combine/Common/ObservationIgnoredMacro.swift:18-24 | Observation tracking implies `isStoredObservable`. The converse holds when `@ObservationSuppressed` is absent. |
| `ObservationSuppressedMacro.IndependentOfPublisherMarkers` | Macros/RelayMacros/Combine/Common/ObservationSuppressedMacro.swift:29-44 | The publisher markers never change observation tracking of a property or a method. |
| `ObservationSuppressedMacro.ChannelsIndependent` | Macros/RelayMacros/Combine/Common/ObservationSuppressedMacro.swift:29-36 | The markers alone can put an unmarked stored instance `var` on either channel, on both or on neither. |
| `ObservableDeclBuilder.Build` | Macros/RelayMacros/Combine/Relayed/ObservableDeclBuilder.swift:24-32 | `build` emits five declarations, the registrar field first. |
| `ObservableDeclBuilder.BuildEmitsEachOverloadOnce` | Macros/RelayMacros/Combine/Relayed/ObservableDeclBuilder.swift:24-32 | Each of the four `shouldNotifyObservers` overloads and the registrar field is emitted exactly once. |
| `ObservableDeclBuilder.Selected` | Macros/RelayMacros/Combine/Relayed/ObservableDeclBuilder.swift:38-80 | Overload resolution picks an applicable overload at least as constrained as every other applicable one. |
| `ObservableDeclBuilder.ShouldNotify` | Macros/RelayMacros/Combine/Relayed/ObservableDeclBuilder.swift:38-80 | Comparing a value with itself notifies only under the unconstrained overload. Two values that differ in content and identity always notify. |
| `ObservableDeclBuilder.SameValueNotifiesOnlyUnconstrained` | Macros/RelayMacros/Combine/Relayed/ObservableDeclBuilder.swift:40-57 | Comparing a value with itself notifies if and only if the type is neither Equatable nor a class. |
| `ObservableDeclBuilder.ComparisonByConformance` | Macros/RelayMacros/Combine/Relayed/ObservableDeclBuilder.swift:51-79 | Equatable types are compared by value, including classes. Non-Equatable classes are compared by identity. Other types always notify. |
| `RelayedPropertyDeclAccessorBuilder.ChannelsOf` | Macros/RelayMacros/Combine/Relayed/RelayedPropertyDeclAccessorBuilder.swift:50-100 | Both channels exactly when the property is observation- and publisher-tracked. Observation only when it is observation-tracked and not publisher-tracked. The publisher-only template whenever it is not observation-tracked. |
| `RelayedPropertyDeclAccessorBuilder.BuildAccessors` | Macros/RelayMacros/Combine/Relayed/RelayedPropertyDeclAccessorBuilder.swift:15-100 | There are four accessors, in the order init, get, set, `_modify`. `init` initializes `_name`. Set and `_modify` use the channels `ChannelsOf` picks for the property. The getter registers access exactly when the property is observation-tracked. For an accepted property, set and `_modify` publish exactly when it is publisher-tracked. |
| `RelayedPropertyDeclAccessorBuilder.ChannelsMatchTracking` | Macros/RelayMacros/Combine/Relayed/RelayedPropertyDeclAccessorBuilder.swift:33-100 | The chosen templates observe if and only if the property is observation-tracked. For an accepted property they publish if and only if it is publisher-tracked. |
| `RelayedPropertyDeclAccessorBuilder.SetterEventsByChannel` | Macros/RelayMacros/Combine/Relayed/RelayedPropertyDeclAccessorBuilder.swift:50-97 | Every setter stores the new value. It calls willSet and didSet exactly when it notifies and observes. It opens a bracket and sends exactly when it notifies and publishes. |
| `RelayedPropertyDeclAccessorBuilder.ModifyEventsByChannel` | Macros/RelayMacros/Combine/Relayed/RelayedPropertyDeclAccessorBuilder.swift:99-145 | Every `_modify` stores the mutated value. It registers access and calls willSet exactly when it observes. It opens a bracket and sends exactly when it publishes. |
| `RelayedPropertyDeclAccessorBuilder.SetterShortCircuits` | Macros/RelayMacros/Combine/Relayed/RelayedPropertyDeclAccessorBuilder.swift:55-58 | When `shouldNotifyObservers` is false, every setter only stores the new value. |
| `RelayedPropertyDeclAccessorBuilder.AccessorsBalanced` | Macros/RelayMacros/Combine/Relayed/RelayedPropertyDeclAccessorBuilder.swift:50-145 | Every set and `_modify` variant leaves the publisher brackets balanced. |
| `RelayedPropertyDeclAccessorBuilder.SetterBalanced` | Macros/RelayMacros/Combine/Relayed/RelayedPropertyDeclAccessorBuilder.swift:50-97 | Every setter variant, notifying or not, is balanced. |
| `RelayedPropertyDeclAccessorBuilder.ModifyBalanced` | Macros/RelayMacros/Combine/Relayed/RelayedPropertyDeclAccessorBuilder.swift:99-145 | Every `_modify` variant is balanced. |
| `RelayedPropertyDeclAccessorBuilder.SetterOrderOnBothChannels` | Macros/RelayMacros/Combine/Relayed/RelayedPropertyDeclAccessorBuilder.swift:60-65 | The setter on both channels runs Begin, willSet, store, didSet, send of the new value, End, in that order. |
| `RelayedPropertyDeclAccessorBuilder.SetterStepsOnceOnBothChannels` | Macros/RelayMacros/Combine/Relayed/RelayedPropertyDeclAccessorBuilder.swift:60-65 | That setter stores once, calls didSet once and sends once. |
| `RelayedPropertyDeclAccessorBuilder.ModifyOrderOnBothChannels` | Macros/RelayMacros/Combine/Relayed/RelayedPropertyDeclAccessorBuilder.swift:103-115 | `_modify` opens with Begin. After the caller's write it sends the mutated value and then closes with End. |
| `RelayedPropertyDeclAccessorBuilder.ChannelsSeparate` | Macros/RelayMacros/Combine/Relayed/RelayedPropertyDeclAccessorBuilder.swift:69-143 | Observation-only accessors never touch the publisher. Publisher-only accessors never touch the registrar. |
| `RelayedPropertyDeclAccessorBuilder.SetterSendInsideBracket` | Macros/RelayMacros/Combine/Relayed/RelayedPropertyDeclAccessorBuilder.swift:50-97 | Every send of a setter happens while exactly one modification bracket is open. |
| `RelayedPropertyDeclAccessorBuilder.SetterSendDepth` | Macros/RelayMacros/Combine/Relayed/RelayedPropertyDeclAccessorBuilder.swift:50-97 | A setter's send is preceded by exactly one open bracket. |
| `RelayedPropertyDeclAccessorBuilder.ModifySendInsideBracket` | Macros/RelayMacros/Combine/Relayed/RelayedPropertyDeclAccessorBuilder.swift:99-145 | Every send of `_modify` happens while exactly one modification bracket is open. |
| `RelayedPropertyDeclAccessorBuilder.ModifySendDepth` | Macros/RelayMacros/Combine/Relayed/RelayedPropertyDeclAccessorBuilder.swift:99-145 | A `_modify` send is preceded by exactly one open bracket. |
| `RelayedPropertyDeclAccessorBuilder.EqualAssignmentIsSilent` | Tests/RelayTests/Combine/Relayed/AnyPropertyPublisherRelayedTests.swift:259-261 | Assigning an equal value to an Equatable property stores it and produces no send and no didSet. |
| `RelayedPropertyDeclAccessorBuilder.UnconstrainedAssignmentNotifies` | Tests/RelayTests/Combine/Relayed/AnyPropertyPublisherRelayedTests.swift:64-66 | Assigning to a property whose type is neither Equatable nor a class yields exactly one send and one didSet. |
| `RelayedPropertyDeclAccessorBuilder.RelayedStorage.Init` | Macros/RelayMacros/Combine/Relayed/RelayedPropertyDeclAccessorBuilder.swift:24-31 | The init accessor sets only the backing storage. The log is empty and no bracket is open. |
| `RelayedPropertyDeclAccessorBuilder.RelayedStorage.Get` | Macros/RelayMacros/Combine/Relayed/RelayedPropertyDeclAccessorBuilder.swift:33-48 | The getter returns the backing value, after an access event exactly when the property is observed. The depth is unchanged. |
| `RelayedPropertyDeclAccessorBuilder.RelayedStorage.Set` | Macros/RelayMacros/Combine/Relayed/RelayedPropertyDeclAccessorBuilder.swift:50-97 | The setter stores the new value and appends the chosen template's events. It restores the modification depth and keeps the log balanced. |
| `RelayedPropertyDeclAccessorBuilder.RelayedStorage.Modify` | Macros/RelayMacros/Combine/Relayed/RelayedPropertyDeclAccessorBuilder.swift:99-145 | `_modify` leaves the caller's mutated value in storage and appends its template's events, including the deferred ones. The depth is restored. |
| `RelayedPropertyDeclAccessorBuilder.RelayedStorage.ModifyTo` | Macros/RelayMacros/Combine/Relayed/RelayedPropertyDeclAccessorBuilder.swift:100-143 | The `_modify` body once the yielded storage holds the mutated value: same events, depth restored. |
| `RelayedPropertyMacro.ValidateNode` | Macros/RelayMacros/Combine/Relayed/RelayedPropertyMacro.swift:28-37 | A declaration is accepted if and only if it parses as a standalone property tracked on at least one channel. |
| `RelayedPropertyMacro.ShouldAttach` | Macros/RelayMacros/Combine/Relayed/RelayedPropertyMacro.swift:15-23 | `shouldAttach` holds exactly of a variable declaration that parses as a property, is tracked on at least one channel and does not already carry `@RelayedProperty`. |
| `RelayedPropertyMacro.ShouldAttachIdempotent` | Macros/RelayMacros/Combine/Relayed/RelayedPropertyMacro.swift:15-23 | `shouldAttach` implies acceptance. Once `@RelayedProperty` is written on the declaration, `shouldAttach` is false. |
| `RelayedPropertyMacro.AccessorExpansion` | Macros/RelayMacros/Combine/Relayed/RelayedPropertyMacro.swift:42-53 | There are no accessors exactly for rejected declarations. An accepted property gets the accessors `BuildAccessors` makes for it. |
| `RelayedPropertyMacro.PeerExpansion` | Macros/RelayMacros/Combine/Relayed/RelayedPropertyMacro.swift:58-89 | A rejected declaration has no peer. An accepted one has one private peer `_name` that keeps every attribute but `@RelayedProperty`. The peer's only binding is the renamed one, and it is otherwise the property. |
| `RelayedPropertyMacro.StorageKeepsTracking` | Tests/RelayMacrosTests/Combine/Relayed/RelayedPropertyMacroTests.swift:140 | The backing storage is classified like the property on both channels, so its suppression markers carry over. |
| `RelayedMacro.ValidateNodeAsWritten` | Macros/RelayMacros/Combine/Relayed/RelayedMacro.swift:19-37 | As written, validation accepts a class unless it carries `@Observation`, the spelling of `ObservableMacro.attribute`. |
| `RelayedMacro.ValidateNode` | Macros/RelayMacros/Combine/Relayed/RelayedMacro.swift:19-37 | The intended check: a non-class is rejected. So is a class with `@Observable`, with a fix-it removing exactly that attribute. Any other class is accepted unchanged. |
| `RelayedMacro.ObservableClassPassesAsWritten` | Macros/RelayMacros/Combine/Relayed/RelayedMacro.swift:26-37 | A class marked `@Observable` passes the written check. The intended check rejects it with the `@Observable` fix-it. |
| `RelayedMacro.ValidationsAgreeWithoutAttributes` | Macros/RelayMacros/Combine/Relayed/RelayedMacro.swift:19-37 | When a class carries neither `@Observable` nor `@Observation`, the written and the intended check give the same result. |
| `RelayedMacro.SuperclassType` | Macros/RelayMacros/Combine/Relayed/RelayedMacro.swift:55-56 | The superclass type is used if and only if `Publishable` is not among the requested conformances and the class has one. |
| `RelayedMacro.ObservableMembers` | Macros/RelayMacros/Combine/Relayed/RelayedMacro.swift:69-76 | The Observable builder's declarations are included one by one, in order. |
| `RelayedMacro.MemberExpansion` | Macros/RelayMacros/Combine/Relayed/RelayedMacro.swift:45-78 | The expansion fails exactly when the written validation or the isolation argument fails, with that error. Otherwise it holds the Publisher members, then the PropertyPublisher class that `CombinePropertyPublisherDeclBuilder.Build` makes for the class with the isolation argument, then the five Observable declarations. Both builders get the same superclass decision. |
| `RelayedMacro.MemberAttributeExpansionAsWritten` | Macros/RelayMacros/Combine/Relayed/RelayedMacro.swift:83-94 | As written, `[@RelayedProperty]` is returned exactly when `shouldAttach` holds of the class itself. |
| `RelayedMacro.AsWrittenNeverMarks` | Macros/RelayMacros/Combine/Relayed/RelayedMacro.swift:89-93 | As written, no member is ever marked, because a class is never a standalone property. |
| `RelayedMacro.MemberAttributeExpansion` | Macros/RelayMacros/Combine/Relayed/RelayedMacro.swift:83-94 | `[@RelayedProperty]` is returned if and only if `shouldAttach` holds of the visited member. Otherwise the result is `[]`. |
| `RelayedMacro.TrackedMemberMarkedOnce` | Tests/RelayMacrosTests/Combine/Relayed/SubclassedRelayedMacroTests.swift:53-54 | A tracked, unmarked stored property is marked once and not again. The written expansion leaves it unmarked. |
| `RelayedMacro.ExtensionExpansion` | Macros/RelayMacros/Combine/Relayed/RelayedMacro.swift:99-147 | With no protocols the result is `[]`, before validation. Otherwise it fails exactly when the written validation or the argument fails. For a valid class with a valid argument, the result is a `Publishable` extension with the resolved isolation, if requested, followed by a `nonisolated` `Observable` one, if requested. Every extension carries the class's availability. |
| `RelayedMacro.ExtensionsPerProtocol` | Macros/RelayMacros/Combine/Relayed/RelayedMacro.swift:114-146 | There is at most one extension per requested protocol, and every extension has the class's availability. `Publishable` comes first and uses a preferred isolation when one is given. `Observable` is never isolated. |
| `CombinePropertyPublisherDeclBuilder.InheritanceClause` | Macros/RelayMacros/Combine/Common/PropertyPublisherDeclBuilder.swift:42-48 | The class inherits `<Super>.PropertyPublisher` if and only if a superclass type is given. Otherwise it inherits `Relay.AnyPropertyPublisher`. |
| `CombinePropertyPublisherDeclBuilder.FinishCalls` | Macros/RelayMacros/Combine/Common/PropertyPublisherDeclBuilder.swift:89-103 | `deinit` has one completion per stored-publishable property, in declaration order, under its `#if`. |
| `CombinePropertyPublisherDeclBuilder.StoredPublishers` | Macros/RelayMacros/Combine/Common/PropertyPublisherDeclBuilder.swift:105-114 | The stored section is the subject/publisher pairs of the stored-publishable properties, in order. |
| `CombinePropertyPublisherDeclBuilder.ComputedPublishers` | Macros/RelayMacros/Combine/Common/PropertyPublisherDeclBuilder.swift:131-153 | The computed section has one publisher per computed-publishable property, in order. |
| `CombinePropertyPublisherDeclBuilder.MemoizedPublishers` | Macros/RelayMacros/Combine/Common/PropertyPublisherDeclBuilder.swift:156-170 | The memoized section holds a publisher for every extracted method without `@PublisherIgnored`, and nothing else. |
| `CombinePropertyPublisherDeclBuilder.MemoizedPublishersDistribute` | Macros/RelayMacros/Combine/Common/PropertyPublisherDeclBuilder.swift:156-170 | The memoized section of `a + b` is that of `a` followed by that of `b`, so publishers follow declaration order. |
| `CombinePropertyPublisherDeclBuilder.MemoizedPublishersOfOne` | Macros/RelayMacros/Combine/Common/PropertyPublisherDeclBuilder.swift:156-170 | A single member yields one publisher if it is an extracted method without `@PublisherIgnored`, and none otherwise. |
| `CombinePropertyPublisherDeclBuilder.Build` | Macros/RelayMacros/Combine/Common/PropertyPublisherDeclBuilder.swift:18-40 | The class has the preferred isolation when one is given and the class's own otherwise. It keeps the class's access level and `final` modifier. Its will/didChange names come from the type name, and `deinit` finishes the stored-publishable subjects. It inherits by `inheritanceClause`, and its members are the stored, computed and memoized sections laid end to end. |
| `CombinePropertyPublisherDeclBuilder.EverySubjectFinishedOnce` | Macros/RelayMacros/Combine/Common/PropertyPublisherDeclBuilder.swift:89-114 | `deinit` finishes exactly the subjects the stored section declares: one per subject, in order, under the same `#if`. |
| `CombinePropertyPublisherDeclBuilder.StoredSubjectPrecedesPublisher` | Macros/RelayMacros/Combine/Common/PropertyPublisherDeclBuilder.swift:116-128 | Each stored-publishable `p` yields the subject `_p` and then the publisher `p`, both of `p`'s type. The publisher has no availability attribute. |
| `CombinePropertyPublisherDeclBuilder.AvailabilityOnlyOnComputed` | Macros/RelayMacros/Combine/Common/PropertyPublisherDeclBuilder.swift:142-153 | Computed publishers carry their property's availability. Stored ones never do. |
| `CombinePropertyPublisherDeclBuilder.FinishCallsDistribute` | Macros/RelayMacros/Combine/Common/PropertyPublisherDeclBuilder.swift:89-98 | The completions of `a + b` are those of `a` followed by those of `b`, so declaration order is kept. |
| `CombinePropertyPublisherDeclBuilder.StoredPublishersDistribute` | Macros/RelayMacros/Combine/Common/PropertyPublisherDeclBuilder.swift:105-114 | The stored section distributes over concatenation. |
| `CombinePropertyPublisherDeclBuilder.ComputedPublishersDistribute` | Macros/RelayMacros/Combine/Common/PropertyPublisherDeclBuilder.swift:131-140 | The computed section distributes over concatenation. |
| `CombinePropertyPublisherDeclBuilder.ChangePublisherNames` | Macros/RelayMacros/Combine/Common/PropertyPublisherDeclBuilder.swift:50-68 | The will/didChange names share the type's lowerCamelCase prefix. The prefix starts in lower case and differs from the type name only in letter case. |
| `CombinePropertyPublisherDeclBuilder.PersonWillChange` | Macros/RelayMacros/Combine/Common/PropertyPublisherDeclBuilder.swift:50-68 | A worked example, not a general property: the type `Person` gives `personWillChange` and `personDidChange`. |
| `CombineObservationRegistrarDeclBuilder.Lookups` | Macros/RelayMacros/Combine/Publishable/ObservationRegistrarDeclBuilder.swift:64-85 | There is one key-path lookup per tracked property, in order, under its `#if`. |
| `CombineObservationRegistrarDeclBuilder.RunLookupsFinds` | Macros/RelayMacros/Combine/Publishable/ObservationRegistrarDeclBuilder.swift:64-85 | Running the lookups sends the current value exactly when some tracked property has the key path's name. Otherwise nothing happens. |
| `CombineObservationRegistrarDeclBuilder.Publish` | Macros/RelayMacros/Combine/Publishable/ObservationRegistrarDeclBuilder.swift:26-85 | `publish` sends one value if and only if a stored-publishable property has the key path. An unmatched key path does nothing. |
| `CombineObservationRegistrarDeclBuilder.Build` | Macros/RelayMacros/Combine/Publishable/ObservationRegistrarDeclBuilder.swift:18-61 | The lookups come from the tracked properties. The bridge is `assumeIsolated` if and only if the resolved isolation names a global actor. |
| `CombineObservationRegistrarDeclBuilder.RegistrarBalanced` | Macros/RelayMacros/Combine/Publishable/ObservationRegistrarDeclBuilder.swift:87-148 | A `willSet`/`didSet` pair is balanced. The deferred `withMutation` is balanced however the closure ends. At most one value is published. |
| `ObservationRegistrarDeclBuilder.Build` | Macros/RelayMacros/Publishable/ObservationRegistrarDeclBuilder.swift:18-95 | There is one cast branch per distinct registered type, without duplicates, covering exactly those types. There is one subject function per cast, branching over exactly that type's registered properties, in order. The bridge follows the resolved isolation. |
| `ObservationRegistrarDeclBuilder.Publish` | Macros/RelayMacros/Publishable/ObservationRegistrarDeclBuilder.swift:44-66 | A registered key path sends the current value. Any other key path sends nothing and asserts nothing. |
| `ObservationRegistrarDeclBuilder.RegistrarBalanced` | Macros/RelayMacros/Publishable/ObservationRegistrarDeclBuilder.swift:97-152 | `willSet`/`didSet` are balanced, and so is the deferred `withMutation`, whether the closure returns or throws. |
| `TypeGroups.Filter` | Macros/RelayMacros/Combine/Common/PropertyPublisherDeclBuilder.swift:90 | An order-preserving filter holds exactly the kept members. |
| `TypeGroups.FilterAppend` | Macros/RelayMacros/Combine/Publishable/ObservationRegistrarDeclBuilder.swift:26 | Filtering distributes over concatenation, so the kept members stay in declaration order. |
| `TypeGroups.StoredMutableInstance` | Macros/RelayMacros/Publishable/ObservationRegistrarDeclBuilder.swift:18-20 | The registered properties are exactly the stored, mutable instance properties. |
| `TypeGroups.ComputedInstance` | Macros/RelayMacros/Publishable/PropertyPublisherDeclBuilder.swift:67-79 | The computed publishers cover exactly the computed instance properties, with or without a setter. |
| `TypeGroups.UniqueTypes` | Macros/RelayMacros/Publishable/ObservationRegistrarDeclBuilder.swift:56-66 | `uniqueInferredTypes` contains every type once, exactly the types that occur, in order of first occurrence. |
| `TypeGroups.WithType` | Macros/RelayMacros/Publishable/ObservationRegistrarDeclBuilder.swift:83-95 | `withInferredType` holds exactly the properties of that type. |
| `TypeGroups.GroupsPartition` | Tests/RelayMacrosTests/Publishable/PublishableMacroTests.swift:163-195 | The type groups laid end to end are a permutation of the registered properties, so each property is in exactly one group. |
| `TypeGroups.SubjectFunctions` | Macros/RelayMacros/Publishable/ObservationRegistrarDeclBuilder.swift:69-95 | There is one subject function per unique type, whose cases are that type's property names in order. |
| `TypeGroups.FirstCase` | Macros/RelayMacros/Publishable/ObservationRegistrarDeclBuilder.swift:83-95 | A subject function finds a key path if and only if its name is among the cases. |
| `TypeGroups.SubjectAtUniqueType` | Macros/RelayMacros/Publishable/ObservationRegistrarDeclBuilder.swift:69-95 | Calling `subject(for:)` at a declared type runs exactly that type's group. |
| `TypeGroups.PublishDispatchIsLinearSearch` | Macros/RelayMacros/Publishable/ObservationRegistrarDeclBuilder.swift:56-95 | The cast-then-subject dispatch publishes a key path if and only if some property declares it. It agrees with a linear search for that property. |
| `TypeGroups.DispatchEvents` | Sources/RelayMacros/Publishable/ObservationRegistrarDeclBuilder.swift:55-66 | A matched key path sends the current value. An unmatched one runs the generation's miss action. |
| `SourcesRelayObservationRegistrarDeclBuilder.Build` | Sources/RelayMacros/Publishable/ObservationRegistrarDeclBuilder.swift:17-97 | There are cast branches per distinct registered type and one subject function per type over that type's properties. The bridge is `assumeIsolated` if and only if the resolved isolation is a global actor. |
| `SourcesRelayObservationRegistrarDeclBuilder.Publish` | Sources/RelayMacros/Publishable/ObservationRegistrarDeclBuilder.swift:55-66 | A registered key path is sent. Any other trips `assertionFailure`. |
| `SourcesRelayObservationRegistrarDeclBuilder.RegistrarBrackets` | Sources/RelayMacros/Publishable/ObservationRegistrarDeclBuilder.swift:99-148 | `willSet`/`didSet` are balanced, and so is `withMutation` when the closure returns. When it throws, one bracket stays open and nothing is sent. |
| `SourcesPublishableObservationRegistrarDeclBuilder.Build` | Sources/PublishableMacros/Builders/ObservationRegistrarDeclBuilder.swift:25-116 | The struct is `@MainActor` if and only if requested. It has casts per distinct type and one subject function per type over that type's registered properties. |
| `SourcesPublishableObservationRegistrarDeclBuilder.MainActorOnlyWraps` | Sources/PublishableMacros/Builders/ObservationRegistrarDeclBuilder.swift:25-60 | The two templates differ only in the `@MainActor` attribute. |
| `SourcesPublishableObservationRegistrarDeclBuilder.Publish` | Sources/PublishableMacros/Builders/ObservationRegistrarDeclBuilder.swift:74-87 | A registered key path is sent. Any other trips `assertionFailure`. |
| `RegistrarEvents.MutationResult` | Sources/Publishable/Registrars/PublishableObservationRegistrar.swift:50-60 | Bookkeeping rather than a property: `withMutation` returns the closure's result unchanged, or rethrows. |
| `RegistrarEvents.WillSetDidSetBalanced` | Sources/Publishable/Registrars/PublishableObservationRegistrar.swift:26-41 | `willSet` is Begin and then the underlying willSet. `didSet` is the underlying didSet, then publish, then End. Together they are balanced. |
| `RegistrarEvents.AccessNeverBrackets` | Sources/Publishable/Registrars/PublishableObservationRegistrar.swift:43-48 | `access` only calls the registrar and never brackets. |
| `RegistrarEvents.DeferredMutationBalanced` | Macros/RelayMacros/Publishable/ObservationRegistrarDeclBuilder.swift:129-152 | The deferred `withMutation` is balanced and runs the same steps whether the closure returns or throws. |
| `RegistrarEvents.UndeferredMutationLeaksOnThrow` | Sources/Publishable/Registrars/PublishableObservationRegistrar.swift:55-58 | Without a `defer`, a throwing closure leaves the depth at 1, unbalanced, with nothing published. |
| `RegistrarEvents.UndeferredMutationOnReturn` | Sources/Publishable/Registrars/PublishableObservationRegistrar.swift:50-60 | On normal return the undeferred form equals the deferred one and is balanced. |
| `RegistrarEvents.BridgeFor` | Macros/RelayMacros/Publishable/ObservationRegistrarDeclBuilder.swift:156-188 | The bridge is `assumeIsolated` on the actor if and only if the isolation names a global actor. Otherwise the call is direct. |
| `PublishableObservationRegistrar.PublishableObject.constructor` | Sources/Publishable/Registrars/PublishableObservationRegistrar.swift:12-22 | A fresh object has an empty log and no open modification. |
| `PublishableObservationRegistrar.PublishableObject.Emit` | Sources/Publishable/Registrars/PublishableObservationRegistrar.swift:26-60 | Each effect is appended to the log, and `beginModifications`/`endModifications` move the pending count up or down by one, so the count always equals the log's depth. |
| `PublishableObservationRegistrar.PublishableObject.Publish` | Sources/Publishable/Registrars/PublishableObservationRegistrar.swift:18-21 | The conforming registrar's `publish` appends its events and leaves the pending count alone. |
| `PublishableObservationRegistrar.PublishableObject.WillSet` | Sources/Publishable/Registrars/PublishableObservationRegistrar.swift:26-32 | `willSet` appends Begin and the underlying willSet, and raises the pending count by one. |
| `PublishableObservationRegistrar.PublishableObject.DidSet` | Sources/Publishable/Registrars/PublishableObservationRegistrar.swift:34-41 | `didSet` appends the underlying didSet, the publish events and End, and lowers the pending count by one. |
| `PublishableObservationRegistrar.PublishableObject.Access` | Sources/Publishable/Registrars/PublishableObservationRegistrar.swift:43-48 | `access` only delegates. The pending count is unchanged. |
| `PublishableObservationRegistrar.PublishableObject.WithMutation` | Sources/Publishable/Registrars/PublishableObservationRegistrar.swift:50-60 | As written, the closure's result is returned unchanged. The pending count rises by one exactly when the closure throws. |
| `PublishableObservationRegistrar.PublishableObject.DeferredWithMutation` | Macros/RelayMacros/Publishable/ObservationRegistrarDeclBuilder.swift:129-152 | With the deferred close, the pending count is restored however the closure ends, and the result is returned unchanged. |
| `PropertyPublisherDeclBuilder.FinishCalls` | Macros/RelayMacros/Publishable/PropertyPublisherDeclBuilder.swift:43-48 | `deinit` completes `_p` for every stored, mutable instance property, in order. |
| `PropertyPublisherDeclBuilder.StoredPublishers` | Macros/RelayMacros/Publishable/PropertyPublisherDeclBuilder.swift:50-64 | The same list gives a subject `_p` and a publisher `p` of `p`'s type, with the inherited isolation and sibling access. |
| `PropertyPublisherDeclBuilder.ComputedPublishers` | Macros/RelayMacros/Publishable/PropertyPublisherDeclBuilder.swift:66-79 | There is one publisher per computed instance property, in order. |
| `PropertyPublisherDeclBuilder.MemoizedParametersOf` | Macros/RelayMacros/Publishable/PropertyPublisherDeclBuilder.swift:84-86 | There are arguments only for a method with `@Memoized`, and they are its first such attribute's. |
| `PropertyPublisherDeclBuilder.DiscoveredMethods` | Macros/RelayMacros/Publishable/PropertyPublisherDeclBuilder.swift:82-99 | A method is discovered if and only if it is a member with parsable `@Memoized` arguments and a return type. |
| `PropertyPublisherDeclBuilder.DiscoveredMethodsDistribute` | Macros/RelayMacros/Publishable/PropertyPublisherDeclBuilder.swift:82-99 | The methods discovered in `a + b` are those of `a` followed by those of `b`, so discovery keeps declaration order. |
| `PropertyPublisherDeclBuilder.DiscoveredMethodsOfOne` | Macros/RelayMacros/Publishable/PropertyPublisherDeclBuilder.swift:82-99 | A single member is discovered exactly when it is a method with parsable `@Memoized` arguments and a return type. |
| `PropertyPublisherDeclBuilder.MemoizedPublisher` | Macros/RelayMacros/Publishable/PropertyPublisherDeclBuilder.swift:84-96 | The publisher is named by the explicit name, or else by the default name. It has the method's trimmed return type. Its isolation is the `isolation:` argument, or else the inherited one. Its access is exactly the `access:` argument, or unstated without one. |
| `PropertyPublisherDeclBuilder.MemoizedPublishers` | Macros/RelayMacros/Publishable/PropertyPublisherDeclBuilder.swift:82-99 | There is one publisher per discovered method, in declaration order. |
| `PropertyPublisherDeclBuilder.Build` | Macros/RelayMacros/Publishable/PropertyPublisherDeclBuilder.swift:18-33 | The class is final and keeps the class's access level. It holds `deinit`, then the stored, computed and memoized sections, all under the resolved isolation. |
| `PropertyPublisherDeclBuilder.SectionsMatchProperties` | Macros/RelayMacros/Publishable/PropertyPublisherDeclBuilder.swift:43-79 | `deinit` finishes exactly the stored section's subjects, in order. Every stored or computed publisher comes from a property of the matching kind, with its name and type. |
| `PropertyPublisherDeclBuilder.StoredFromProperties` | Macros/RelayMacros/Publishable/PropertyPublisherDeclBuilder.swift:50-64 | Every stored publisher comes from a stored, mutable instance property, with its name and type. |
| `PropertyPublisherDeclBuilder.ComputedFromProperties` | Macros/RelayMacros/Publishable/PropertyPublisherDeclBuilder.swift:66-79 | Every computed publisher comes from a computed instance property, with its name and type. |
| `PropertyPublisherDeclBuilder.MemoizedPublisherMatchesAccessor` | Macros/RelayMacros/Publishable/PropertyPublisherDeclBuilder.swift:88-91 | A memoized publisher has the name and type of the accessor `@Memoized` emits for the same method. An explicit isolation wins. |
| `PropertyPublisherDeclBuilder.PreferredIsolationWins` | Macros/RelayMacros/Publishable/PropertyPublisherDeclBuilder.swift:88 | A memoized publisher's isolation is the method's `isolation:` argument when given, else the inherited one. |
| `SourcesPublishablePropertyPublisherDeclBuilder.PeerAccess` | Sources/PublishableMacros/Builders/PropertyPublisherDeclBuilder.swift:70 | The peer access level is capped at `public`: the property's own level when it is at most `public`, and `public` otherwise. |
| `SourcesPublishablePropertyPublisherDeclBuilder.StoredPublishers` | Sources/PublishableMacros/Builders/PropertyPublisherDeclBuilder.swift:67-80 | Each stored, mutable instance property gets subject `_p` and publisher `p` of its type, with capped access. |
| `SourcesPublishablePropertyPublisherDeclBuilder.ComputedPublishers` | Sources/PublishableMacros/Builders/PropertyPublisherDeclBuilder.swift:82-94 | Each computed instance property gets a publisher with capped access. |
| `SourcesPublishablePropertyPublisherDeclBuilder.Build` | Sources/PublishableMacros/Builders/PropertyPublisherDeclBuilder.swift:21-65 | The class is `@MainActor` exactly when requested, is final and keeps the class's access level. `deinit` finishes exactly the stored subjects, in order. |
| `SourcesPublishablePropertyPublisherDeclBuilder.MainActorOnlyAnnotates` | Sources/PublishableMacros/Builders/PropertyPublisherDeclBuilder.swift:22-49 | The `@MainActor` choice changes nothing but the attribute. |
| `SourcesPublishablePropertyPublisherDeclBuilder.PublishersNeverOpen` | Sources/PublishableMacros/Builders/PropertyPublisherDeclBuilder.swift:67-94 | No publisher is `open`. A publisher for a property below `open` has exactly its property's level. |
| `CombinePublishableMacro.Validate` | Macros/RelayMacros/Combine/Publishable/PublishableMacro.swift:13-25 | A declaration is accepted if and only if it is a `final` class. Otherwise the macro throws the "final" diagnostic. |
| `CombinePublishableMacro.MemberExpansion` | Macros/RelayMacros/Combine/Publishable/PublishableMacro.swift:30-63 | Validation and argument errors propagate. On success the result is the Publisher members, then PropertyPublisher, then ObservationRegistrar, with one preferred isolation. |
| `CombinePublishableMacro.ExtensionExpansion` | Macros/RelayMacros/Combine/Publishable/PublishableMacro.swift:68-99 | The result is exactly one extension, conforming to `Publishable`, with the resolved isolation. |
| `CombinePublishableMacro.OneIsolationThroughout` | Macros/RelayMacros/Combine/Publishable/PublishableMacro.swift:78-91 | The conformance, the registrar's bridge and every publisher follow one isolation: the argument when given, the class's own otherwise. |
| `CombinePublishableMacro.IsolationOnlyFromLabel` | Macros/RelayMacros/Combine/Publishable/PublishableMacro.swift:104-112 | Arguments under any other label never change either expansion. |
| `Syntax.IsolationParameter` | Macros/RelayMacros/Combine/Publishable/PublishableMacro.swift:108-111 | A preference comes from an `isolation:` argument. With no such argument there is no preference. |
| `Syntax.IsolationReadOnlyFromLabel` | Macros/RelayMacros/Combine/Relayed/RelayedMacro.swift:156-159 | Arguments under other labels are never consulted for the isolation. |
| `Syntax.Without` | Macros/RelayMacros/Combine/Relayed/RelayedPropertyMacro.swift:67-69 | The peer's attributes are those of the property except the removed one, which is gone. |
| `Syntax.FirstMemoized` | Macros/RelayMacros/Publishable/PropertyPublisherDeclBuilder.swift:85 | `first(like: "@Memoized")` finds a `@Memoized` attribute of the list exactly when there is one. |
| `SourcesPublishableMacro.Validate` | Sources/PublishableMacros/Main/PublishableMacro.swift:13-28 | A declaration is accepted if and only if it is a final class with `@Observable` or `@Model`. Otherwise the result is the diagnostic. |
| `SourcesPublishableMacro.MemberExpansion` | Sources/PublishableMacros/Main/PublishableMacro.swift:33-59 | An invalid declaration is diagnosed and gets no members. A valid one gets the three builders in order, the last two given `mainActor`. |
| `SourcesPublishableMacro.ExtensionExpansion` | Sources/PublishableMacros/Main/PublishableMacro.swift:64-86 | An invalid declaration gets nothing. A valid one gets exactly one plain `Publishable` extension. |
| `SourcesPublishableMacro.MainActorPropagated` | Sources/PublishableMacros/Main/PublishableMacro.swift:49-58 | Both builders are `@MainActor` exactly when the class is, and the flag changes nothing else. |
| `SourcesPublishableMacro.InvalidExpandsToNothing` | Sources/PublishableMacros/Main/PublishableMacro.swift:39-41 | An invalid declaration yields `[]` from both expansions, with the diagnostic and without throwing. |
| `MemoizedMacro.DefaultPropertyName` | Macros/RelayMacros/Memoized/MemoizedMacro.swift:102-107 | The default name is the method's words without the first, in lowerCamelCase. It is empty exactly for a one-word name. |
| `MemoizedMacro.DefaultNameEmptyIffSingleWord` | Macros/RelayMacros/Memoized/MemoizedMacro.swift:87-107 | The default name is empty if and only if the method name has one word. Otherwise it starts in lower case. |
| `MemoizedMacro.CalculateAreaDefaultsToArea` | Macros/RelayMacros/Memoized/MemoizedMacro.swift:102-107 | A worked example, not a general property: `calculateArea` gives `area`. |
| `MemoizedMacro.ValidatePropertyName` | Macros/RelayMacros/Memoized/MemoizedMacro.swift:71-100 | An explicit name must be non-empty and is used verbatim. Otherwise the default name must be non-empty. Each failure has its own message. |
| `MemoizedMacro.Validate` | Macros/RelayMacros/Memoized/MemoizedMacro.swift:20-69 | Checks run in the order signature, context, name, and only the first failure is reported. On success the input holds the method, the class, the return type and the checked name. |
| `MemoizedMacro.PeerExpansion` | Macros/RelayMacros/Memoized/MemoizedMacro.swift:116-138 | Unparsable arguments throw. A validation failure is diagnosed and yields no peers. Success yields the builder's two declarations. |
| `MemoizedDeclBuilder.InvalidationFor` | Macros/RelayMacros/Memoized/MemoizedDeclBuilder.swift:82-129 | Invalidation is bracketed if and only if the class is `@Relayed` and the method is publisher-tracked. It is observed if and only if the method is observation-tracked. |
| `MemoizedDeclBuilder.InvalidationShape` | Macros/RelayMacros/Memoized/MemoizedDeclBuilder.swift:82-129 | When the instance is gone invalidation is a no-op. Otherwise it clears the cache and is balanced. Begin appears exactly for the bracketed variants. willSet precedes the clear, which precedes didSet, exactly for the observed ones. |
| `MemoizedDeclBuilder.Build` | Macros/RelayMacros/Memoized/MemoizedDeclBuilder.swift:22-51 | There are two final declarations: cache `_name` and accessor `name`, both of the return type. A comment comes before the cache exactly when the method has availability. The accessor has the availability and the preferred access. Both use the resolved isolation. Access tracking, invalidation variant and bridge follow the method and the class. |
| `MemoizedDeclBuilder.EmittedAccessorEffects` | Macros/RelayMacros/Memoized/MemoizedDeclBuilder.swift:53-129 | A hit registers access exactly when observation-tracked. Invalidation clears the cache, balanced, bracketed exactly when `@Relayed` and publisher-tracked. |
| `MemoizedDeclBuilder.CubeBaseAreaAccess` | Tests/RelayTests/Memoized/MainActorMemoizedTests.swift:27-48 | Two reads call the method once. Changing `y` clears the cache without recomputing. The next read recomputes. Changing an unrelated input keeps the cache. |
| `MemoizedDeclBuilder.CubeAfterVolumeRead` | Tests/RelayTests/Memoized/MainActorMemoizedTests.swift:120-124 | The first read of `volume` returns 1 and calls its method once. Because the method reads `baseArea` through its accessor, `baseArea` is filled and counted too. |
| `MemoizedDeclBuilder.CubeVolumeFillsBaseArea` | Tests/RelayTests/Memoized/MainActorMemoizedTests.swift:172-178 | After the first read of `volume`, both methods have been called once and `baseArea` is cached. |
| `MemoizedDeclBuilder.CubeAfterXWrite` | Tests/RelayTests/Memoized/MainActorMemoizedTests.swift:126-135 | Reading `baseArea` then hits its cache. Changing `x` clears both caches and calls neither method. |
| `MemoizedDeclBuilder.CubeAfterXChange` | Tests/RelayTests/Memoized/MainActorMemoizedTests.swift:137-145 | `baseArea` is recomputed. `volume` is recomputed and reads `baseArea` from its cache, so each method has now been called twice. |
| `MemoizedDeclBuilder.CubeAfterZWrite` | Tests/RelayTests/Memoized/MainActorMemoizedTests.swift:147-151 | Changing `z` invalidates `volume` and leaves `baseArea`, which does not read `z`, cached. No method is called. |
| `MemoizedDeclBuilder.CubeDependentAccess` | Tests/RelayTests/Memoized/MainActorMemoizedTests.swift:119-156 | The whole dependent scenario: after the change of `z`, `volume` is 6 and its method has run three times, while `baseArea` is still 2 from its cache and its method has run twice. |
| `MemoizedRuntime.UnrelatedWriteKeepsValue` | Macros/RelayMacros/Memoized/MemoizedDeclBuilder.swift:70-80 | Writing an input the method did not read leaves its value unchanged. |
| `MemoizedRuntime.InvalidationLog` | Macros/RelayMacros/Memoized/MemoizedDeclBuilder.swift:82-129 | A write that no cached dependent memo reads has no invalidation effects. |
| `MemoizedRuntime.MemoizedHost.constructor` | Macros/RelayMacros/Memoized/MemoizedDeclBuilder.swift:22-43 | Every cache starts as `nil`, no method has been called, and the log is empty. |
| `MemoizedRuntime.AfterRead` | Macros/RelayMacros/Memoized/MemoizedDeclBuilder.swift:53-80 | A read, as a function of the state, keeps one cache and one counter per memo. What it does is stated by `ReadFillsAndKeeps`. |
| `MemoizedRuntime.AfterReads` | Macros/RelayMacros/Memoized/MemoizedDeclBuilder.swift:53-80 | The reads a method makes through other memoized accessors, one after another, keep one cache and one counter per memo. |
| `MemoizedRuntime.ReadFillsAndKeeps` | Macros/RelayMacros/Memoized/MemoizedDeclBuilder.swift:53-80 | A read keeps every cache coherent and every filled cache as it was. It never lowers a call counter and only appends to the log. Afterwards the property holds its current value. A hit only appends the hit effects. A miss calls the method exactly once and leaves every memoized property it reads cached. |
| `MemoizedRuntime.ReadsFillAndKeep` | Macros/RelayMacros/Memoized/MemoizedDeclBuilder.swift:53-80 | The same holds for a sequence of reads, and every property read is cached afterwards. |
| `MemoizedRuntime.ReadTouchesOnlyBelow` | Macros/RelayMacros/Memoized/MemoizedDeclBuilder.swift:53-80 | A read touches no cache and no counter of a memoized property declared after the one read. |
| `MemoizedRuntime.ReadsTouchOnlyBelow` | Macros/RelayMacros/Memoized/MemoizedDeclBuilder.swift:53-80 | Reads of properties declared before a bound touch nothing at or after it. |
| `MemoizedRuntime.MemoizedHost.Read` | Macros/RelayMacros/Memoized/MemoizedDeclBuilder.swift:53-80 | A read returns the method's current value, and the new state is `AfterRead` of the old one. A hit makes no call and has the hit effects. A miss first reads, through their accessors, the memoized properties the method reads, then calls once and stores the result. Filled caches are kept and caches stay coherent. |
| `MemoizedRuntime.MemoizedHost.Write` | Macros/RelayMacros/Memoized/MemoizedDeclBuilder.swift:70-129 | A write updates the input, clears exactly the caches of the memos that read it and keeps the others. It appends their invalidation effects in order, and caches stay coherent. |
| `SourcesMemoizedDeclBuilder.InvalidationShape` | Sources/RelayMacros/Memoized/MemoizedDeclBuilder.swift:57-67 | When the instance is gone invalidation is a no-op. Otherwise it clears inside a mutation of `\._name`. Through the plain `@Observable` `withMutation` it never reaches a publisher. Through a publishable registrar it is that registrar's `withMutation` (`RegistrarEvents.MutationEvents`) with the clear ahead of `publish`: one bracket opened first and closed last. It is balanced whenever `publish` only sends. |
| `SourcesMemoizedDeclBuilder.Build` | Sources/RelayMacros/Memoized/MemoizedDeclBuilder.swift:21-43 | The result is the cache `_name` and then the accessor `name`, both of the return type under the resolved isolation, with the bridge following that isolation. |
| `SourcesMemoizedDeclBuilder.EmittedAccessorEffects` | Sources/RelayMacros/Memoized/MemoizedDeclBuilder.swift:28-66 | A hit always registers access on `\._name`. Invalidation clears the cache inside a mutation. It reaches a publisher exactly when the class's `withMutation` is the publishable registrar's. |
| `SourcesMemoizedMacro.Validate` | Sources/RelayMacros/Memoized/MemoizedMacro.swift:19-77 | Checks run in the order signature, context, explicit name or default name, and only the first failure is reported. On success the name is explicit or defaulted and non-empty. |
| `SourcesMemoizedMacro.SameDecisionAsMacros` | Sources/RelayMacros/Memoized/MemoizedMacro.swift:53-74 | The two generations accept the same methods with the same inputs. Only the single-word message differs. |
| `SourcesMemoizedMacro.PeerExpansion` | Sources/RelayMacros/Memoized/MemoizedMacro.swift:93-115 | Unparsable arguments throw. A failure yields no peers. Success yields that generation's two declarations. |
| `CamelCase.UpperCamelCaseFolds` | Macros/RelayMacros/Memoized/MemoizedMacro.swift:102-107 | Capitalising each word and joining them changes only letter case: folded, the result equals the words joined as written. |
| `CamelCase.JoinedChangesOnlyCase` | Macros/RelayMacros/Combine/Common/PropertyPublisherDeclBuilder.swift:51-52 | Joining in lowerCamelCase changes letter case only, and keeps the length. |
| `CamelCase.JoinedEmptyIffNoWords` | Macros/RelayMacros/Memoized/MemoizedMacro.swift:102-107 | The joined name is empty if and only if there are no words. |
| `CamelCase.JoinedStartsLower` | Macros/RelayMacros/Memoized/MemoizedMacro.swift:102-107 | A joined name never starts with a capital letter. |

## Left out

- Swift source text (string templates, formatting, doc comments) is not modelled. Emitted declarations are records, and emitted bodies are event sequences.
- `PropertiesParser` is not part of this model. Its output is the `seq<Property>` input, and its throwing is not modelled.
- The camel-case splitter is not part of this model. A method's and a type's names arrive already split into words. Only the joining is modelled (`CamelCase`).
- `AccessControlLevel.forSibling(of:)` and `inheritedBySibling()` are kept symbolic (`Syntax.AccessSpec`).
- `accessControlLevel(inheritedBy: .peer, maxAllowed: .public)` is modelled as the minimum of the two levels (`SourcesPublishablePropertyPublisherDeclBuilder.PeerAccess`).
- `GlobalActorIsolation.resolved` is modelled as `Syntax.ResolvedIsolation`: the preferred isolation, else the class's own. The isolation a method's own attributes declare is not modelled.
- `ParameterExtractor` is modelled by `Syntax.IsolationParameter` for the `isolation:` label. `@Memoized` arguments arrive already parsed, as an `Option` that is `None` when they do not parse.
- `contains(like:)`, `first(like:)` and `isLike` are modelled as attribute membership by constructor.
- `isStoredPublishable`, `isComputedPublishable` and `MemoizedMacro.extract` are not part of this model. They enter as the functions in `Syntax.Classifiers`.
- `applyingEnclosingIfConfig` is reduced to the `ifConfig` field copied onto each emitted record.
- The PublisherDeclBuilder templates of all three generations are fixed and carry no decision. They appear as one `PublisherMembers` entry.
- Concurrency mechanics (`assumeIsolated`, `unsafeBitCast`, `nonisolated(unsafe)`, `@Sendable`) are not modelled. Each is reduced to a tag saying which bridge or isolation attribute is emitted.
- The Combine and Observation runtimes are not part of this model. A subject send is an event, and the underlying registrar's calls are events.
- Observation tracking of a memoized method is abstracted as the set of stored inputs it reads, directly or through another memoized property, with its `onChange` firing on the first write to one of them.
- Invalidations triggered by one write run in declaration order. The order Observation would call the `onChange` handlers in is not modelled.
- Weak instances and deinit timing are modelled only as the `alive` flag: invalidation does nothing once the instance is gone.
- Floating-point values in the memoization tests are replaced by integers.
- The MainActor registrar protocol is not modelled separately. Its defaults perform the same sequences as the plain protocol's (Sources/Publishable/Registrars/PublishableObservationRegistrar.swift:79-117), so `PublishableObservationRegistrar.PublishableObject` stands for both.
- `defaultPropertyName` of Sources/RelayMacros/Memoized/MemoizedMacro.swift:79-84 is the same code as the one `MemoizedMacro.DefaultPropertyName` models.
- The enclosing class that Macros/RelayMacros/Memoized/MemoizedDeclBuilder.swift reads from the lexical context is the class `validate` accepted.
- Macros without bodies, plain protocol and type declarations under Sources/Relay, the plugin registration files and Package.swift are not modelled.
- `RelayedMacro.MemberExpansion` and `RelayedMacro.ExtensionExpansion` validate as written (`ValidateNodeAsWritten`). The intended check, `RelayedMacro.ValidateNode`, is kept beside them and related to the written one by two lemmas.
- `SourcesMemoizedDeclBuilder.InvalidationEvents`: what the publishable registrar's `publish` does for the key path `\._name` is the `published` parameter of `PublishingRegistrar`. Which registrar a class has is an input, not derived from its attributes.
- `MemoizedRuntime.MemoizedHost.Read`: a method reads other memoized properties before it computes its own value, in the order `nested` lists them. Reading them in the middle of the computation is not modelled separately, because the computation has no other effects.
- `ObservableDeclBuilder.Build`: states the count and the registrar field's position. That each overload appears exactly once is `ObservableDeclBuilder.BuildEmitsEachOverloadOnce`.

## Findings

| source | as written | input that shows it | evidently intended | confidence | as-written member | corrected member |
|---|---|---|---|---|---|---|
| Macros/RelayMacros/Combine/Relayed/RelayedMacro.swift:26-37 | The check looks for an attribute like `ObservableMacro.attribute`, which is spelled `@Observation` (Macros/RelayMacros/Combine/Common/ObservableMacro.swift:13). | A class marked `@Relayed @Observable` passes validation. | Reject a class carrying `@Observable`, as the diagnostic "generates its own Observable protocol conformance" and the fix-it "Remove @Observable macro" say. | medium, not executed | `RelayedMacro.ValidateNodeAsWritten`, `RelayedMacro.ObservableClassPassesAsWritten`, `RelayedMacro.MemberExpansion`, `RelayedMacro.ExtensionExpansion` | `RelayedMacro.ValidateNode`, `RelayedMacro.ValidationsAgreeWithoutAttributes` |
| Sources/Publishable/Registrars/PublishableObservationRegistrar.swift:50-60 | `publish` and `endModifications()` follow the `try` of the underlying `withMutation` without a `defer`. | A mutation closure that throws leaves the publisher's modification count one too high, and nothing is published. | Close the bracket in a `defer`, as the later generation does (Macros/RelayMacros/Publishable/ObservationRegistrarDeclBuilder.swift:129-152). | medium, not executed | `PublishableObservationRegistrar.PublishableObject.WithMutation`, `RegistrarEvents.UndeferredMutationLeaksOnThrow` | `PublishableObservationRegistrar.PublishableObject.DeferredWithMutation`, `RegistrarEvents.DeferredMutationBalanced` |
| Macros/RelayMacros/Combine/Relayed/RelayedMacro.swift:89-93 | `shouldAttach(to: declaration)` is asked about the class the macro is attached to. The visited member (`providingAttributesFor _`) is ignored. | In a `@Relayed` class with `var breed: String`, the class is not a standalone property, so no member is ever given `@RelayedProperty`. | Ask about the visited member, which Tests/RelayMacrosTests/Combine/Relayed/SubclassedRelayedMacroTests.swift:53-54 expects to be marked. | medium, not executed | `RelayedMacro.MemberAttributeExpansionAsWritten`, `RelayedMacro.AsWrittenNeverMarks` | `RelayedMacro.MemberAttributeExpansion`, `RelayedMacro.TrackedMemberMarkedOnce` |
