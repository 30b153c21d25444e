/**
 * The abstract syntax the Relay macros inspect: attributes, stored and computed
 * properties, methods and classes. The macros receive these as syntax trees; here
 * they are plain records holding exactly the facts the generators consult.
 */
module Syntax {

  datatype Option<+T> = None | Some(value: T)
  {
    function GetOr(default: T): T
    {
      match this
      case Some(v) => v
      case None => default
    }
  }

  datatype Result<+T, +E> = Ok(value: T) | Err(error: E)

  /** Swift's access levels, from least to most visible. */
  datatype AccessLevel = Private | FilePrivate | Internal | Package | Public | Open

  function Rank(a: AccessLevel): nat
  {
    match a
    case Private => 0
    case FilePrivate => 1
    case Internal => 2
    case Package => 3
    case Public => 4
    case Open => 5
  }

  predicate AtMost(a: AccessLevel, b: AccessLevel)
  {
    Rank(a) <= Rank(b)
  }

  /** A global-actor isolation: `nonisolated`, or confinement to a named global actor. */
  datatype Isolation = Nonisolated | GlobalActor(actor: string)

  /** The arguments of a `@Memoized(...)` attribute once they have been parsed. */
  datatype MemoizedParameters = MemoizedParameters(
    access: Option<AccessLevel>,
    propertyName: Option<string>,
    isolation: Option<Isolation>)

  /**
   * Attributes, identified by their spelling. `contains(like:)` in the source compares
   * attribute names, which here is membership of the matching constructor.
   * `Observation` is the spelling `@Observation`, distinct from `@Observable`.
   * A `@Memoized` attribute carries its arguments, or None when they do not parse.
   */
  datatype Attribute =
    | ObservationIgnored
    | ObservationSuppressed
    | PublisherSuppressed
    | PublisherSupressed
    | PublisherIgnored
    | RelayedProperty
    | Relayed
    | Observable
    | Observation
    | Model
    | MainActor
    | Memoized(parameters: Option<MemoizedParameters>)
    | Other(name: string)

  /** A camel-case word is never empty, and an identifier has at least one word. */
  type Word = s: string | |s| > 0 witness "a"
  type Words = ws: seq<Word> | |ws| > 0 witness ["a"]

  datatype PropertyKind = Stored | Computed
  datatype Mutability = Immutable | Mutable

  /**
   * One property declaration. `isTypeScoped` is a `static` or `class` specifier,
   * `isOverride` an `override` specifier; `inferredType` is the declared type or the
   * one inferred from the initializer; `ifConfig` the enclosing `#if` condition.
   */
  datatype Property = Property(
    name: string,
    kind: PropertyKind,
    mutability: Mutability,
    isTypeScoped: bool,
    isOverride: bool,
    attributes: seq<Attribute>,
    inferredType: string,
    access: AccessLevel,
    availability: Option<string>,
    ifConfig: Option<string>)

  /**
   * One method declaration. `words` is its name split into camel-case words;
   * `hasEffects` stands for an `async` or `throws` specifier.
   */
  datatype FunctionDecl = FunctionDecl(
    name: string,
    words: Words,
    returnType: Option<string>,
    parameterCount: nat,
    hasEffects: bool,
    isTypeScoped: bool,
    attributes: seq<Attribute>,
    availability: Option<string>,
    ifConfig: Option<string>)

  datatype Member = PropertyMember(property: Property) | FunctionMember(fn: FunctionDecl) | OtherMember

  /**
   * A class declaration; `superclass` is the first inherited type, when there is
   * one, and `isolation` the global-actor isolation its own attributes declare.
   */
  datatype ClassDecl = ClassDecl(
    typeName: string,
    typeWords: Words,
    isFinal: bool,
    attributes: seq<Attribute>,
    access: AccessLevel,
    superclass: Option<string>,
    availability: Option<string>,
    isolation: Option<Isolation>,
    members: seq<Member>)

  /**
   * `GlobalActorIsolation.resolved`: an isolation requested through a macro
   * parameter takes priority over the one the declaration states.
   */
  function ResolvedIsolation(preferred: Option<Isolation>, declared: Option<Isolation>): Option<Isolation>
  {
    if preferred.Some? then preferred else declared
  }

  /** The declaration group a class-level macro is attached to. */
  datatype DeclGroup = ClassGroup(decl: ClassDecl) | OtherGroup

  /** A key path `\.name` of value type `valueType`. */
  datatype KeyPath = KeyPath(name: string, valueType: string)

  function KeyPathOf(p: Property): KeyPath
  {
    KeyPath(p.name, p.inferredType)
  }

  /** What `MemoizedMacro.extract` yields for a method it accepts. */
  datatype Extraction = Extraction(
    propertyName: string,
    returnType: string,
    preferredAccess: Option<AccessLevel>)

  /**
   * Classifiers the builders call but whose definitions are not part of this model:
   * `isStoredPublishable`, `isComputedPublishable` and `MemoizedMacro.extract`.
   */
  datatype Classifiers = Classifiers(
    isStoredPublishable: Property -> bool,
    isComputedPublishable: Property -> bool,
    extractMemoized: FunctionDecl -> Option<Extraction>)

  /**
   * The access modifier written on a synthesized declaration. `SiblingOf` is
   * `AccessControlLevel.forSibling(of:)` applied to a member of that level and
   * `InheritedBySibling` is `inheritedBySibling()`; both helpers are kept symbolic.
   */
  datatype AccessSpec =
    | Unstated
    | SiblingOf(of: AccessLevel)
    | InheritedBySibling(from: AccessLevel)
    | Exactly(level: AccessLevel)

  /** Order-preserving removal of every occurrence of `a`. */
  function Without(attrs: seq<Attribute>, a: Attribute): (r: seq<Attribute>)
    ensures forall b :: b in r <==> b in attrs && b != a
    ensures a !in r
  {
    if attrs == [] then []
    else (if attrs[0] == a then [] else [attrs[0]]) + Without(attrs[1..], a)
  }

  /** True when some attribute is `@Memoized`, whatever its arguments. */
  predicate HasMemoized(attrs: seq<Attribute>)
  {
    exists i :: 0 <= i < |attrs| && attrs[i].Memoized?
  }

  /** `attributes.first(like: "@Memoized")`. */
  function FirstMemoized(attrs: seq<Attribute>): (r: Option<Attribute>)
    ensures r.Some? <==> HasMemoized(attrs)
    ensures r.Some? ==> r.value.Memoized? && r.value in attrs
  {
    if attrs == [] then None
    else if attrs[0].Memoized? then Some(attrs[0])
    else
      var rest := FirstMemoized(attrs[1..]);
      assert HasMemoized(attrs) ==> HasMemoized(attrs[1..]) by {
        if HasMemoized(attrs) {
          var i :| 0 <= i < |attrs| && attrs[i].Memoized?;
          assert attrs[1..][i - 1] == attrs[i];
        }
      }
      rest
  }

  /**
   * A diagnostic thrown by a macro: its message and, when it offers one, the
   * attribute its fix-it removes. `InvalidArgument` is a macro argument that does
   * not parse.
   */
  datatype Diagnostic =
    | Diagnostic(message: string, fixItRemoves: Option<Attribute>)
    | InvalidArgument(argumentName: string)

  /** A macro argument: its label (`name`) and, for an isolation, the isolation it names. */
  datatype ArgumentValue = IsolationArgument(isolation: Isolation) | OtherArgument
  datatype Argument = Argument(name: string, value: ArgumentValue)

  /**
   * `ParameterExtractor.globalActorIsolation(withLabel: "isolation")`: the first
   * argument with that label, which must name an isolation; no such argument
   * means no preference.
   */
  function IsolationParameter(args: seq<Argument>): (r: Result<Option<Isolation>, Diagnostic>)
    ensures r.Ok? && r.value.Some? ==> Argument("isolation", IsolationArgument(r.value.value)) in args
    ensures (forall a :: a in args ==> a.name != "isolation") ==> r == Ok(None)
  {
    if args == [] then Ok(None)
    else if args[0].name == "isolation" then
      match args[0].value
      case IsolationArgument(i) => Ok(Some(i))
      case OtherArgument => Err(InvalidArgument("isolation"))
    else IsolationParameter(args[1..])
  }

  /** Arguments under any other label are never consulted for the isolation. */
  lemma {:induction false} IsolationReadOnlyFromLabel(args: seq<Argument>, others: seq<Argument>)
    requires forall a :: a in others ==> a.name != "isolation"
    ensures IsolationParameter(others + args) == IsolationParameter(args)
  {
    if others != [] {
      assert (others + args)[1..] == others[1..] + args;
      assert (others + args)[0] == others[0] && others[0] in others;
      assert forall a :: a in others[1..] ==> a in others;
      IsolationReadOnlyFromLabel(args, others[1..]);
      assert IsolationParameter(others + args) == IsolationParameter((others + args)[1..]);
    } else {
      assert others + args == args;
    }
  }
}
