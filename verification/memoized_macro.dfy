/**
 * `@Memoized`, the peer macro attached to a method: it validates the method, its
 * enclosing class and the property name, and on success adds the cache and the
 * accessor `MemoizedDeclBuilder` builds. A failed validation is diagnosed once and
 * adds nothing; arguments that do not parse make the expansion throw.
 */
module MemoizedMacro {
  import opened Syntax
  import CamelCase
  import MemoizedDeclBuilder

  const signatureMessage := "Memoized macro can only be applied to non-void, non-async, non-throwing methods that don't take any arguments"
  const contextMessage := "Memoized macro can only be applied to methods declared in body (not extension) of @Observable or @Model classes"
  const emptyNameMessage := "Memoized macro requires a non-empty property name"
  const singleWordMessage := "Memoized macro requires a method name with at least two words or explicit property name"

  /**
   * A validated method: the method, its enclosing class (which the builder reads
   * from the lexical context), its return type and the property name.
   */
  datatype Input = Input(declaration: FunctionDecl, scope: ClassDecl, trimmedReturnType: string, propertyName: string)

  /** `trimmedReturnType(of:)`: the type of the return clause, if there is one. */
  function TrimmedReturnType(f: FunctionDecl): Option<string>
  {
    f.returnType
  }

  /** A method with a return type, no parameters, no `async`/`throws` and no `static`/`class`. */
  predicate SignatureAccepted(m: Member)
  {
    m.FunctionMember? && TrimmedReturnType(m.fn).Some? && m.fn.parameterCount == 0
    && !m.fn.hasEffects && !m.fn.isTypeScoped
  }

  /**
   * The innermost lexical context (`None` when it is not a class, such as an
   * extension) is a class marked `@Observable` or `@Model`.
   */
  predicate ContextAccepted(scope: Option<ClassDecl>)
  {
    scope.Some? && (Observable in scope.value.attributes || Model in scope.value.attributes)
  }

  /** The method name's camel-case words without the first, joined in lower camel case. */
  function DefaultName(f: FunctionDecl): string
  {
    CamelCase.LowerCamelCase(f.words[1..])
  }

  /** `defaultPropertyName(for:)`: split the name, drop the first word, join the rest. */
  method DefaultPropertyName(f: FunctionDecl) returns (name: string)
    ensures name == DefaultName(f)
    ensures name == [] <==> |f.words| == 1
  {
    var notation: seq<Word> := f.words;
    notation := notation[1..];
    name := CamelCase.LowerCamelCase(notation);
    CamelCase.JoinedEmptyIffNoWords(notation);
  }

  /** The default name is empty exactly for a single-word method name, and otherwise starts in lower case. */
  lemma DefaultNameEmptyIffSingleWord(f: FunctionDecl)
    ensures DefaultName(f) == [] <==> |f.words| == 1
    ensures |f.words| > 1 ==> !('A' <= DefaultName(f)[0] <= 'Z')
  {
    CamelCase.JoinedEmptyIffNoWords(f.words[1..]);
    if |f.words| > 1 {
      CamelCase.JoinedStartsLower(f.words[1..]);
    }
  }

  /** `calculateArea` yields `area`. */
  lemma CalculateAreaDefaultsToArea(f: FunctionDecl)
    requires f.words == ["calculate", "Area"]
    ensures DefaultName(f) == "area"
  {
    assert f.words[1..] == ["Area"];
    assert CamelCase.LowerCamelCase(["Area"]) == CamelCase.Folded("Area") + [];
  }

  /**
   * `validatePropertyName`: an explicit name must be non-empty and is used
   * verbatim; otherwise the default name is used, and it must be non-empty.
   */
  function ValidatePropertyName(f: FunctionDecl, preferred: Option<string>): (r: Result<string, string>)
    ensures r.Ok? ==> r.value != []
    ensures preferred.Some? ==> (r.Ok? <==> preferred.value != []) && (r.Ok? ==> r.value == preferred.value)
    ensures preferred.Some? && r.Err? ==> r.error == emptyNameMessage
    ensures preferred.None? ==> (r.Ok? <==> |f.words| > 1) && (r.Ok? ==> r.value == DefaultName(f))
    ensures preferred.None? && r.Err? ==> r.error == singleWordMessage
  {
    DefaultNameEmptyIffSingleWord(f);
    match preferred
    case Some(name) => if name == [] then Err(emptyNameMessage) else Ok(name)
    case None => if DefaultName(f) == [] then Err(singleWordMessage) else Ok(DefaultName(f))
  }

  /**
   * `validate`: the signature, then the context, then the name; the first check
   * that fails is the one diagnosed (the `Err` message), and the later ones are
   * not reached.
   */
  function Validate(m: Member, scope: Option<ClassDecl>, preferredName: Option<string>): (r: Result<Input, string>)
    ensures !SignatureAccepted(m) ==> r == Err(signatureMessage)
    ensures SignatureAccepted(m) && !ContextAccepted(scope) ==> r == Err(contextMessage)
    ensures SignatureAccepted(m) && ContextAccepted(scope) ==>
      (r.Ok? <==> ValidatePropertyName(m.fn, preferredName).Ok?)
      && (r.Err? ==> r.error == ValidatePropertyName(m.fn, preferredName).error)
    ensures r.Ok? ==>
      r.value.declaration == m.fn && Some(r.value.scope) == scope
      && Some(r.value.trimmedReturnType) == m.fn.returnType
      && r.value.propertyName != []
      && r.value.propertyName == preferredName.GetOr(DefaultName(m.fn))
  {
    if !SignatureAccepted(m) then Err(signatureMessage)
    else if !ContextAccepted(scope) then Err(contextMessage)
    else
      match ValidatePropertyName(m.fn, preferredName)
      case Err(message) => Err(message)
      case Ok(name) => Ok(Input(m.fn, scope.value, TrimmedReturnType(m.fn).value, name))
  }

  /** The result of the peer expansion: it throws, or it returns peers, having diagnosed at most one error. */
  datatype Expansion =
    | Thrown
    | Expanded(peers: seq<MemoizedDeclBuilder.MemoizedDecl>, diagnostic: Option<string>)

  /**
   * The peer expansion. `parameters` are the attribute's arguments, `None` when
   * they do not parse (`Parameters(from:)` throws). A validation failure returns
   * no peers; a success returns the builder's two declarations.
   */
  function PeerExpansion(parameters: Option<MemoizedParameters>, m: Member, scope: Option<ClassDecl>): (r: Expansion)
    ensures r.Thrown? <==> parameters.None?
    ensures r.Expanded? ==> (r.diagnostic.Some? <==> Validate(m, scope, parameters.value.propertyName).Err?)
    ensures r.Expanded? ==> (r.peers == [] <==> r.diagnostic.Some?)
    ensures r.Expanded? && r.diagnostic.Some? ==> r.diagnostic.value == Validate(m, scope, parameters.value.propertyName).error
    ensures r.Expanded? && r.diagnostic.None? ==>
      var input := Validate(m, scope, parameters.value.propertyName).value;
      r.peers == MemoizedDeclBuilder.Build(m.fn, input.scope, input.trimmedReturnType, input.propertyName,
                                           parameters.value.access, parameters.value.isolation)
  {
    match parameters
    case None => Thrown
    case Some(ps) =>
      match Validate(m, scope, ps.propertyName)
      case Err(message) => Expanded([], Some(message))
      case Ok(input) =>
        Expanded(MemoizedDeclBuilder.Build(input.declaration, input.scope, input.trimmedReturnType, input.propertyName,
                                           ps.access, ps.isolation), None)
  }
}
