/**
 * The earlier generation of `@Memoized`: the same checks in the same order, with
 * the name check written inside `validate`, and the peers of
 * `SourcesMemoizedDeclBuilder`. Its `defaultPropertyName` is the one
 * `MemoizedMacro.DefaultPropertyName` models.
 */
module SourcesMemoizedMacro {
  import opened Syntax
  import MemoizedMacro
  import SourcesMemoizedDeclBuilder

  const singleWordMessage := "Memoized macro requires a function name with at least two words or explicit property name"

  /**
   * `validate`: signature, then context, then an explicit name (non-empty, used
   * verbatim) or the default name (non-empty); only the first failure is
   * diagnosed.
   */
  function Validate(m: Member, scope: Option<ClassDecl>, preferredName: Option<string>): (r: Result<MemoizedMacro.Input, string>)
    ensures !MemoizedMacro.SignatureAccepted(m) ==> r == Err(MemoizedMacro.signatureMessage)
    ensures MemoizedMacro.SignatureAccepted(m) && !MemoizedMacro.ContextAccepted(scope) ==> r == Err(MemoizedMacro.contextMessage)
    ensures MemoizedMacro.SignatureAccepted(m) && MemoizedMacro.ContextAccepted(scope) ==>
      (preferredName.Some? ==> (r.Ok? <==> preferredName.value != []) && (r.Err? ==> r.error == MemoizedMacro.emptyNameMessage))
      && (preferredName.None? ==> (r.Ok? <==> |m.fn.words| > 1) && (r.Err? ==> r.error == singleWordMessage))
    ensures r.Ok? ==>
      r.value.declaration == m.fn && Some(r.value.scope) == scope
      && Some(r.value.trimmedReturnType) == m.fn.returnType
      && r.value.propertyName != []
      && r.value.propertyName == preferredName.GetOr(MemoizedMacro.DefaultName(m.fn))
  {
    if !MemoizedMacro.SignatureAccepted(m) then Err(MemoizedMacro.signatureMessage)
    else if !MemoizedMacro.ContextAccepted(scope) then Err(MemoizedMacro.contextMessage)
    else
      var returnType := MemoizedMacro.TrimmedReturnType(m.fn).value;
      match preferredName
      case Some(name) =>
        if name == [] then Err(MemoizedMacro.emptyNameMessage) else Ok(MemoizedMacro.Input(m.fn, scope.value, returnType, name))
      case None =>
        var name := MemoizedMacro.DefaultName(m.fn);
        MemoizedMacro.DefaultNameEmptyIffSingleWord(m.fn);
        if name == [] then Err(singleWordMessage) else Ok(MemoizedMacro.Input(m.fn, scope.value, returnType, name))
  }

  /** The two generations accept the same methods under the same names; only one message differs. */
  lemma SameDecisionAsMacros(m: Member, scope: Option<ClassDecl>, preferredName: Option<string>)
    ensures Validate(m, scope, preferredName).Ok? <==> MemoizedMacro.Validate(m, scope, preferredName).Ok?
    ensures Validate(m, scope, preferredName).Ok? ==> Validate(m, scope, preferredName) == MemoizedMacro.Validate(m, scope, preferredName)
    ensures Validate(m, scope, preferredName).Err? && MemoizedMacro.Validate(m, scope, preferredName).error != MemoizedMacro.singleWordMessage ==>
      Validate(m, scope, preferredName) == MemoizedMacro.Validate(m, scope, preferredName)
  {
  }

  datatype Expansion =
    | Thrown
    | Expanded(peers: seq<SourcesMemoizedDeclBuilder.MemoizedDecl>, diagnostic: Option<string>)

  /** The peer expansion: a throw for unparsable arguments, no peers after a diagnosed failure, else the builder's two. */
  function PeerExpansion(parameters: Option<MemoizedParameters>, m: Member, scope: Option<ClassDecl>): (r: Expansion)
    ensures r.Thrown? <==> parameters.None?
    ensures r.Expanded? ==> (r.diagnostic.Some? <==> Validate(m, scope, parameters.value.propertyName).Err?)
    ensures r.Expanded? ==> (r.peers == [] <==> r.diagnostic.Some?)
    ensures r.Expanded? && r.diagnostic.None? ==>
      var input := Validate(m, scope, parameters.value.propertyName).value;
      r.peers == SourcesMemoizedDeclBuilder.Build(m.fn, input.scope, input.trimmedReturnType, input.propertyName,
                                                  parameters.value.access, parameters.value.isolation)
  {
    match parameters
    case None => Thrown
    case Some(ps) =>
      match Validate(m, scope, ps.propertyName)
      case Err(message) => Expanded([], Some(message))
      case Ok(input) =>
        Expanded(SourcesMemoizedDeclBuilder.Build(input.declaration, input.scope, input.trimmedReturnType, input.propertyName,
                                                  ps.access, ps.isolation), None)
  }
}
