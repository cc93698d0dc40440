/** steps.go: the registration-time check of a step callback's signature.
    Reflection is replaced by a descriptor of the value passed in. */
module Steps {
  import opened Wrappers

  /** A Go type, summarised by the two interfaces the check asks about.
      For an interface type as target, `ConvertibleTo` is the same question
      as `Implements`. */
  datatype GoType = GoType(name: string, implementsContext: bool, implementsError: bool)

  /** The value handed to `AddStep`: a function with its parameter and
      result types, or a value of some other kind. */
  datatype Callback =
    | NonFunc(kind: string)
    | Func(ins: seq<GoType>, outs: seq<GoType>)

  /** The rules the check can report, in the order it tests them. */
  datatype ShapeError =
    | NotAFunction
    | WrongResultCount
    | FirstResultNotContext
    | SecondResultNotError
    | NoParameters
    | FirstParameterNotContext

  /** The messages of the errors, as written: the last check reuses the
      message of the fourth, so two different rules print the same text. */
  function Message(e: ShapeError): string {
    match e
    case NotAFunction => "the parameter should be a function"
    case WrongResultCount => "the function should return the context.Context and error"
    case FirstResultNotContext => "the returned value should implement the context.Context interface"
    case SecondResultNotError => "the returned value should implement the Error interface"
    case NoParameters => "the function should have Context as the first argument"
    case FirstParameterNotContext => "the returned value should implement the Error interface"
  }

  /** A wrong first parameter and a wrong second result cannot be told
      apart by their messages. */
  lemma MessagesCollide()
    ensures FirstParameterNotContext != SecondResultNotError
    ensures Message(FirstParameterNotContext) == Message(SecondResultNotError)
  {
  }

  /** The messages with the last one naming the parameter it checks. */
  function MessageIntended(e: ShapeError): string {
    if e == FirstParameterNotContext then "the first argument should implement the context.Context interface"
    else Message(e)
  }

  /* Comparing the message texts is costly for the solver, so the pairs
     are checked in three groups, by the first error. */
  lemma DistinctFromFunctionShape(e1: ShapeError, e2: ShapeError)
    requires e1 == NotAFunction || e1 == WrongResultCount
    ensures e1 != e2 ==> MessageIntended(e1) != MessageIntended(e2)
  {
  }

  lemma DistinctFromResults(e1: ShapeError, e2: ShapeError)
    requires e1 == FirstResultNotContext || e1 == SecondResultNotError
    ensures e1 != e2 ==> MessageIntended(e1) != MessageIntended(e2)
  {
  }

  lemma DistinctFromParameters(e1: ShapeError, e2: ShapeError)
    requires e1 == NoParameters || e1 == FirstParameterNotContext
    ensures e1 != e2 ==> MessageIntended(e1) != MessageIntended(e2)
  {
  }

  /** With the corrected text every rule has its own message. */
  lemma MessageIntendedDistinct(e1: ShapeError, e2: ShapeError)
    ensures e1 != e2 ==> MessageIntended(e1) != MessageIntended(e2)
  {
    match e1
    case NotAFunction => DistinctFromFunctionShape(e1, e2);
    case WrongResultCount => DistinctFromFunctionShape(e1, e2);
    case FirstResultNotContext => DistinctFromResults(e1, e2);
    case SecondResultNotError => DistinctFromResults(e1, e2);
    case NoParameters => DistinctFromParameters(e1, e2);
    case FirstParameterNotContext => DistinctFromParameters(e1, e2);
  }

  /** The accepted shape: `func(C, ...) (C', E)` where `C` converts to
      `context.Context`, `C'` implements it and `E` implements `error`. */
  predicate AcceptedShape(f: Callback) {
    f.Func? && |f.outs| == 2 && f.outs[0].implementsContext && f.outs[1].implementsError &&
    |f.ins| >= 1 && f.ins[0].implementsContext
  }

  predicate ResultsAccepted(outs: seq<GoType>) {
    |outs| == 2 && outs[0].implementsContext && outs[1].implementsError
  }

  /** Each rule on its own, apart from the order the checks run in. */
  predicate Fails(f: Callback, e: ShapeError) {
    match e
    case NotAFunction => f.NonFunc?
    case WrongResultCount => f.Func? && |f.outs| != 2
    case FirstResultNotContext => f.Func? && |f.outs| >= 1 && !f.outs[0].implementsContext
    case SecondResultNotError => f.Func? && |f.outs| >= 2 && !f.outs[1].implementsError
    case NoParameters => f.Func? && |f.ins| == 0
    case FirstParameterNotContext => f.Func? && |f.ins| >= 1 && !f.ins[0].implementsContext
  }

  /** The position of each rule in the sequence of checks. */
  function Rank(e: ShapeError): nat {
    match e
    case NotAFunction => 0
    case WrongResultCount => 1
    case FirstResultNotContext => 2
    case SecondResultNotError => 3
    case NoParameters => 4
    case FirstParameterNotContext => 5
  }

  /** `validateStepFunc`: the first failing check decides the error; nil
      (here `None`) when every check passes. */
  function ValidateStepFunc(f: Callback): (r: Option<ShapeError>)
    ensures r.None? <==> AcceptedShape(f)
    ensures r.None? ==> forall e :: !Fails(f, e)
    ensures r.Some? ==> Fails(f, r.value) && forall e :: Rank(e) < Rank(r.value) ==> !Fails(f, e)
    ensures r == Some(NotAFunction) <==> f.NonFunc?
    ensures f.Func? && !ResultsAccepted(f.outs) ==>
      r.Some? && r.value in {WrongResultCount, FirstResultNotContext, SecondResultNotError}
    ensures f.Func? && ResultsAccepted(f.outs) && !AcceptedShape(f) ==>
      r.Some? && r.value in {NoParameters, FirstParameterNotContext}
  {
    if f.NonFunc? then Some(NotAFunction)
    else if |f.outs| != 2 then Some(WrongResultCount)
    else if !f.outs[0].implementsContext then Some(FirstResultNotContext)
    else if !f.outs[1].implementsError then Some(SecondResultNotError)
    else if |f.ins| < 1 then Some(NoParameters)
    else if !f.ins[0].implementsContext then Some(FirstParameterNotContext)
    else None
  }

  /** The error is the first rule that fails: given the rules, the result
      is determined without looking at the code's order of tests. */
  lemma {:induction false} FirstFailingRule(f: Callback, e: ShapeError)
    requires Fails(f, e) && forall e' :: Rank(e') < Rank(e) ==> !Fails(f, e')
    ensures ValidateStepFunc(f) == Some(e)
  {
  }

  /** Results are checked before parameters: with wrong results, the
      parameters do not affect the error. */
  lemma {:induction false} ResultsCheckedFirst(ins1: seq<GoType>, ins2: seq<GoType>, outs: seq<GoType>)
    requires !ResultsAccepted(outs)
    ensures ValidateStepFunc(Func(ins1, outs)) == ValidateStepFunc(Func(ins2, outs))
  {
  }

  /** The parameter checks look at nothing but the first parameter. */
  lemma {:induction false} OnlyFirstParameterChecked(c: GoType, rest1: seq<GoType>, rest2: seq<GoType>, outs: seq<GoType>)
    ensures ValidateStepFunc(Func([c] + rest1, outs)) == ValidateStepFunc(Func([c] + rest2, outs))
  {
  }

  const ContextType := GoType("context.Context", true, false)
  const ErrorType := GoType("error", false, true)
  const IntType := GoType("int", false, false)

  /** The cases of steps_test.go: five rejected shapes, one accepted. */
  lemma ValidateStepFuncExamples()
    ensures ValidateStepFunc(Func([], [ContextType, ErrorType])) == Some(NoParameters)
    ensures ValidateStepFunc(Func([IntType], [ContextType, ErrorType])) == Some(FirstParameterNotContext)
    ensures ValidateStepFunc(Func([ContextType], [])) == Some(WrongResultCount)
    ensures ValidateStepFunc(Func([ContextType], [IntType, ErrorType])) == Some(FirstResultNotContext)
    ensures ValidateStepFunc(Func([ContextType], [ContextType, IntType])) == Some(SecondResultNotError)
    ensures ValidateStepFunc(Func([ContextType], [ContextType, ErrorType])) == None
  {
  }
}
