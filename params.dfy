/** The parameter accessors of both context types: index checks, then a
    conversion of the captured bytes. */
module Params {
  import opened Wrappers
  import opened Strconv
  import opened Values

  /** `GetParam(i)`: `i >= len(params)` panics with the "does not exist"
      message; a negative `i` passes that check and then panics in the
      slice index itself. */
  function ParamAt(params: seq<seq<byte>>, i: int): (r: Result<seq<byte>, Panic>)
    ensures r.Ok? <==> 0 <= i < |params|
    ensures r.Ok? ==> r.value == params[i]
    ensures i >= |params| ==> r == Err(ParamNotFound(i))
    ensures i < 0 ==> r == Err(IndexOutOfRange(i))
  {
    if i >= |params| then Err(ParamNotFound(i))
    else if i < 0 then Err(IndexOutOfRange(i))
    else Ok(params[i])
  }

  /** `GetStringParam(i)`: the captured bytes verbatim. */
  function StringParam(params: seq<seq<byte>>, i: int): (r: Result<string, Panic>)
    ensures r.Ok? <==> 0 <= i < |params|
    ensures r.Ok? ==> (|r.value| == |params[i]| &&
                       forall j :: 0 <= j < |params[i]| ==> r.value[j] as int == params[i][j] as int)
    ensures r.Err? ==> r.error == ParamAt(params, i).error
  {
    match ParamAt(params, i)
    case Ok(b) => Ok(BytesToString(b))
    case Err(e) => Err(e)
  }

  /** The captured text at index `i` is decimal and its value fits in `b`
      bits; then `ParamValue` is that value. */
  predicate ParamFits(params: seq<seq<byte>>, i: int, b: BitSize) {
    0 <= i < |params| && IsDecimal(BytesToString(params[i])) && InRange(IntValue(BytesToString(params[i])), b)
  }

  function ParamValue(params: seq<seq<byte>>, i: int): int
    requires 0 <= i < |params| && IsDecimal(BytesToString(params[i]))
  {
    IntValue(BytesToString(params[i]))
  }

  /** The `Get*Param` integer accessors: `ParseInt(string(params[i]), 10,
      bitSize)`, panicking with the strconv error. Index errors come first. */
  function IntParam(params: seq<seq<byte>>, i: int, b: BitSize): (r: Result<int, Panic>)
    ensures r.Ok? <==> (0 <= i < |params| &&
                        IsDecimal(BytesToString(params[i])) && InRange(IntValue(BytesToString(params[i])), b))
    ensures r.Ok? ==> r.value == IntValue(BytesToString(params[i])) && InRange(r.value, b)
    ensures !(0 <= i < |params|) ==> r.Err? && r.error == ParamAt(params, i).error
    ensures 0 <= i < |params| && r.Err? ==> r.error.NumberError?
    ensures (0 <= i < |params| && IsDecimal(BytesToString(params[i])) &&
             !InRange(IntValue(BytesToString(params[i])), b)) ==> r == Err(NumberError(ErrRange))
    ensures 0 <= i < |params| && !IsDecimal(BytesToString(params[i])) ==>
      r == Err(NumberError(NotDigitsError(Unsigned(BytesToString(params[i])), b)))
  {
    match ParamAt(params, i)
    case Err(e) => Err(e)
    case Ok(data) =>
      match ParseInt(BytesToString(data), b)
      case Ok(n) => Ok(n)
      case Err(e) => Err(NumberError(e))
  }

  /** `GetBoolParam(i)`: only `ParseBool`'s spellings convert. */
  function BoolParam(params: seq<seq<byte>>, i: int): (r: Result<bool, Panic>)
    ensures r.Ok? <==> (0 <= i < |params| &&
                        (BytesToString(params[i]) in TrueWords || BytesToString(params[i]) in FalseWords))
    ensures r.Ok? ==> (r.value <==> BytesToString(params[i]) in TrueWords)
    ensures !(0 <= i < |params|) ==> r.Err? && r.error == ParamAt(params, i).error
    ensures 0 <= i < |params| && r.Err? ==> r.error == NotABool
  {
    match ParamAt(params, i)
    case Err(e) => Err(e)
    case Ok(data) =>
      match ParseBool(BytesToString(data))
      case Ok(v) => Ok(v)
      case Err(_) => Err(NotABool)
  }

  /** Round trip: an in-range integer captured as its base-10 text is read
      back unchanged by the accessor of that width. */
  lemma IntParamRoundTrip(params: seq<seq<byte>>, i: nat, n: int, b: BitSize)
    requires i < |params| && InRange(n, b) && BytesToString(params[i]) == FormatInt(n)
    ensures IntParam(params, i, b) == Ok(n)
  {
    FormatParseRoundTrip(n, b);
  }

  /** Same round trip for the boolean accessor and `FormatBool`. */
  lemma BoolParamRoundTrip(params: seq<seq<byte>>, i: nat, v: bool)
    requires i < |params| && params[i] == StringToBytes(FormatBool(v))
    ensures BoolParam(params, i) == Ok(v)
  {
    ParseBoolRoundTrip(v);
  }
}
