/** The older `Context` of package `gobdd` (context.go): string keys, no
    default values, no `GetBool`, and `GetIntParam` built on `Atoi`. */
module GobddContext {
  import opened Wrappers
  import opened Strconv
  import opened Values
  import opened Store
  import opened Params

  /** The kinds context.go has a typed getter for. */
  predicate HasGetter(kind: Kind) {
    !kind.BoolKind?
  }

  class Context {
    var values: map<string, Value>
    var params: seq<seq<byte>>

    /** `newContext()`: an empty value map and an empty parameter list. */
    constructor ()
      ensures values == map[] && params == []
    {
      values := map[];
      params := [];
    }

    /** `Set(key, value)` overwrites in place. */
    method Set(key: string, value: Value)
      modifies this`values
      ensures values == old(values)[key := value]
      ensures Get(key) == Ok(value)
      ensures forall k :: k != key ==> Get(k) == Lookup(old(values), k, [])
    {
      values := values[key := value];
    }

    /** `Get(key)`: panics on an absent key. */
    function Get(key: string): (r: Result<Value, Panic>)
      reads this
      ensures r.Ok? <==> key in values
      ensures r.Ok? ==> r.value == values[key]
    {
      Lookup(values, key, [])
    }

    /** `GetString`, `GetInt`, ..., `GetFloat64`: a missing key or a value of
        another dynamic type panics. */
    function GetTyped(kind: Kind, key: string): (r: Result<Value, Panic>)
      reads this
      requires HasGetter(kind)
      ensures r.Ok? <==> key in values && HasKind(values[key], kind)
      ensures r.Ok? ==> r.value == values[key]
      ensures r.Err? ==> r.error == if key in values then TypeMismatch(kind) else KeyNotFound
    {
      TypedLookup(values, kind, key, [])
    }

    /** `setParams(params)`. */
    method SetParams(p: seq<seq<byte>>)
      modifies this`params
      ensures params == p
    {
      params := p;
    }

    function GetParam(i: int): (r: Result<seq<byte>, Panic>)
      reads this
      ensures r.Ok? <==> 0 <= i < |params|
      ensures r.Ok? ==> r.value == params[i]
      ensures i >= |params| ==> r == Err(ParamNotFound(i))
    {
      ParamAt(params, i)
    }

    function GetStringParam(i: int): (r: Result<string, Panic>)
      reads this
      ensures r.Ok? <==> 0 <= i < |params|
      ensures r.Ok? ==> r.value == BytesToString(params[i])
      ensures i >= |params| ==> r == Err(ParamNotFound(i))
    {
      StringParam(params, i)
    }

    /** `GetIntParam` uses `strconv.Atoi`: the full 64-bit range. */
    function GetIntParam(i: int): (r: Result<int, Panic>)
      reads this
      ensures r.Ok? <==> ParamFits(params, i, B64)
      ensures r.Ok? ==> r.value == ParamValue(params, i) && -0x8000_0000_0000_0000 <= r.value < 0x8000_0000_0000_0000
      ensures i >= |params| ==> r == Err(ParamNotFound(i))
    {
      match ParamAt(params, i)
      case Err(e) => Err(e)
      case Ok(data) =>
        match Atoi(BytesToString(data))
        case Ok(n) => Ok(n)
        case Err(e) => Err(NumberError(e))
    }

    function GetInt8Param(i: int): (r: Result<int, Panic>)
      reads this
      ensures r.Ok? <==> ParamFits(params, i, B8)
      ensures r.Ok? ==> r.value == ParamValue(params, i) && -0x80 <= r.value < 0x80
      ensures i >= |params| ==> r == Err(ParamNotFound(i))
    {
      IntParam(params, i, B8)
    }

    function GetInt16Param(i: int): (r: Result<int, Panic>)
      reads this
      ensures r.Ok? <==> ParamFits(params, i, B16)
      ensures r.Ok? ==> r.value == ParamValue(params, i) && -0x8000 <= r.value < 0x8000
      ensures i >= |params| ==> r == Err(ParamNotFound(i))
    {
      IntParam(params, i, B16)
    }

    function GetInt32Param(i: int): (r: Result<int, Panic>)
      reads this
      ensures r.Ok? <==> ParamFits(params, i, B32)
      ensures r.Ok? ==> r.value == ParamValue(params, i) && -0x8000_0000 <= r.value < 0x8000_0000
      ensures i >= |params| ==> r == Err(ParamNotFound(i))
    {
      IntParam(params, i, B32)
    }

    /** `GetInt64Param` as written: it parses with bit size 32, so only the
        int32 range gets through although the result type is int64. */
    function GetInt64Param(i: int): (r: Result<int, Panic>)
      reads this
      ensures r.Ok? <==> ParamFits(params, i, B32)
      ensures r.Ok? ==> r.value == ParamValue(params, i) && -0x8000_0000 <= r.value < 0x8000_0000
      ensures i >= |params| ==> r == Err(ParamNotFound(i))
    {
      IntParam(params, i, B32)
    }

    /** `GetInt64Param` as evidently intended (and as package `context`
        has it): parse with bit size 64. */
    function GetInt64ParamIntended(i: int): (r: Result<int, Panic>)
      reads this
      ensures r.Ok? <==> ParamFits(params, i, B64)
      ensures r.Ok? ==> r.value == ParamValue(params, i) && -0x8000_0000_0000_0000 <= r.value < 0x8000_0000_0000_0000
      ensures i >= |params| ==> r == Err(ParamNotFound(i))
    {
      IntParam(params, i, B64)
    }
  }

  /** Every int64 outside the int32 range, captured as its decimal text, is
      rejected with a range error by `GetInt64Param` as written
      ("2147483648" is the smallest), while the intended accessor reads it
      back. */
  lemma GetInt64ParamRejectsWideValues(ctx: Context, n: int)
    requires 0x8000_0000 <= n < 0x8000_0000_0000_0000 || -0x8000_0000_0000_0000 <= n < -0x8000_0000
    requires IsByteString(FormatInt(n)) && ctx.params == [StringToBytes(FormatInt(n))]
    ensures ctx.GetInt64Param(0) == Err(NumberError(ErrRange))
    ensures ctx.GetInt64ParamIntended(0) == Ok(n)
  {
    FormatIntMeaning(n);
    IntParamRoundTrip(ctx.params, 0, n, B64);
  }

  /** The intended accessor reads back every int64. */
  lemma GetInt64ParamIntendedRoundTrip(ctx: Context, n: int)
    requires -0x8000_0000_0000_0000 <= n < 0x8000_0000_0000_0000
    requires IsByteString(FormatInt(n)) && ctx.params == [StringToBytes(FormatInt(n))]
    ensures ctx.GetInt64ParamIntended(0) == Ok(n)
  {
    IntParamRoundTrip(ctx.params, 0, n, B64);
  }
}
