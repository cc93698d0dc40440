/** Package `context` (context/context.go, context/get.go,
    context/getparam.go): a helper store that lets steps hand data to later
    steps without global state. Its value map is written in place by `Set`;
    its parameter list is replaced by `SetParams`; every other member is a
    typed read that panics on error. Keys are any comparable Go values. */
module Context {
  import opened Wrappers
  import opened Strconv
  import opened Values
  import opened Store
  import opened Params

  class Context<K(==)> {
    var values: map<K, Value>
    var params: seq<seq<byte>>

    /** `New()`: no values, no parameters. */
    constructor New()
      ensures values == map[] && params == []
    {
      values := map[];
      params := [];
    }

    /** `Set(key, value)` overwrites in place; other keys keep their values
        and the parameters are untouched. */
    method Set(key: K, value: Value)
      modifies this`values
      ensures values == old(values)[key := value]
      ensures forall ds :: Get(key, ds) == Ok(value)
      ensures forall k, ds :: k != key ==> Get(k, ds) == Lookup(old(values), k, ds)
    {
      values := values[key := value];
    }

    /** `Get(key, defaultValue...)`. */
    function Get(key: K, defaults: seq<Value>): (r: Result<Value, Panic>)
      reads this
      ensures key in values ==> r == Ok(values[key])
      ensures key !in values ==> (r.Ok? <==> |defaults| == 1) && (r.Ok? ==> r.value == defaults[0])
    {
      Lookup(values, key, defaults)
    }

    /** The generated typed getters `GetString` ... `GetBool`. */
    function GetTyped(kind: Kind, key: K, defaults: seq<Value>): (r: Result<Value, Panic>)
      reads this
      requires forall i :: 0 <= i < |defaults| ==> HasKind(defaults[i], kind)
      ensures |defaults| > 1 ==> r == Err(TooManyDefaults(|defaults|))
      ensures r.Ok? <==> |defaults| <= 1 && (if key in values then HasKind(values[key], kind) else |defaults| == 1)
      ensures r.Ok? ==> r.value == if key in values then values[key] else defaults[0]
    {
      TypedLookup(values, kind, key, defaults)
    }

    /** `SetParams(params)` replaces the whole list; later reads see it. */
    method SetParams(p: seq<seq<byte>>)
      modifies this`params
      ensures params == p
      ensures forall i :: 0 <= i < |p| ==> GetParam(i) == Ok(p[i])
      ensures forall i :: i >= |p| ==> GetParam(i) == Err(ParamNotFound(i))
    {
      params := p;
    }

    function GetParam(i: int): (r: Result<seq<byte>, Panic>)
      reads this
      ensures r.Ok? <==> 0 <= i < |params|
      ensures r.Ok? ==> r.value == params[i]
      ensures i >= |params| ==> r == Err(ParamNotFound(i))
    {
      ParamAt(params, i)
    }

    function GetStringParam(i: int): (r: Result<string, Panic>)
      reads this
      ensures r.Ok? <==> 0 <= i < |params|
      ensures r.Ok? ==> r.value == BytesToString(params[i])
      ensures i >= |params| ==> r == Err(ParamNotFound(i))
    {
      StringParam(params, i)
    }

    function GetBoolParam(i: int): (r: Result<bool, Panic>)
      reads this
      ensures r.Ok? <==> 0 <= i < |params| && BytesToString(params[i]) in TrueWords + FalseWords
      ensures r.Ok? ==> (r.value <==> BytesToString(params[i]) in TrueWords)
      ensures i >= |params| ==> r == Err(ParamNotFound(i))
    {
      BoolParam(params, i)
    }

    /** `GetIntParam` parses at 32 bits before widening to `int`. */
    function GetIntParam(i: int): (r: Result<int, Panic>)
      reads this
      ensures r.Ok? <==> ParamFits(params, i, B32)
      ensures r.Ok? ==> r.value == ParamValue(params, i) && -0x8000_0000 <= r.value < 0x8000_0000
      ensures i >= |params| ==> r == Err(ParamNotFound(i))
    {
      IntParam(params, i, B32)
    }

    function GetInt8Param(i: int): (r: Result<int, Panic>)
      reads this
      ensures r.Ok? <==> ParamFits(params, i, B8)
      ensures r.Ok? ==> r.value == ParamValue(params, i) && -0x80 <= r.value < 0x80
      ensures i >= |params| ==> r == Err(ParamNotFound(i))
    {
      IntParam(params, i, B8)
    }

    function GetInt16Param(i: int): (r: Result<int, Panic>)
      reads this
      ensures r.Ok? <==> ParamFits(params, i, B16)
      ensures r.Ok? ==> r.value == ParamValue(params, i) && -0x8000 <= r.value < 0x8000
      ensures i >= |params| ==> r == Err(ParamNotFound(i))
    {
      IntParam(params, i, B16)
    }

    function GetInt32Param(i: int): (r: Result<int, Panic>)
      reads this
      ensures r.Ok? <==> ParamFits(params, i, B32)
      ensures r.Ok? ==> r.value == ParamValue(params, i) && -0x8000_0000 <= r.value < 0x8000_0000
      ensures i >= |params| ==> r == Err(ParamNotFound(i))
    {
      IntParam(params, i, B32)
    }

    function GetInt64Param(i: int): (r: Result<int, Panic>)
      reads this
      ensures r.Ok? <==> ParamFits(params, i, B64)
      ensures r.Ok? ==> r.value == ParamValue(params, i) && -0x8000_0000_0000_0000 <= r.value < 0x8000_0000_0000_0000
      ensures i >= |params| ==> r == Err(ParamNotFound(i))
    {
      IntParam(params, i, B64)
    }
  }

  /** A verified client mirroring the package's get and getparam tests: a
      value set under a key is read back by the typed getter, even when a
      default is given; a default stands in for an absent key, and an absent
      key without one panics; an int64 captured as text is read back. */
  method SetGetScenario(n: int)
    requires -0x8000_0000_0000_0000 <= n < 0x8000_0000_0000_0000
  {
    var ctx := new Context<string>.New();
    ctx.Set("test", Str("example text"));
    assert ctx.GetTyped(StringKind, "test", []) == Ok(Str("example text"));
    assert ctx.GetTyped(StringKind, "test", [Str("d")]) == Ok(Str("example text"));
    assert ctx.GetTyped(StringKind, "missing", [Str("default")]) == Ok(Str("default"));
    assert ctx.GetTyped(StringKind, "missing", []).Err?;
    assert ctx.GetTyped(StringKind, "test", [Str("a"), Str("b")]) == Err(TooManyDefaults(2));
    assert ctx.GetTyped(IntKind(GoInt), "test", []) == Err(TypeMismatch(IntKind(GoInt)));
    FormatIntAscii(n);
    ctx.SetParams([StringToBytes(FormatInt(n))]);
    IntParamRoundTrip(ctx.params, 0, n, B64);
    assert ctx.GetInt64Param(0) == Ok(n);
    assert ctx.GetInt64Param(1) == Err(ParamNotFound(1));
  }
}
