/** The value-map lookups shared by both context types: `Get` with an
    optional default and the generated typed getters. */
module Store {
  import opened Wrappers
  import opened Values

  /** `Get(key, defaultValue...)`: a stored value wins over any defaults; an
      absent key falls back to exactly one default and panics otherwise. */
  function Lookup<K(==)>(values: map<K, Value>, key: K, defaults: seq<Value>): (r: Result<Value, Panic>)
    ensures key in values ==> r == Ok(values[key])
    ensures key !in values ==> (r.Ok? <==> |defaults| == 1)
    ensures key !in values && r.Ok? ==> r.value == defaults[0]
    ensures r.Err? ==> r.error == KeyNotFound
  {
    if key !in values then
      if |defaults| == 1 then Ok(defaults[0]) else Err(KeyNotFound)
    else
      Ok(values[key])
  }

  /** The typed getters (`GetString`, `GetInt`, ..., `GetBool`), one
      function for the nine generated copies: more than one default panics
      even when the key is present; an absent key falls back to the single
      default; a present value must have exactly the requested type. Go's
      typing makes every default a value of that type. */
  function TypedLookup<K(==)>(values: map<K, Value>, kind: Kind, key: K, defaults: seq<Value>): (r: Result<Value, Panic>)
    requires forall i :: 0 <= i < |defaults| ==> HasKind(defaults[i], kind)
    ensures r.Ok? ==> HasKind(r.value, kind)
    ensures |defaults| > 1 ==> r == Err(TooManyDefaults(|defaults|))
    ensures r.Ok? <==> |defaults| <= 1 && (if key in values then HasKind(values[key], kind) else |defaults| == 1)
    ensures r.Ok? ==> r.value == if key in values then values[key] else defaults[0]
    ensures r.Err? && |defaults| <= 1 ==> r.error == if key in values then TypeMismatch(kind) else KeyNotFound
  {
    if |defaults| > 1 then Err(TooManyDefaults(|defaults|))
    else if key !in values then
      if |defaults| == 1 then Ok(defaults[0]) else Err(KeyNotFound)
    else if HasKind(values[key], kind) then Ok(values[key])
    else Err(TypeMismatch(kind))
  }

  /** Whenever a typed getter succeeds, the untyped `Get` with the same
      arguments returns the same value. */
  lemma TypedLookupRefinesLookup<K>(values: map<K, Value>, kind: Kind, key: K, defaults: seq<Value>)
    requires forall i :: 0 <= i < |defaults| ==> HasKind(defaults[i], kind)
    ensures TypedLookup(values, kind, key, defaults).Ok? ==>
      Lookup(values, key, defaults) == TypedLookup(values, kind, key, defaults)
  {
  }

  /** Storing under a key makes both getters return the new value and
      leaves every other key's lookups as they were. */
  lemma LookupAfterStore<K>(values: map<K, Value>, key: K, v: Value, other: K, defaults: seq<Value>)
    ensures Lookup(values[key := v], key, defaults) == Ok(v)
    ensures other != key ==> Lookup(values[key := v], other, defaults) == Lookup(values, other, defaults)
  {
  }
}
