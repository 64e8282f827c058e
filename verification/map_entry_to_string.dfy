/**
  `MapEntryToString`: the string form of an argument or of a map entry, in a
  null-tolerant and a null-rejecting variant. An argument that may be null is
  an `Option`; `show` stands for the argument's `toString`.
 */
module MapEntryToString {
  import opened Outcomes

  /** `toStringNull(arg)`: null for null, else the argument's string form. */
  function ToStringNull<V>(arg: Option<V>, show: V -> string): (r: Option<string>)
    ensures r.None? <==> arg.None?
    ensures r.Some? ==> r.value == show(arg.value)
  {
    match arg
    case None => None
    case Some(v) => Some(show(v))
  }

  /** `toString(arg)`: a null argument is rejected. */
  function ToString<V>(arg: Option<V>, show: V -> string): (r: Result<string>)
    ensures r.Err? <==> arg.None?
    ensures r.Err? ==> r.error == NullPointer
    ensures r.Ok? ==> r.value == show(arg.value)
  {
    match arg
    case None => Err(NullPointer)
    case Some(v) => Ok(show(v))
  }

  /** `args.get(key)`: a missing key and a null value both give null; a null map throws. */
  function Lookup<V>(args: Option<map<string, Option<V>>>, key: string): Result<Option<V>> {
    match args
    case None => Err(NullPointer)
    case Some(m) => Ok(if key in m then m[key] else None)
  }

  /** `toStringNull(args, key)`: null when the key is missing or maps to null. */
  function ToStringNullIn<V>(args: Option<map<string, Option<V>>>, key: string, show: V -> string): (r: Result<Option<string>>)
    ensures r.Err? <==> args.None?
    ensures r.Err? ==> r.error == NullPointer
    ensures r.Ok? ==> (r.value.None? <==> key !in args.value || args.value[key].None?)
    ensures r.Ok? && r.value.Some? ==> r.value.value == show(args.value[key].value)
  {
    match Lookup(args, key)
    case Err(e) => Err(e)
    case Ok(value) => if value.None? then Ok(None) else Ok(ToStringNull(value, show))
  }

  /** `toString(args, key)`: a missing key or a null value is rejected. */
  function ToStringIn<V>(args: Option<map<string, Option<V>>>, key: string, show: V -> string): (r: Result<string>)
    ensures r.Err? <==> args.None? || key !in args.value || args.value[key].None?
    ensures r.Err? ==> r.error == NullPointer
    ensures r.Ok? ==> r.value == show(args.value[key].value)
  {
    match Lookup(args, key)
    case Err(e) => Err(e)
    case Ok(value) => ToString(value, show)
  }

  /**
    The two map forms agree wherever the null-rejecting one succeeds, and the
    null-tolerant one gives null exactly where the other rejects a present map.
   */
  lemma MapFormsAgree<V>(m: map<string, Option<V>>, key: string, show: V -> string)
    ensures ToStringIn(Some(m), key, show).Ok? ==>
      ToStringNullIn(Some(m), key, show) == Ok(Some(ToStringIn(Some(m), key, show).value))
    ensures ToStringIn(Some(m), key, show).Err? <==> ToStringNullIn(Some(m), key, show) == Ok(None)
  {
  }

  /** The object forms agree the same way. */
  lemma ObjectFormsAgree<V>(arg: Option<V>, show: V -> string)
    ensures ToString(arg, show).Ok? ==> ToStringNull(arg, show) == Some(ToString(arg, show).value)
    ensures ToString(arg, show).Err? <==> ToStringNull(arg, show).None?
  {
  }
}
