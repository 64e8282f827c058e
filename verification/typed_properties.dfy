/**
  `TypedProperties`: typed getters over a plain `Properties`, with no context
  prefix and no placeholder substitution, and with a configurable set of list
  separator characters.
 */
module TypedProps {
  import opened Outcomes
  import opened Strings
  import JavaProperties
  import opened Coercion
  import opened Namespace
  import ContextProps

  /** `DEFAULT_LIST_SEPARATOR_CHARS` */
  const DefaultListSeparatorChars: string := " ,;"

  datatype TypedProperties = TypedProperties(properties: JavaProperties.Properties, listSepChars: string)

  /** `new TypedProperties(properties)`: lists split on `" ,;"`. */
  function New(p: JavaProperties.Properties): (tp: TypedProperties)
    ensures forall key :: GetProperty(tp, key) == JavaProperties.GetProperty(p, key)
    ensures forall key :: GetListProperty(tp, key) == match JavaProperties.GetProperty(p, key)
      case None => []
      case Some(v) => Split(v, " ,;")
  {
    TypedProperties(p, DefaultListSeparatorChars)
  }

  /** `new TypedProperties(properties, listSepChars)`: lists split on the given characters. */
  function NewWithSeparators(p: JavaProperties.Properties, seps: string): (tp: TypedProperties)
    ensures forall key :: GetProperty(tp, key) == JavaProperties.GetProperty(p, key)
    ensures forall key :: GetListProperty(tp, key) == match JavaProperties.GetProperty(p, key)
      case None => []
      case Some(v) => Split(v, seps)
  {
    TypedProperties(p, seps)
  }

  /**
    `new TypedProperties(map, listSepChars)` as written: the loop puts each
    entry's `key=value` text back into the argument map, which shadows the
    field, so the new view is left with an empty table.
   */
  function FromMapAsWritten<V>(m: map<string, V>, seps: string): (tp: TypedProperties)
    ensures tp.listSepChars == seps
    ensures forall key :: GetProperty(tp, key).None?
  {
    TypedProperties(JavaProperties.Empty(), seps)
  }

  /**
    `new TypedProperties(map, listSepChars)` as evidently intended: every
    entry of the map is readable under its key as the value's string form.
   */
  function FromMap<V>(m: map<string, V>, show: V -> string, seps: string): (tp: TypedProperties)
    ensures tp.listSepChars == seps
    ensures forall key :: GetProperty(tp, key) == if key in m then Some(show(m[key])) else None
  {
    TypedProperties(JavaProperties.Properties(map k | k in m :: show(m[k]), None), seps)
  }

  /** A map with an entry reads that entry through the intended view and nothing through the written one. */
  lemma MapConstructorLosesEntries<V>(key: string, value: V, show: V -> string)
    ensures GetProperty(FromMapAsWritten(map[key := value], DefaultListSeparatorChars), key) == None
    ensures GetProperty(FromMap(map[key := value], show, DefaultListSeparatorChars), key) == Some(show(value))
  {
  }

  /** `getProperty(key)`: a plain first-hit lookup along the chain, key used as given. */
  function GetProperty(tp: TypedProperties, key: string): (r: Option<string>)
    ensures r == JavaProperties.FirstHit(JavaProperties.Layers(tp.properties), key)
  {
    JavaProperties.LookupIsFirstHit(tp.properties, key);
    JavaProperties.GetProperty(tp.properties, key)
  }

  /** `getProperty(key, defaultValue)`: the entry, else the default, unchanged. */
  function GetPropertyOr(tp: TypedProperties, key: string, d: Option<string>): (r: Option<string>)
    ensures GetProperty(tp, key).None? ==> r == d
    ensures GetProperty(tp, key).Some? ==> r == GetProperty(tp, key)
  {
    match JavaProperties.GetProperty(tp.properties, key)
    case None => d
    case Some(v) => Some(v)
  }

  /**
    The same chain read through a ContextProperties without replacements gives
    at `key` what TypedProperties gives at the prefixed key.
   */
  lemma TypedReadsWhatContextReadsPrefixed(p: JavaProperties.Properties, seps: string, context: string, key: string)
    ensures GetProperty(TypedProperties(p, seps), KeyWithContext(context, key))
         == ContextProps.GetProperty(ContextProps.ContextProperties(context, p, map[]), key)
  {
  }

  /** `getBooleanProperty(key)`: null when absent, else case-insensitive "true". */
  function GetBooleanProperty(tp: TypedProperties, key: string): (r: Option<bool>)
    ensures r.None? <==> GetProperty(tp, key).None?
    ensures r.Some? ==> (r.value <==> Lowered(GetProperty(tp, key).value) == "true")
  {
    match GetProperty(tp, key)
    case None => None
    case Some(v) => Some(ParseBoolean(v))
  }

  /**
    `getBooleanProperty(key, defaultValue)`: parses `String.valueOf(default)`
    when absent, so it never throws; any value but "true" in some letter case
    is false.
   */
  function GetBooleanPropertyOr(tp: TypedProperties, key: string, d: Option<bool>): (r: bool)
    ensures GetProperty(tp, key).None? ==> (r <==> d == Some(true))
    ensures GetProperty(tp, key).Some? ==> (r <==> Lowered(GetProperty(tp, key).value) == "true")
  {
    ParseBooleanValueOf(d);
    ParseBoolean(GetPropertyOr(tp, key, Some(ValueOf(d, BoolToString))).value)
  }

  /** `getNumberProperty(key)` with `Double.parseDouble` as `parseDouble`. */
  function GetNumberProperty<N>(tp: TypedProperties, key: string, parseDouble: string -> Result<N>): (r: Result<Option<N>>)
    ensures GetProperty(tp, key).None? ==> r == Ok(None)
    ensures GetProperty(tp, key).Some? ==> r == Lift(parseDouble(GetProperty(tp, key).value))
  {
    match GetProperty(tp, key)
    case None => Ok(None)
    case Some(v) => Lift(parseDouble(v))
  }

  /** `getNumberProperty(key, defaultValue)`: re-parses `String.valueOf(default)` when absent. */
  function GetNumberPropertyOr<N>(tp: TypedProperties, key: string, d: Option<N>, show: N -> string,
                                  parseDouble: string -> Result<N>): (r: Result<N>)
    ensures GetProperty(tp, key).None? ==> r == parseDouble(ValueOf(d, show))
    ensures GetProperty(tp, key).Some? ==> r == parseDouble(GetProperty(tp, key).value)
  {
    parseDouble(GetPropertyOr(tp, key, Some(ValueOf(d, show))).value)
  }

  /** `getCharProperty(key)`: the first character; an empty value throws. */
  function GetCharProperty(tp: TypedProperties, key: string): (r: Result<Option<char>>)
    ensures GetProperty(tp, key).None? ==> r == Ok(None)
    ensures GetProperty(tp, key) == Some([]) ==> r == Err(IndexOutOfBounds)
    ensures GetProperty(tp, key).Some? && GetProperty(tp, key).value != [] ==>
      r == Ok(Some(GetProperty(tp, key).value[0]))
  {
    match GetProperty(tp, key)
    case None => Ok(None)
    case Some(v) => Lift(CharAt0(v))
  }

  /**
    `getCharProperty(key, defaultValue)`: the default when absent. The conditional
    expression has type `char`, so a `null` default is unboxed and throws.
   */
  function GetCharPropertyOr(tp: TypedProperties, key: string, d: Option<char>): (r: Result<char>)
    ensures GetProperty(tp, key).None? && d.Some? ==> r == Ok(d.value)
    ensures GetProperty(tp, key).None? && d.None? ==> r == Err(NullPointer)
    ensures GetProperty(tp, key) == Some([]) ==> r == Err(IndexOutOfBounds)
    ensures GetProperty(tp, key).Some? && GetProperty(tp, key).value != [] ==>
      r == Ok(GetProperty(tp, key).value[0])
  {
    match GetProperty(tp, key)
    case None => if d.Some? then Ok(d.value) else Err(NullPointer)
    case Some(v) => CharAt0(v)
  }

  /** `getCharsetProperty(key)` with `Charset.forName` as `forName`. */
  function GetCharsetProperty<C>(tp: TypedProperties, key: string, forName: string -> Result<C>): (r: Result<Option<C>>)
    ensures GetProperty(tp, key).None? ==> r == Ok(None)
    ensures GetProperty(tp, key).Some? ==> r == Lift(forName(GetProperty(tp, key).value))
  {
    match GetProperty(tp, key)
    case None => Ok(None)
    case Some(v) => Lift(forName(v))
  }

  /** `getCharsetProperty(key, defaultValue)`: re-parses `String.valueOf(default)` when absent. */
  function GetCharsetPropertyOr<C>(tp: TypedProperties, key: string, d: Option<C>, show: C -> string,
                                   forName: string -> Result<C>): (r: Result<C>)
    ensures GetProperty(tp, key).None? ==> r == forName(ValueOf(d, show))
    ensures GetProperty(tp, key).Some? ==> r == forName(GetProperty(tp, key).value)
  {
    forName(GetPropertyOr(tp, key, Some(ValueOf(d, show))).value)
  }

  /**
    `new URI(text).toURL()`: a URI syntax error, or the conversion's error
    (`IllegalArgument` for a relative URI, `MalformedUrl` otherwise).
   */
  function UriToUrl<I, U>(text: string, newUri: string -> Result<I>, toUrl: I -> Result<U>): (r: Result<U>)
    ensures newUri(text).Err? ==> r == Err(newUri(text).error)
    ensures newUri(text).Ok? ==> r == toUrl(newUri(text).value)
  {
    match newUri(text)
    case Err(e) => Err(e)
    case Ok(uri) => toUrl(uri)
  }

  /** `getURLProperty(key)`: the value parsed as a URI, then converted to a URL. */
  function GetURLProperty<I, U>(tp: TypedProperties, key: string, newUri: string -> Result<I>,
                                toUrl: I -> Result<U>): (r: Result<Option<U>>)
    ensures GetProperty(tp, key).None? ==> r == Ok(None)
    ensures GetProperty(tp, key).Some? ==> r == Lift(UriToUrl(GetProperty(tp, key).value, newUri, toUrl))
  {
    match GetProperty(tp, key)
    case None => Ok(None)
    case Some(v) => Lift(UriToUrl(v, newUri, toUrl))
  }

  /** `getURLProperty(key, defaultValue)`: the default object, unparsed, when absent. */
  function GetURLPropertyOr<I, U>(tp: TypedProperties, key: string, d: Option<U>, newUri: string -> Result<I>,
                                  toUrl: I -> Result<U>): (r: Result<Option<U>>)
    ensures GetProperty(tp, key).None? ==> r == Ok(d)
    ensures GetProperty(tp, key).Some? ==> r == Lift(UriToUrl(GetProperty(tp, key).value, newUri, toUrl))
  {
    match GetProperty(tp, key)
    case None => Ok(d)
    case Some(v) => Lift(UriToUrl(v, newUri, toUrl))
  }

  /** `getURIProperty(key)` with `new URI(..)` as `newUri`. */
  function GetURIProperty<U>(tp: TypedProperties, key: string, newUri: string -> Result<U>): (r: Result<Option<U>>)
    ensures GetProperty(tp, key).None? ==> r == Ok(None)
    ensures GetProperty(tp, key).Some? ==> r == Lift(newUri(GetProperty(tp, key).value))
  {
    match GetProperty(tp, key)
    case None => Ok(None)
    case Some(v) => Lift(newUri(v))
  }

  /** `getURIProperty(key, defaultValue)`: re-parses `String.valueOf(default)` when absent. */
  function GetURIPropertyOr<U>(tp: TypedProperties, key: string, d: Option<U>, show: U -> string,
                               newUri: string -> Result<U>): (r: Result<U>)
    ensures GetProperty(tp, key).None? ==> r == newUri(ValueOf(d, show))
    ensures GetProperty(tp, key).Some? ==> r == newUri(GetProperty(tp, key).value)
  {
    newUri(GetPropertyOr(tp, key, Some(ValueOf(d, show))).value)
  }

  /** `getFileProperty(key)`: never fails. */
  function GetFileProperty(tp: TypedProperties, key: string): (r: Option<File>)
    ensures r.None? <==> GetProperty(tp, key).None?
    ensures r.Some? ==> r.value.path == GetProperty(tp, key).value
  {
    match GetProperty(tp, key)
    case None => None
    case Some(v) => Some(File(v))
  }

  /** `getFileProperty(key, defaultValue)`: the default object when absent. */
  function GetFilePropertyOr(tp: TypedProperties, key: string, d: Option<File>): (r: Option<File>)
    ensures GetProperty(tp, key).None? ==> r == d
    ensures GetProperty(tp, key).Some? ==> r == Some(File(GetProperty(tp, key).value))
  {
    match GetProperty(tp, key)
    case None => d
    case Some(v) => Some(File(v))
  }

  /**
    `getTypedProperty(key, format, defaultValue)`: the format parses the
    value, or `String.valueOf(default)` when absent; never null.
   */
  function GetTypedPropertyOr<T>(tp: TypedProperties, key: string, parse: string -> Result<T>,
                                 d: Option<T>, show: T -> string): (r: Result<Option<T>>)
    ensures r.Ok? ==> r.value.Some?
    ensures GetProperty(tp, key).None? ==> r == Lift(parse(ValueOf(d, show)))
    ensures GetProperty(tp, key).Some? ==> r == Lift(parse(GetProperty(tp, key).value))
  {
    var property := GetPropertyOr(tp, key, Some(ValueOf(d, show)));
    if property.None? then Ok(None) else Lift(parse(property.value))
  }

  /**
    `getTypedProperty(key, format)`: delegates with a null default, so an
    absent key hands the text "null" to the format and the null branch is
    never taken.
   */
  function GetTypedProperty<T>(tp: TypedProperties, key: string, parse: string -> Result<T>): (r: Result<Option<T>>)
    ensures r.Ok? ==> r.value.Some?
    ensures GetProperty(tp, key).None? ==> r == Lift(parse("null"))
    ensures GetProperty(tp, key).Some? ==> r == Lift(parse(GetProperty(tp, key).value))
  {
    // the null default is never shown, so any `show` serves
    GetTypedPropertyOr(tp, key, parse, None, (x: T) => "")
  }

  /** `getTypedListProperty(key, format, separatorChars)`: empty when absent. */
  function GetTypedListPropertyWith<T>(tp: TypedProperties, key: string, parse: string -> Result<T>,
                                       seps: string): (r: Result<seq<T>>)
    ensures GetProperty(tp, key).None? ==> r == Ok([])
    ensures GetProperty(tp, key).Some? ==> r == ParseAll(Split(GetProperty(tp, key).value, seps), parse)
  {
    match GetProperty(tp, key)
    case None => Ok([])
    case Some(v) => ParseAll(Split(v, seps), parse)
  }

  /** `getTypedListProperty(key, format)`: splits on `listSepChars`. */
  function GetTypedListProperty<T>(tp: TypedProperties, key: string, parse: string -> Result<T>): (r: Result<seq<T>>)
    ensures GetProperty(tp, key).None? ==> r == Ok([])
    ensures GetProperty(tp, key).Some? ==>
      r == ParseAll(Split(GetProperty(tp, key).value, tp.listSepChars), parse)
  {
    GetTypedListPropertyWith(tp, key, parse, tp.listSepChars)
  }

  /**
    `getTypedListProperty(key, format, defaultValue, separatorChars)`: an
    absent key re-splits `join(default, ",")`; the separator argument is not
    used, the split is always on `listSepChars`.
   */
  function GetTypedListPropertyOrWith<T>(tp: TypedProperties, key: string, parse: string -> Result<T>,
                                         d: seq<T>, show: T -> string, seps: string): (r: Result<seq<T>>)
    ensures GetProperty(tp, key).None? ==>
      r == ParseAll(Split(Join(Shown(d, show), ","), tp.listSepChars), parse)
    ensures GetProperty(tp, key).Some? ==>
      r == ParseAll(Split(GetProperty(tp, key).value, tp.listSepChars), parse)
  {
    var property := GetPropertyOr(tp, key, Some(Join(Shown(d, show), ",")));
    ParseAll(Split(property.value, tp.listSepChars), parse)
  }

  /** `getTypedListProperty(key, format, defaultValue)` */
  function GetTypedListPropertyOr<T>(tp: TypedProperties, key: string, parse: string -> Result<T>,
                                     d: seq<T>, show: T -> string): (r: Result<seq<T>>)
    ensures GetProperty(tp, key).None? ==>
      r == ParseAll(Split(Join(Shown(d, show), ","), tp.listSepChars), parse)
    ensures GetProperty(tp, key).Some? ==>
      r == ParseAll(Split(GetProperty(tp, key).value, tp.listSepChars), parse)
  {
    GetTypedListPropertyOrWith(tp, key, parse, d, show, tp.listSepChars)
  }

  /** `getTypedListProperty(key, stringToType, separatorChars)`: empty when absent. */
  function GetTypedListPropertyByTypeWith<T>(tp: TypedProperties, key: string, stringToType: string -> Result<T>,
                                             seps: string): (r: Result<seq<T>>)
    ensures GetProperty(tp, key).None? ==> r == Ok([])
    ensures GetProperty(tp, key).Some? ==>
      r == ParseAll(Split(GetProperty(tp, key).value, seps), stringToType)
  {
    match GetProperty(tp, key)
    case None => Ok([])
    case Some(v) => ParseAll(Split(v, seps), stringToType)
  }

  /** `getTypedListProperty(key, stringToType)`: splits on `listSepChars`. */
  function GetTypedListPropertyByType<T>(tp: TypedProperties, key: string, stringToType: string -> Result<T>): (r: Result<seq<T>>)
    ensures GetProperty(tp, key).None? ==> r == Ok([])
    ensures GetProperty(tp, key).Some? ==>
      r == ParseAll(Split(GetProperty(tp, key).value, tp.listSepChars), stringToType)
  {
    GetTypedListPropertyByTypeWith(tp, key, stringToType, tp.listSepChars)
  }

  /**
    `getTypedListProperty(key, stringToType, defaultValue, separatorChars)`:
    like the `Format` form, the separator argument is not used.
   */
  function GetTypedListPropertyByTypeOrWith<T>(tp: TypedProperties, key: string, stringToType: string -> Result<T>,
                                               d: seq<T>, show: T -> string, seps: string): (r: Result<seq<T>>)
    ensures GetProperty(tp, key).None? ==>
      r == ParseAll(Split(Join(Shown(d, show), ","), tp.listSepChars), stringToType)
    ensures GetProperty(tp, key).Some? ==>
      r == ParseAll(Split(GetProperty(tp, key).value, tp.listSepChars), stringToType)
  {
    var property := GetPropertyOr(tp, key, Some(Join(Shown(d, show), ",")));
    ParseAll(Split(property.value, tp.listSepChars), stringToType)
  }

  /**
    A typed default list survives the join and re-split exactly when every
    element's string form is a non-empty run free of `listSepChars`, and it
    parses back to the element.
   */
  lemma TypedListDefaultRoundTrip<T>(tp: TypedProperties, key: string, parse: string -> Result<T>,
                                     d: seq<T>, show: T -> string, seps: string)
    requires GetProperty(tp, key).None?
    requires ',' in tp.listSepChars
    requires forall i :: 0 <= i < |d| ==> show(d[i]) != [] && NoneIn(show(d[i]), tp.listSepChars)
    requires forall i :: 0 <= i < |d| ==> parse(show(d[i])) == Ok(d[i])
    ensures GetTypedListPropertyOrWith(tp, key, parse, d, show, seps) == Ok(d)
    ensures GetTypedListPropertyByTypeOrWith(tp, key, parse, d, show, seps) == Ok(d)
  {
    var shown := Shown(d, show);
    SplitJoin(shown, ",", tp.listSepChars);
    assert Split(Join(shown, ","), tp.listSepChars) == shown;
    var r := ParseAll(shown, parse);
    assert r.Ok?;
    assert r.value == d;
  }

  /** `getListProperty(key, separatorChars)`: empty when absent. */
  function GetListPropertyWith(tp: TypedProperties, key: string, seps: string): (r: seq<string>)
    ensures GetProperty(tp, key).None? ==> r == []
    ensures GetProperty(tp, key).Some? ==> r == Split(GetProperty(tp, key).value, seps)
    ensures forall i :: 0 <= i < |r| ==> r[i] != [] && NoneIn(r[i], seps)
  {
    match GetProperty(tp, key)
    case None => []
    case Some(v) => Split(v, seps)
  }

  /** `getListProperty(key)`: splits on `listSepChars`. */
  function GetListProperty(tp: TypedProperties, key: string): (r: seq<string>)
    ensures GetProperty(tp, key).None? ==> r == []
    ensures GetProperty(tp, key).Some? ==> r == Split(GetProperty(tp, key).value, tp.listSepChars)
  {
    GetListPropertyWith(tp, key, tp.listSepChars)
  }

  /**
    `getListProperty(key, defaultValue, separatorChars)`: an absent key
    re-splits `join(default, ",")` on the given separators.
   */
  function GetListPropertyOrWith(tp: TypedProperties, key: string, d: seq<string>, seps: string): (r: seq<string>)
    ensures GetProperty(tp, key).None? ==> r == Split(Join(d, ","), seps)
    ensures GetProperty(tp, key).Some? ==> r == Split(GetProperty(tp, key).value, seps)
  {
    Split(GetPropertyOr(tp, key, Some(Join(d, ","))).value, seps)
  }

  /** `getListProperty(key, defaultValue)`: the given separators are `listSepChars`. */
  function GetListPropertyOr(tp: TypedProperties, key: string, d: seq<string>): (r: seq<string>)
    ensures GetProperty(tp, key).None? ==> r == Split(Join(d, ","), tp.listSepChars)
    ensures GetProperty(tp, key).Some? ==> r == Split(GetProperty(tp, key).value, tp.listSepChars)
  {
    GetListPropertyOrWith(tp, key, d, tp.listSepChars)
  }

  /**
    For an absent key the default list comes back as it is exactly when its
    elements are non-empty and free of the separators; `,` must be one of them.
   */
  lemma ListDefaultRoundTrip(tp: TypedProperties, key: string, d: seq<string>, seps: string)
    requires GetProperty(tp, key).None?
    requires ',' in seps
    ensures GetListPropertyOrWith(tp, key, d, seps) == d
        <==> forall i :: 0 <= i < |d| ==> d[i] != [] && NoneIn(d[i], seps)
  {
    SplitJoin(d, ",", seps);
  }
}
