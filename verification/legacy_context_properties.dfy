/**
  The older `ContextProperties` (the top-level module of the repository):
  keys are prefixed with the context as in the newer one, but values are
  returned verbatim, there are no replacements, the URL and File getters
  re-parse `String.valueOf(default)`, and lists always split on `" ,;"`.
 */
module LegacyContextProps {
  import opened Outcomes
  import opened Strings
  import JavaProperties
  import opened Namespace
  import opened Coercion
  import ContextProps

  /** `LIST_SEPARATOR_CHARS` */
  const ListSeparatorChars: string := " ,;"

  datatype ContextProperties = ContextProperties(context: string, props: JavaProperties.Properties)

  /** `new ContextProperties(context, parentProperties)`: an empty own table over the parent. */
  function New(context: string, parent: Option<JavaProperties.Properties>): (cp: ContextProperties)
    ensures cp.context == context
    ensures forall key :: GetProperty(cp, key) == match parent
      case None => None
      case Some(p) => JavaProperties.GetProperty(p, KeyWithContext(context, key))
  {
    ContextProperties(context, JavaProperties.Properties(map[], parent))
  }

  /** `getProperty(key)`: the entry of the prefixed key, verbatim; null when absent. */
  function GetProperty(cp: ContextProperties, key: string): (r: Option<string>)
    ensures r == JavaProperties.FirstHit(JavaProperties.Layers(cp.props), KeyWithContext(cp.context, key))
  {
    JavaProperties.LookupIsFirstHit(cp.props, KeyWithContext(cp.context, key));
    JavaProperties.GetProperty(cp.props, KeyWithContext(cp.context, key))
  }

  /**
    `getProperty(key, defaultValue)`: `Properties.getProperty(k, d)` calls the
    overridden one-argument form on the already prefixed key, which prefixing
    leaves as it is; so the entry, else the default.
   */
  function GetPropertyOr(cp: ContextProperties, key: string, d: Option<string>): (r: Option<string>)
    ensures GetProperty(cp, key).None? ==> r == d
    ensures GetProperty(cp, key).Some? ==> r == GetProperty(cp, key)
  {
    KeyWithContextIdempotent(cp.context, key);
    match GetProperty(cp, KeyWithContext(cp.context, key))
    case None => d
    case Some(v) => Some(v)
  }

  /** `get(key)`: the same as `getProperty(key)`. */
  function Get(cp: ContextProperties, key: string): (r: Option<string>)
    ensures r == JavaProperties.GetProperty(cp.props, KeyWithContext(cp.context, key))
  {
    GetProperty(cp, key)
  }

  /** `put(key, value)`: stores under the prefixed key and returns the previous own entry. */
  function Put(cp: ContextProperties, key: string, value: string): (r: (ContextProperties, Option<string>))
    ensures r.0.context == cp.context && r.0.props.defaults == cp.props.defaults
    ensures GetProperty(r.0, key) == Some(value)
    ensures forall k :: KeyWithContext(cp.context, k) != KeyWithContext(cp.context, key) ==>
      GetProperty(r.0, k) == GetProperty(cp, k)
    ensures var full := KeyWithContext(cp.context, key);
      r.1 == if full in cp.props.table then Some(cp.props.table[full]) else None
  {
    var (props, previous) := JavaProperties.Put(cp.props, KeyWithContext(cp.context, key), value);
    (cp.(props := props), previous)
  }

  /**
    Without registered replacements the newer ContextProperties reads exactly
    what this one reads, with and without a default.
   */
  lemma AgreesWithoutReplacements(context: string, p: JavaProperties.Properties, key: string, d: Option<string>)
    ensures GetProperty(ContextProperties(context, p), key)
         == ContextProps.GetProperty(ContextProps.ContextProperties(context, p, map[]), key)
    ensures GetPropertyOr(ContextProperties(context, p), key, d)
         == ContextProps.GetPropertyOr(ContextProps.ContextProperties(context, p, map[]), key, d)
  {
    KeyWithContextIdempotent(context, key);
  }

  /** `getStringProperty(key, defaultValue)` */
  function GetStringProperty(cp: ContextProperties, key: string, d: Option<string>): (r: Option<string>)
    ensures GetProperty(cp, key).None? ==> r == d
    ensures GetProperty(cp, key).Some? ==> r == GetProperty(cp, key)
  {
    GetPropertyOr(cp, key, d)
  }

  /** `getBooleanProperty(key)`: null when absent, else case-insensitive "true". */
  function GetBooleanProperty(cp: ContextProperties, key: string): (r: Option<bool>)
    ensures r.None? <==> GetProperty(cp, key).None?
    ensures r.Some? ==> (r.value <==> Lowered(GetProperty(cp, key).value) == "true")
  {
    match GetProperty(cp, key)
    case None => None
    case Some(v) => Some(ParseBoolean(v))
  }

  /** `getBooleanProperty(key, defaultValue)`: an absent key gives the default, null as false. */
  function GetBooleanPropertyOr(cp: ContextProperties, key: string, d: Option<bool>): (r: bool)
    ensures GetProperty(cp, key).None? ==> (r <==> d == Some(true))
    ensures GetProperty(cp, key).Some? ==> (r <==> Lowered(GetProperty(cp, key).value) == "true")
  {
    ParseBooleanValueOf(d);
    ParseBoolean(GetPropertyOr(cp, key, Some(ValueOf(d, BoolToString))).value)
  }

  /** `getNumberProperty(key)` with `Double.parseDouble` as `parseDouble`. */
  function GetNumberProperty<N>(cp: ContextProperties, key: string, parseDouble: string -> Result<N>): (r: Result<Option<N>>)
    ensures GetProperty(cp, key).None? ==> r == Ok(None)
    ensures GetProperty(cp, key).Some? ==> r == Lift(parseDouble(GetProperty(cp, key).value))
  {
    match GetProperty(cp, key)
    case None => Ok(None)
    case Some(v) => Lift(parseDouble(v))
  }

  /** The value if present, else `text`, handed to `parse`. */
  function ParseOrDefaultText<T>(cp: ContextProperties, key: string, text: string, parse: string -> Result<T>): (r: Result<T>)
    ensures GetProperty(cp, key).None? ==> r == parse(text)
    ensures GetProperty(cp, key).Some? ==> r == parse(GetProperty(cp, key).value)
  {
    parse(GetPropertyOr(cp, key, Some(text)).value)
  }

  /** `getNumberProperty(key, defaultValue)`: re-parses `String.valueOf(default)` when absent. */
  function GetNumberPropertyOr<N>(cp: ContextProperties, key: string, d: Option<N>, show: N -> string,
                                  parseDouble: string -> Result<N>): (r: Result<N>)
    ensures GetProperty(cp, key).None? ==> r == parseDouble(ValueOf(d, show))
    ensures GetProperty(cp, key).Some? ==> r == parseDouble(GetProperty(cp, key).value)
  {
    ParseOrDefaultText(cp, key, ValueOf(d, show), parseDouble)
  }

  /** `getCharProperty(key)`: the first character; an empty value throws. */
  function GetCharProperty(cp: ContextProperties, key: string): (r: Result<Option<char>>)
    ensures GetProperty(cp, key).None? ==> r == Ok(None)
    ensures GetProperty(cp, key) == Some([]) ==> r == Err(IndexOutOfBounds)
    ensures GetProperty(cp, key).Some? && GetProperty(cp, key).value != [] ==>
      r == Ok(Some(GetProperty(cp, key).value[0]))
  {
    match GetProperty(cp, key)
    case None => Ok(None)
    case Some(v) => Lift(CharAt0(v))
  }

  /**
    `getCharProperty(key, defaultValue)`: the default when absent. The conditional
    expression has type `char`, so a `null` default is unboxed and throws.
   */
  function GetCharPropertyOr(cp: ContextProperties, key: string, d: Option<char>): (r: Result<char>)
    ensures GetProperty(cp, key).None? && d.Some? ==> r == Ok(d.value)
    ensures GetProperty(cp, key).None? && d.None? ==> r == Err(NullPointer)
    ensures GetProperty(cp, key) == Some([]) ==> r == Err(IndexOutOfBounds)
    ensures GetProperty(cp, key).Some? && GetProperty(cp, key).value != [] ==>
      r == Ok(GetProperty(cp, key).value[0])
  {
    match GetProperty(cp, key)
    case None => if d.Some? then Ok(d.value) else Err(NullPointer)
    case Some(v) => CharAt0(v)
  }

  /** `getCharsetProperty(key)` with `Charset.forName` as `forName`. */
  function GetCharsetProperty<C>(cp: ContextProperties, key: string, forName: string -> Result<C>): (r: Result<Option<C>>)
    ensures GetProperty(cp, key).None? ==> r == Ok(None)
    ensures GetProperty(cp, key).Some? ==> r == Lift(forName(GetProperty(cp, key).value))
  {
    match GetProperty(cp, key)
    case None => Ok(None)
    case Some(v) => Lift(forName(v))
  }

  /** `getCharsetProperty(key, defaultValue)`: re-parses `String.valueOf(default)` when absent. */
  function GetCharsetPropertyOr<C>(cp: ContextProperties, key: string, d: Option<C>, show: C -> string,
                                   forName: string -> Result<C>): (r: Result<C>)
    ensures GetProperty(cp, key).None? ==> r == forName(ValueOf(d, show))
    ensures GetProperty(cp, key).Some? ==> r == forName(GetProperty(cp, key).value)
  {
    ParseOrDefaultText(cp, key, ValueOf(d, show), forName)
  }

  /** `getURLProperty(key)` with `new URL(..)` as `newUrl`. */
  function GetURLProperty<U>(cp: ContextProperties, key: string, newUrl: string -> Result<U>): (r: Result<Option<U>>)
    ensures GetProperty(cp, key).None? ==> r == Ok(None)
    ensures GetProperty(cp, key).Some? ==> r == Lift(newUrl(GetProperty(cp, key).value))
  {
    match GetProperty(cp, key)
    case None => Ok(None)
    case Some(v) => Lift(newUrl(v))
  }

  /**
    `getURLProperty(key, defaultValue)`: re-parses `String.valueOf(default)`
    when absent, so a null default hands "null" to the URL parser.
   */
  function GetURLPropertyOr<U>(cp: ContextProperties, key: string, d: Option<U>, show: U -> string,
                               newUrl: string -> Result<U>): (r: Result<U>)
    ensures GetProperty(cp, key).None? ==> r == newUrl(ValueOf(d, show))
    ensures GetProperty(cp, key).Some? ==> r == newUrl(GetProperty(cp, key).value)
  {
    ParseOrDefaultText(cp, key, ValueOf(d, show), newUrl)
  }

  /** `getURIProperty(key)` with `new URI(..)` as `newUri`. */
  function GetURIProperty<U>(cp: ContextProperties, key: string, newUri: string -> Result<U>): (r: Result<Option<U>>)
    ensures GetProperty(cp, key).None? ==> r == Ok(None)
    ensures GetProperty(cp, key).Some? ==> r == Lift(newUri(GetProperty(cp, key).value))
  {
    match GetProperty(cp, key)
    case None => Ok(None)
    case Some(v) => Lift(newUri(v))
  }

  /** `getURIProperty(key, defaultValue)`: re-parses `String.valueOf(default)` when absent. */
  function GetURIPropertyOr<U>(cp: ContextProperties, key: string, d: Option<U>, show: U -> string,
                               newUri: string -> Result<U>): (r: Result<U>)
    ensures GetProperty(cp, key).None? ==> r == newUri(ValueOf(d, show))
    ensures GetProperty(cp, key).Some? ==> r == newUri(GetProperty(cp, key).value)
  {
    ParseOrDefaultText(cp, key, ValueOf(d, show), newUri)
  }

  /**
    A default that prints as text the parser reads back is what a re-parsing
    getter returns for an absent key.
   */
  lemma ReparsedDefaultRoundTrip<T>(cp: ContextProperties, key: string, x: T, show: T -> string, parse: string -> Result<T>)
    requires GetProperty(cp, key).None?
    requires parse(show(x)) == Ok(x)
    ensures GetNumberPropertyOr(cp, key, Some(x), show, parse) == Ok(x)
    ensures GetCharsetPropertyOr(cp, key, Some(x), show, parse) == Ok(x)
    ensures GetURLPropertyOr(cp, key, Some(x), show, parse) == Ok(x)
    ensures GetURIPropertyOr(cp, key, Some(x), show, parse) == Ok(x)
  {
  }

  /** `getFileProperty(key)`: never fails. */
  function GetFileProperty(cp: ContextProperties, key: string): (r: Option<File>)
    ensures r.None? <==> GetProperty(cp, key).None?
    ensures r.Some? ==> r.value.path == GetProperty(cp, key).value
  {
    match GetProperty(cp, key)
    case None => None
    case Some(v) => Some(File(v))
  }

  /**
    `getFileProperty(key, defaultValue)`: a File of `String.valueOf(default)`
    when absent; never null, even for a null default.
   */
  function GetFilePropertyOr(cp: ContextProperties, key: string, d: Option<File>): (r: File)
    ensures GetProperty(cp, key).None? && d.Some? ==> r == d.value
    ensures GetProperty(cp, key).None? && d.None? ==> r == File("null")
    ensures GetProperty(cp, key).Some? ==> r.path == GetProperty(cp, key).value
  {
    File(GetPropertyOr(cp, key, Some(ValueOf(d, (f: File) => f.path))).value)
  }

  /**
    Where the newer ContextProperties gives null for an absent key and a null
    default File, this one gives the file named "null".
   */
  lemma NullFileDefaultDiffers(context: string, p: JavaProperties.Properties, key: string)
    requires GetProperty(ContextProperties(context, p), key).None?
    ensures GetFilePropertyOr(ContextProperties(context, p), key, None) == File("null")
    ensures ContextProps.GetFilePropertyOr(ContextProps.ContextProperties(context, p, map[]), key, None) == None
  {
    AgreesWithoutReplacements(context, p, key, None);
  }

  /** `getTypedProperty(key, format, defaultValue)`: never null. */
  function GetTypedPropertyOr<T>(cp: ContextProperties, key: string, parse: string -> Result<T>,
                                 d: Option<T>, show: T -> string): (r: Result<Option<T>>)
    ensures r.Ok? ==> r.value.Some?
    ensures GetProperty(cp, key).None? ==> r == Lift(parse(ValueOf(d, show)))
    ensures GetProperty(cp, key).Some? ==> r == Lift(parse(GetProperty(cp, key).value))
  {
    var property := GetPropertyOr(cp, key, Some(ValueOf(d, show)));
    if property.None? then Ok(None) else Lift(parse(property.value))
  }

  /** `getTypedProperty(key, format)`: an absent key hands "null" to the format. */
  function GetTypedProperty<T>(cp: ContextProperties, key: string, parse: string -> Result<T>): (r: Result<Option<T>>)
    ensures r.Ok? ==> r.value.Some?
    ensures GetProperty(cp, key).None? ==> r == Lift(parse("null"))
    ensures GetProperty(cp, key).Some? ==> r == Lift(parse(GetProperty(cp, key).value))
  {
    // the null default is never shown, so any `show` serves
    GetTypedPropertyOr(cp, key, parse, None, (x: T) => "")
  }

  /** `getTypedListProperty(key, format)`: empty when absent, else each token parsed in order. */
  function GetTypedListProperty<T>(cp: ContextProperties, key: string, parse: string -> Result<T>): (r: Result<seq<T>>)
    ensures GetProperty(cp, key).None? ==> r == Ok([])
    ensures GetProperty(cp, key).Some? ==>
      r == ParseAll(Split(GetProperty(cp, key).value, ListSeparatorChars), parse)
  {
    match GetProperty(cp, key)
    case None => Ok([])
    case Some(v) => ParseAll(Split(v, ListSeparatorChars), parse)
  }

  /** `getTypedListProperty(key, format, defaultValue)`: an absent key re-splits `join(default, ",")`. */
  function GetTypedListPropertyOr<T>(cp: ContextProperties, key: string, parse: string -> Result<T>,
                                     d: seq<T>, show: T -> string): (r: Result<seq<T>>)
    ensures GetProperty(cp, key).None? ==>
      r == ParseAll(Split(Join(Shown(d, show), ","), ListSeparatorChars), parse)
    ensures GetProperty(cp, key).Some? ==>
      r == ParseAll(Split(GetProperty(cp, key).value, ListSeparatorChars), parse)
  {
    var property := GetPropertyOr(cp, key, Some(Join(Shown(d, show), ",")));
    ParseAll(Split(property.value, ListSeparatorChars), parse)
  }

  /**
    An absent key with a default list whose elements print as non-empty,
    separator-free text that parses back gives the default list itself; a
    first element that does not parse makes the whole call fail with its error.
   */
  lemma TypedListDefault<T>(cp: ContextProperties, key: string, parse: string -> Result<T>, d: seq<T>, show: T -> string)
    requires GetProperty(cp, key).None?
    requires forall i :: 0 <= i < |d| ==> show(d[i]) != [] && NoneIn(show(d[i]), ListSeparatorChars)
    ensures (forall i :: 0 <= i < |d| ==> parse(show(d[i])) == Ok(d[i])) ==>
      GetTypedListPropertyOr(cp, key, parse, d, show) == Ok(d)
    ensures |d| > 0 && parse(show(d[0])).Err? ==>
      GetTypedListPropertyOr(cp, key, parse, d, show) == Err(parse(show(d[0])).error)
  {
    var shown := Shown(d, show);
    SplitJoin(shown, ",", ListSeparatorChars);
    assert Split(Join(shown, ","), ListSeparatorChars) == shown;
    if forall i :: 0 <= i < |d| ==> parse(show(d[i])) == Ok(d[i]) {
      assert ParseAll(shown, parse).value == d;
    }
    if |d| > 0 && parse(show(d[0])).Err? {
      assert shown[0] == show(d[0]);
      assert ParseAll(shown, parse) == Err(parse(shown[0]).error);
    }
  }

  /** `getListProperty(key)`: empty when absent, else the tokens between `" ,;"` runs. */
  function GetListProperty(cp: ContextProperties, key: string): (r: seq<string>)
    ensures GetProperty(cp, key).None? ==> r == []
    ensures GetProperty(cp, key).Some? ==> r == Split(GetProperty(cp, key).value, ListSeparatorChars)
    ensures forall i :: 0 <= i < |r| ==> r[i] != [] && NoneIn(r[i], ListSeparatorChars)
  {
    match GetProperty(cp, key)
    case None => []
    case Some(v) => Split(v, ListSeparatorChars)
  }

  /** `getListProperty(key, defaultValue)`: an absent key re-splits `join(default, ",")`. */
  function GetListPropertyOr(cp: ContextProperties, key: string, d: seq<string>): (r: seq<string>)
    ensures GetProperty(cp, key).None? ==> r == Split(Join(d, ","), ListSeparatorChars)
    ensures GetProperty(cp, key).Some? ==> r == Split(GetProperty(cp, key).value, ListSeparatorChars)
  {
    Split(GetPropertyOr(cp, key, Some(Join(d, ","))).value, ListSeparatorChars)
  }

  /**
    For an absent key a default list comes back as it is exactly when its
    elements are non-empty and free of `" ,;"`.
   */
  lemma ListDefaultRoundTrip(cp: ContextProperties, key: string, d: seq<string>)
    requires GetProperty(cp, key).None?
    ensures GetListPropertyOr(cp, key, d) == d
        <==> forall i :: 0 <= i < |d| ==> d[i] != [] && NoneIn(d[i], ListSeparatorChars)
  {
    SplitJoin(d, ",", ListSeparatorChars);
  }

  /**
    A value is read back verbatim after `put`, placeholders included, and a
    joined list is read back as the list.
   */
  lemma {:induction false} PutThenGet(cp: ContextProperties, key: string, v: string, xs: seq<string>)
    requires forall i :: 0 <= i < |xs| ==> xs[i] != [] && NoneIn(xs[i], ListSeparatorChars)
    ensures GetProperty(Put(cp, key, v).0, key) == Some(v)
    ensures GetProperty(Put(cp, key, "${x}").0, key) == Some("${x}")
    ensures GetListProperty(Put(cp, key, Join(xs, ",")).0, key) == xs
  {
    SplitJoin(xs, ",", ListSeparatorChars);
  }
}
