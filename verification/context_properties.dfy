/**
  The newer `ContextProperties` (module propertiesutils-contextproperties): a
  `Properties` whose keys are prefixed with a context and whose values pass
  through the placeholder substitution on every read.

  A view holds its context, its own `Properties` (own table plus the parent
  chain it was built over) and the registered replacements.
 */
module ContextProps {
  import opened Outcomes
  import opened Strings
  import JavaProperties
  import opened Namespace
  import opened Replacements
  import opened Coercion

  /** `LIST_SEPARATOR_CHARS` */
  const ListSeparatorChars: string := " ,;"

  datatype ContextProperties = ContextProperties(
    context: string,
    props: JavaProperties.Properties,
    replacements: map<string, string>)

  /** `new ContextProperties(context, parentProperties)`: an empty own table over the parent. */
  function New(context: string, parent: Option<JavaProperties.Properties>): (cp: ContextProperties)
    ensures cp.context == context && cp.replacements == map[]
    ensures forall key :: StoredValue(cp, key) == match parent
      case None => None
      case Some(p) => JavaProperties.GetProperty(p, KeyWithContext(context, key))
  {
    ContextProperties(context, JavaProperties.Properties(map[], parent), map[])
  }

  /** The raw entry for the prefixed key, in the own table or along the parent chain. */
  function StoredValue(cp: ContextProperties, key: string): (r: Option<string>)
    ensures r == JavaProperties.FirstHit(JavaProperties.Layers(cp.props), KeyWithContext(cp.context, key))
  {
    JavaProperties.LookupIsFirstHit(cp.props, KeyWithContext(cp.context, key));
    JavaProperties.GetProperty(cp.props, KeyWithContext(cp.context, key))
  }

  // ---------------------------------------------------------------------------
  // Replacements
  // ---------------------------------------------------------------------------

  /**
    `withReplacements(map)`: a null map throws; otherwise every entry is
    registered, overwriting an earlier registration of the same name.
   */
  function WithReplacements(cp: ContextProperties, m: Option<map<string, string>>): (r: Result<ContextProperties>)
    ensures r.Err? <==> m.None?
    ensures r.Err? ==> r.error == NullPointer
    ensures r.Ok? ==> (
      && r.value.context == cp.context && r.value.props == cp.props
      && r.value.replacements.Keys == cp.replacements.Keys + m.value.Keys
      && (forall n :: n in m.value ==> r.value.replacements[n] == m.value[n])
      && (forall n :: n in cp.replacements && n !in m.value ==>
            r.value.replacements[n] == cp.replacements[n]))
  {
    match m
    case None => Err(NullPointer)
    case Some(entries) => Ok(cp.(replacements := cp.replacements + entries))
  }

  /** `withReplacement(key, replace)`: registers one name, overwriting an earlier value. */
  function WithReplacement(cp: ContextProperties, name: string, rep: string): (r: ContextProperties)
    ensures r.context == cp.context && r.props == cp.props
    ensures r.replacements.Keys == cp.replacements.Keys + {name}
    ensures r.replacements[name] == rep
    ensures forall n :: n in cp.replacements && n != name ==> r.replacements[n] == cp.replacements[n]
  {
    cp.(replacements := cp.replacements[name := rep])
  }

  // ---------------------------------------------------------------------------
  // Raw access
  // ---------------------------------------------------------------------------

  /**
    `getProperty(key)`: the entry of the prefixed key with the replacements
    applied; an absent key gives null.
   */
  ghost function GetProperty(cp: ContextProperties, key: string): (r: Option<string>)
    ensures r.None? <==> StoredValue(cp, key).None?
    ensures r.Some? ==> r.value == ApplyReplacements(StoredValue(cp, key).value, cp.replacements)
    ensures StoredValue(cp, key).Some? && NoTokenIn(StoredValue(cp, key).value, cp.replacements) ==>
      r == StoredValue(cp, key)
  {
    ApplyOpt(JavaProperties.GetProperty(cp.props, KeyWithContext(cp.context, key)), cp.replacements)
  }

  /**
    `getProperty(key, defaultValue)`. `Properties.getProperty(k, d)` calls the
    overridden one-argument `getProperty`, which already substitutes, and the
    outer call substitutes again: a stored value passes the replacement pass
    twice, the default once.
   */
  ghost function GetPropertyOr(cp: ContextProperties, key: string, d: Option<string>): (r: Option<string>)
    ensures StoredValue(cp, key).None? ==> r == ApplyOpt(d, cp.replacements)
    ensures StoredValue(cp, key).Some? ==>
      r == Some(ApplyReplacements(GetProperty(cp, key).value, cp.replacements))
    ensures d.Some? ==> r.Some?
    ensures StoredValue(cp, key).Some? && NoTokenIn(GetProperty(cp, key).value, cp.replacements) ==>
      r == GetProperty(cp, key)
  {
    var inner := GetProperty(cp, KeyWithContext(cp.context, key));
    ApplyOpt(if inner.Some? then inner else d, cp.replacements)
  }

  /** `get(key)`: the same as `getProperty(key)`. */
  ghost function Get(cp: ContextProperties, key: string): (r: Option<string>)
    ensures r == ApplyOpt(StoredValue(cp, key), cp.replacements)
  {
    GetProperty(cp, key)
  }

  /** `put(key, value)`: stores under the prefixed key and returns the previous own entry. */
  function Put(cp: ContextProperties, key: string, value: string): (r: (ContextProperties, Option<string>))
    ensures r.0.context == cp.context && r.0.replacements == cp.replacements
    ensures r.0.props.defaults == cp.props.defaults
    ensures StoredValue(r.0, key) == Some(value)
    ensures forall k :: KeyWithContext(cp.context, k) != KeyWithContext(cp.context, key) ==>
      StoredValue(r.0, k) == StoredValue(cp, k)
    ensures var full := KeyWithContext(cp.context, key);
      r.1 == if full in cp.props.table then Some(cp.props.table[full]) else None
  {
    var (props, previous) := JavaProperties.Put(cp.props, KeyWithContext(cp.context, key), value);
    (cp.(props := props), previous)
  }

  /** After `put(key, value)`, reading `key` gives the value with the replacements applied. */
  lemma PutThenGet(cp: ContextProperties, key: string, value: string, other: string)
    ensures GetProperty(Put(cp, key, value).0, key) == Some(ApplyReplacements(value, cp.replacements))
    ensures Get(Put(cp, key, value).0, key) == GetProperty(Put(cp, key, value).0, key)
    ensures KeyWithContext(cp.context, other) != KeyWithContext(cp.context, key) ==>
      GetProperty(Put(cp, key, value).0, other) == GetProperty(cp, other)
  {
  }

  /**
    A key that does not start with the context reads the same entry as its
    qualified form `context + "." + key`.
   */
  lemma QualifiedKeyReadsSameEntry(cp: ContextProperties, key: string)
    requires !StartsWith(key, cp.context)
    ensures GetProperty(cp, key) == GetProperty(cp, cp.context + "." + key)
    ensures GetPropertyOr(cp, key, None) == GetPropertyOr(cp, cp.context + "." + key, None)
  {
    QualifiedKeySameEntry(cp.context, key);
  }

  /**
    For a key that already starts with the context the qualified form is a
    different entry: in the context "app" the key "apple" is read as "apple",
    while "app.apple" is read as "app.apple".
   */
  lemma PrefixWithoutDotCounterexample()
    ensures var cp := ContextProperties("app", JavaProperties.Properties(map["app.apple" := "x"], None), map[]);
      GetProperty(cp, "apple") == None && GetProperty(cp, "app.apple") == Some("x")
  {
    var cp := ContextProperties("app", JavaProperties.Properties(map["app.apple" := "x"], None), map[]);
    assert StartsWith("apple", "app");
    assert "apple" !in cp.props.table;
    assert StartsWith("app.apple", "app");
  }

  /** One replacement pass over "${${a}a}" with `a` as "" leaves "${a}". */
  lemma ReplaceNested()
    ensures Replace("${${a}a}", "${a}", "") == "${a}"
  {
    var s: string := "${${a}a}";
    assert s[..4][2] == '$';
    ReplaceNoMatchStep(s, "${a}", "");
    assert s[1..][..4][0] == '{';
    ReplaceNoMatchStep(s[1..], "${a}", "");
    assert s[2..] == "${a}" + "a}";
    ReplaceMatchStep("${a}", "a}", "");
  }

  /** A second pass removes the token that the first one produced. */
  lemma ReplaceWhole()
    ensures Replace("${a}", "${a}", "") == ""
  {
    ReplaceMatchStep("${a}", "", "");
    assert "${a}" + "" == "${a}";
  }

  /**
    The double substitution is observable: with `a` registered as the empty
    text, the stored value "${${a}a}" reads as "${a}" through
    `getProperty(key)` and as "" through `getProperty(key, default)`.
   */
  lemma DoubleReplacementCounterexample()
    ensures var cp := ContextProperties("c", JavaProperties.Properties(map["c.k" := "${${a}a}"], None), map["a" := ""]);
      GetProperty(cp, "k") == Some("${a}") && GetPropertyOr(cp, "k", Some("z")) == Some("")
  {
    var cp := ContextProperties("c", JavaProperties.Properties(map["c.k" := "${${a}a}"], None), map["a" := ""]);
    assert "k"[..1] == "k" && "k" != "c";
    assert KeyWithContext("c", "k") == "c.k";
    assert StoredValue(cp, "k") == Some("${${a}a}");
    assert Token("a") == "${a}";
    ApplySingle("${${a}a}", "a", "");
    ReplaceNested();
    ApplySingle("${a}", "a", "");
    ReplaceWhole();
  }

  // ---------------------------------------------------------------------------
  // Typed accessors
  // ---------------------------------------------------------------------------

  /** `getStringProperty(key, defaultValue)` */
  ghost function GetStringProperty(cp: ContextProperties, key: string, d: Option<string>): (r: Option<string>)
    ensures StoredValue(cp, key).None? ==> r == ApplyOpt(d, cp.replacements)
    ensures StoredValue(cp, key).Some? ==> r == GetPropertyOr(cp, key, None)
  {
    GetPropertyOr(cp, key, d)
  }

  /** `getBooleanProperty(key)`: null when absent, else case-insensitive "true". */
  ghost function GetBooleanProperty(cp: ContextProperties, key: string): (r: Option<bool>)
    ensures r.None? <==> StoredValue(cp, key).None?
    ensures r.Some? ==> (r.value <==> Lowered(GetProperty(cp, key).value) == "true")
  {
    match GetProperty(cp, key)
    case None => None
    case Some(v) => Some(ParseBoolean(v))
  }

  /**
    `getBooleanProperty(key, defaultValue)`: parses `String.valueOf(default)`
    when absent, so it never throws; a null default reads as false.
   */
  ghost function GetBooleanPropertyOr(cp: ContextProperties, key: string, d: Option<bool>): (r: bool)
    ensures StoredValue(cp, key).None? ==> (r <==> d == Some(true))
    ensures StoredValue(cp, key).Some? ==> (r <==> Lowered(GetPropertyOr(cp, key, None).value) == "true")
  {
    var text := ValueOf(d, BoolToString);
    assert '$' !in text;
    ApplyWithoutDollar(text, cp.replacements);
    ParseBooleanValueOf(d);
    ParseBoolean(GetPropertyOr(cp, key, Some(text)).value)
  }

  /** `getNumberProperty(key)` with `Double.parseDouble` as `parseDouble`. */
  ghost function GetNumberProperty<N>(cp: ContextProperties, key: string, parseDouble: string -> Result<N>): (r: Result<Option<N>>)
    ensures StoredValue(cp, key).None? ==> r == Ok(None)
    ensures StoredValue(cp, key).Some? ==> r == Lift(parseDouble(GetProperty(cp, key).value))
  {
    match GetProperty(cp, key)
    case None => Ok(None)
    case Some(v) => Lift(parseDouble(v))
  }

  /** Parses the value, or the substituted default text when the key is absent. */
  ghost function ParseOrDefaultText<T>(cp: ContextProperties, key: string, text: string, parse: string -> Result<T>): (r: Result<T>)
    ensures StoredValue(cp, key).None? ==> r == parse(ApplyReplacements(text, cp.replacements))
    ensures StoredValue(cp, key).Some? ==> r == parse(GetPropertyOr(cp, key, None).value)
  {
    parse(GetPropertyOr(cp, key, Some(text)).value)
  }

  /** `getNumberProperty(key, defaultValue)`: re-parses `String.valueOf(default)` when absent. */
  ghost function GetNumberPropertyOr<N>(cp: ContextProperties, key: string, d: Option<N>, show: N -> string,
                                        parseDouble: string -> Result<N>): (r: Result<N>)
    ensures StoredValue(cp, key).None? ==>
      r == parseDouble(ApplyReplacements(ValueOf(d, show), cp.replacements))
    ensures StoredValue(cp, key).Some? ==> r == parseDouble(GetPropertyOr(cp, key, None).value)
  {
    ParseOrDefaultText(cp, key, ValueOf(d, show), parseDouble)
  }

  /**
    A re-parsed default comes back as itself when its string form has no
    placeholder and parses back to it.
   */
  lemma ReparsedDefaultRoundTrip<T>(cp: ContextProperties, key: string, x: T, show: T -> string, parse: string -> Result<T>)
    requires StoredValue(cp, key).None?
    requires '$' !in show(x) && parse(show(x)) == Ok(x)
    ensures GetNumberPropertyOr(cp, key, Some(x), show, parse) == Ok(x)
    ensures GetCharsetPropertyOr(cp, key, Some(x), show, parse) == Ok(x)
    ensures GetURIPropertyOr(cp, key, Some(x), show, parse) == Ok(x)
  {
    ApplyWithoutDollar(show(x), cp.replacements);
  }

  /** `getCharProperty(key)`: the first character; an empty value throws. */
  ghost function GetCharProperty(cp: ContextProperties, key: string): (r: Result<Option<char>>)
    ensures StoredValue(cp, key).None? ==> r == Ok(None)
    ensures GetProperty(cp, key) == Some([]) ==> r == Err(IndexOutOfBounds)
    ensures GetProperty(cp, key).Some? && GetProperty(cp, key).value != [] ==>
      r == Ok(Some(GetProperty(cp, key).value[0]))
  {
    match GetProperty(cp, key)
    case None => Ok(None)
    case Some(v) => Lift(CharAt0(v))
  }

  /**
    `getCharProperty(key, defaultValue)`: the default when absent. The conditional
    expression has type `char`, so a `null` default is unboxed and throws.
   */
  ghost function GetCharPropertyOr(cp: ContextProperties, key: string, d: Option<char>): (r: Result<char>)
    ensures StoredValue(cp, key).None? && d.Some? ==> r == Ok(d.value)
    ensures StoredValue(cp, key).None? && d.None? ==> r == Err(NullPointer)
    ensures GetProperty(cp, key) == Some([]) ==> r == Err(IndexOutOfBounds)
    ensures GetProperty(cp, key).Some? && GetProperty(cp, key).value != [] ==>
      r == Ok(GetProperty(cp, key).value[0])
  {
    match GetProperty(cp, key)
    case None => if d.Some? then Ok(d.value) else Err(NullPointer)
    case Some(v) => CharAt0(v)
  }

  /** `getCharsetProperty(key)` with `Charset.forName` as `forName`. */
  ghost function GetCharsetProperty<C>(cp: ContextProperties, key: string, forName: string -> Result<C>): (r: Result<Option<C>>)
    ensures StoredValue(cp, key).None? ==> r == Ok(None)
    ensures StoredValue(cp, key).Some? ==> r == Lift(forName(GetProperty(cp, key).value))
  {
    match GetProperty(cp, key)
    case None => Ok(None)
    case Some(v) => Lift(forName(v))
  }

  /** `getCharsetProperty(key, defaultValue)`: re-parses `String.valueOf(default)` when absent. */
  ghost function GetCharsetPropertyOr<C>(cp: ContextProperties, key: string, d: Option<C>, show: C -> string,
                                         forName: string -> Result<C>): (r: Result<C>)
    ensures StoredValue(cp, key).None? ==>
      r == forName(ApplyReplacements(ValueOf(d, show), cp.replacements))
    ensures StoredValue(cp, key).Some? ==> r == forName(GetPropertyOr(cp, key, None).value)
  {
    ParseOrDefaultText(cp, key, ValueOf(d, show), forName)
  }

  /** `getURLProperty(key)` with `new URL(..)` as `newUrl`. */
  ghost function GetURLProperty<U>(cp: ContextProperties, key: string, newUrl: string -> Result<U>): (r: Result<Option<U>>)
    ensures StoredValue(cp, key).None? ==> r == Ok(None)
    ensures StoredValue(cp, key).Some? ==> r == Lift(newUrl(GetProperty(cp, key).value))
  {
    match GetProperty(cp, key)
    case None => Ok(None)
    case Some(v) => Lift(newUrl(v))
  }

  /** `getURLProperty(key, defaultValue)`: the default object, unparsed, when absent. */
  ghost function GetURLPropertyOr<U>(cp: ContextProperties, key: string, d: Option<U>, newUrl: string -> Result<U>): (r: Result<Option<U>>)
    ensures StoredValue(cp, key).None? ==> r == Ok(d)
    ensures StoredValue(cp, key).Some? ==> r == Lift(newUrl(GetProperty(cp, key).value))
  {
    match GetProperty(cp, key)
    case None => Ok(d)
    case Some(v) => Lift(newUrl(v))
  }

  /** `getURIProperty(key)` with `new URI(..)` as `newUri`. */
  ghost function GetURIProperty<U>(cp: ContextProperties, key: string, newUri: string -> Result<U>): (r: Result<Option<U>>)
    ensures StoredValue(cp, key).None? ==> r == Ok(None)
    ensures StoredValue(cp, key).Some? ==> r == Lift(newUri(GetProperty(cp, key).value))
  {
    match GetProperty(cp, key)
    case None => Ok(None)
    case Some(v) => Lift(newUri(v))
  }

  /** `getURIProperty(key, defaultValue)`: re-parses `String.valueOf(default)` when absent. */
  ghost function GetURIPropertyOr<U>(cp: ContextProperties, key: string, d: Option<U>, show: U -> string,
                                     newUri: string -> Result<U>): (r: Result<U>)
    ensures StoredValue(cp, key).None? ==>
      r == newUri(ApplyReplacements(ValueOf(d, show), cp.replacements))
    ensures StoredValue(cp, key).Some? ==> r == newUri(GetPropertyOr(cp, key, None).value)
  {
    ParseOrDefaultText(cp, key, ValueOf(d, show), newUri)
  }

  /** `getFileProperty(key)`: never fails. */
  ghost function GetFileProperty(cp: ContextProperties, key: string): (r: Option<File>)
    ensures r.None? <==> StoredValue(cp, key).None?
    ensures r.Some? ==> r.value.path == GetProperty(cp, key).value
  {
    match GetProperty(cp, key)
    case None => None
    case Some(v) => Some(File(v))
  }

  /** `getFileProperty(key, defaultValue)`: the default object when absent. */
  ghost function GetFilePropertyOr(cp: ContextProperties, key: string, d: Option<File>): (r: Option<File>)
    ensures StoredValue(cp, key).None? ==> r == d
    ensures StoredValue(cp, key).Some? ==> r == Some(File(GetProperty(cp, key).value))
  {
    match GetProperty(cp, key)
    case None => d
    case Some(v) => Some(File(v))
  }

  /**
    `getTypedProperty(key, format, defaultValue)`: the format parses the value,
    or `String.valueOf(default)` when absent; the text handed to the format is
    never null, so neither is the result.
   */
  ghost function GetTypedPropertyOr<T>(cp: ContextProperties, key: string, parse: string -> Result<T>,
                                       d: Option<T>, show: T -> string): (r: Result<Option<T>>)
    ensures r.Ok? ==> r.value.Some?
    ensures StoredValue(cp, key).None? ==>
      r == Lift(parse(ApplyReplacements(ValueOf(d, show), cp.replacements)))
    ensures StoredValue(cp, key).Some? ==> r == Lift(parse(GetPropertyOr(cp, key, None).value))
  {
    var property := GetPropertyOr(cp, key, Some(ValueOf(d, show)));
    if property.None? then Ok(None) else Lift(parse(property.value))
  }

  /**
    `getTypedProperty(key, format)`: delegates with a null default, so an
    absent key hands the text "null" to the format.
   */
  ghost function GetTypedProperty<T>(cp: ContextProperties, key: string, parse: string -> Result<T>): (r: Result<Option<T>>)
    ensures r.Ok? ==> r.value.Some?
    ensures StoredValue(cp, key).None? ==> r == Lift(parse("null"))
    ensures StoredValue(cp, key).Some? ==> r == Lift(parse(GetPropertyOr(cp, key, None).value))
  {
    ApplyWithoutDollar("null", cp.replacements);
    // the null default is never shown, so any `show` serves
    GetTypedPropertyOr(cp, key, parse, None, (x: T) => "")
  }

  /** `getTypedListProperty(key, format, separatorChars)`: empty when absent. */
  ghost function GetTypedListPropertyWith<T>(cp: ContextProperties, key: string, parse: string -> Result<T>,
                                             seps: string): (r: Result<seq<T>>)
    ensures StoredValue(cp, key).None? ==> r == Ok([])
    ensures StoredValue(cp, key).Some? ==> r == ParseAll(Split(GetProperty(cp, key).value, seps), parse)
  {
    match GetProperty(cp, key)
    case None => Ok([])
    case Some(v) => ParseAll(Split(v, seps), parse)
  }

  /** `getTypedListProperty(key, format)`: splits on `" ,;"`. */
  ghost function GetTypedListProperty<T>(cp: ContextProperties, key: string, parse: string -> Result<T>): (r: Result<seq<T>>)
    ensures StoredValue(cp, key).None? ==> r == Ok([])
    ensures StoredValue(cp, key).Some? ==>
      r == ParseAll(Split(GetProperty(cp, key).value, " ,;"), parse)
  {
    GetTypedListPropertyWith(cp, key, parse, ListSeparatorChars)
  }

  /**
    `getTypedListProperty(key, format, defaultValue, separatorChars)`: an
    absent key re-splits `join(default, ",")`. The separator argument is not
    used; the split is always on `" ,;"`.
   */
  ghost function GetTypedListPropertyOrWith<T>(cp: ContextProperties, key: string, parse: string -> Result<T>,
                                               d: seq<T>, show: T -> string, seps: string): (r: Result<seq<T>>)
    ensures StoredValue(cp, key).None? ==>
      r == ParseAll(Split(ApplyReplacements(Join(Shown(d, show), ","), cp.replacements), " ,;"), parse)
    ensures StoredValue(cp, key).Some? ==>
      r == ParseAll(Split(GetPropertyOr(cp, key, None).value, " ,;"), parse)
  {
    var property := GetPropertyOr(cp, key, Some(Join(Shown(d, show), ",")));
    ParseAll(Split(property.value, ListSeparatorChars), parse)
  }

  /** `getTypedListProperty(key, format, defaultValue)` */
  ghost function GetTypedListPropertyOr<T>(cp: ContextProperties, key: string, parse: string -> Result<T>,
                                           d: seq<T>, show: T -> string): (r: Result<seq<T>>)
    ensures StoredValue(cp, key).None? ==>
      r == ParseAll(Split(ApplyReplacements(Join(Shown(d, show), ","), cp.replacements), " ,;"), parse)
    ensures StoredValue(cp, key).Some? ==>
      r == ParseAll(Split(GetPropertyOr(cp, key, None).value, " ,;"), parse)
  {
    GetTypedListPropertyOrWith(cp, key, parse, d, show, ListSeparatorChars)
  }

  /** `getListProperty(key, separatorChars)`: empty when absent. */
  ghost function GetListPropertyWith(cp: ContextProperties, key: string, seps: string): (r: seq<string>)
    ensures StoredValue(cp, key).None? ==> r == []
    ensures StoredValue(cp, key).Some? ==> r == Split(GetProperty(cp, key).value, seps)
    ensures forall i :: 0 <= i < |r| ==> r[i] != [] && NoneIn(r[i], seps)
  {
    match GetProperty(cp, key)
    case None => []
    case Some(v) => Split(v, seps)
  }

  /** `getListProperty(key)`: splits on `" ,;"`. */
  ghost function GetListProperty(cp: ContextProperties, key: string): (r: seq<string>)
    ensures StoredValue(cp, key).None? ==> r == []
    ensures StoredValue(cp, key).Some? ==> r == Split(GetProperty(cp, key).value, " ,;")
  {
    GetListPropertyWith(cp, key, ListSeparatorChars)
  }

  /**
    `getListProperty(key, defaultValue, separatorChars)`: an absent key
    re-splits `join(default, ",")` on the given separators.
   */
  ghost function GetListPropertyOrWith(cp: ContextProperties, key: string, d: seq<string>, seps: string): (r: seq<string>)
    ensures StoredValue(cp, key).None? ==>
      r == Split(ApplyReplacements(Join(d, ","), cp.replacements), seps)
    ensures StoredValue(cp, key).Some? ==> r == Split(GetPropertyOr(cp, key, None).value, seps)
  {
    Split(GetPropertyOr(cp, key, Some(Join(d, ","))).value, seps)
  }

  /** `getListProperty(key, defaultValue)` */
  ghost function GetListPropertyOr(cp: ContextProperties, key: string, d: seq<string>): (r: seq<string>)
    ensures StoredValue(cp, key).None? ==>
      r == Split(ApplyReplacements(Join(d, ","), cp.replacements), " ,;")
    ensures StoredValue(cp, key).Some? ==> r == Split(GetPropertyOr(cp, key, None).value, " ,;")
  {
    GetListPropertyOrWith(cp, key, d, ListSeparatorChars)
  }

  /**
    For an absent key a default list comes back as it is exactly when its
    elements are non-empty and free of separators (and of `$`, so that no
    placeholder can touch the joined text); `,` must be a separator.
   */
  lemma ListDefaultRoundTrip(cp: ContextProperties, key: string, d: seq<string>, seps: string)
    requires StoredValue(cp, key).None?
    requires ',' in seps
    requires forall i :: 0 <= i < |d| ==> '$' !in d[i]
    ensures GetListPropertyOrWith(cp, key, d, seps) == d
        <==> forall i :: 0 <= i < |d| ==> d[i] != [] && NoneIn(d[i], seps)
  {
    JoinAvoids(d, ",", '$');
    ApplyWithoutDollar(Join(d, ","), cp.replacements);
    SplitJoin(d, ",", seps);
  }

  /** A default element holding a separator is split apart: ["a b"] reads back as ["a", "b"]. */
  lemma ListDefaultSplitsElement(cp: ContextProperties, key: string)
    requires StoredValue(cp, key).None?
    ensures GetListPropertyOr(cp, key, ["a b"]) == ["a", "b"]
  {
    assert Join(["a b"], ",") == "a b";
    ApplyWithoutDollar("a b", cp.replacements);
    var gaps: seq<string> := ["", " ", ""];
    var toks: seq<string> := ["a", "b"];
    assert Interleave(gaps, toks) == "a b";
    SplitInterleave(gaps, toks, " ,;");
  }

  /** A value written as a joined list is read back as that list. */
  lemma {:induction false} PutListThenGet(cp: ContextProperties, key: string, xs: seq<string>)
    requires forall i :: 0 <= i < |xs| ==> xs[i] != [] && NoneIn(xs[i], " ,;") && '$' !in xs[i]
    ensures GetListProperty(Put(cp, key, Join(xs, ",")).0, key) == xs
  {
    var v := Join(xs, ",");
    JoinAvoids(xs, ",", '$');
    ApplyWithoutDollar(v, cp.replacements);
    PutThenGet(cp, key, v, key);
    SplitJoin(xs, ",", " ,;");
    assert Split(v, ListSeparatorChars) == xs;
  }
}
