/**
  `ContextPropertiesFactory` of the newer module: it remembers a context, a
  set of default properties and a set of overriding parent properties, and
  builds a ContextProperties whose lookup chain is the parent's own entries,
  then the loaded resource, then the defaults.

  Reading a resource is outside the model: an `open` or `read` function
  stands for opening the stream and `Properties.load`, giving the loaded
  entries or an I/O error.
 */
module PropsFactory {
  import opened Outcomes
  import opened Strings
  import JavaProperties
  import opened Namespace
  import opened Replacements
  import opened Coercion
  import ContextProps

  datatype Factory = Factory(
    context: string,
    defaultProperties: JavaProperties.Properties,
    parentProperties: JavaProperties.Properties)

  /** `new ContextPropertiesFactory(context)`: empty defaults and empty parent properties. */
  function New(context: string): (f: Factory)
    ensures f.context == context
    ensures forall k :: JavaProperties.GetProperty(f.defaultProperties, k).None?
    ensures forall k :: JavaProperties.GetProperty(f.parentProperties, k).None?
  {
    Factory(context, JavaProperties.Empty(), JavaProperties.Empty())
  }

  /** `withDefaultProperties(properties)`: null is rejected. */
  function WithDefaultProperties(f: Factory, p: Option<JavaProperties.Properties>): (r: Result<Factory>)
    ensures r.Err? <==> p.None?
    ensures r.Err? ==> r.error == NullPointer
    ensures r.Ok? ==> (
      && r.value.context == f.context
      && r.value.parentProperties == f.parentProperties
      && r.value.defaultProperties == p.value)
  {
    match p
    case None => Err(NullPointer)
    case Some(d) => Ok(f.(defaultProperties := d))
  }

  /**
    `withDefaultProperties(resource)`: the defaults become exactly the entries
    loaded from the resource, with no defaults of their own; a failing read
    is thrown.
   */
  function WithDefaultResource(f: Factory, loaded: Result<map<string, string>>): (r: Result<Factory>)
    ensures r.Err? <==> loaded.Err?
    ensures r.Err? ==> r.error == loaded.error
    ensures r.Ok? ==> (
      && r.value.context == f.context
      && r.value.parentProperties == f.parentProperties
      && JavaProperties.Layers(r.value.defaultProperties) == [loaded.value]
      && forall k :: JavaProperties.GetProperty(r.value.defaultProperties, k)
           == if k in loaded.value then Some(loaded.value[k]) else None)
  {
    match loaded
    case Err(e) => Err(e)
    case Ok(entries) => Ok(f.(defaultProperties := JavaProperties.Properties(entries, None)))
  }

  /** `withProperties(properties)`: null is rejected. */
  function WithProperties(f: Factory, p: Option<JavaProperties.Properties>): (r: Result<Factory>)
    ensures r.Err? <==> p.None?
    ensures r.Err? ==> r.error == NullPointer
    ensures r.Ok? ==> (
      && r.value.context == f.context
      && r.value.defaultProperties == f.defaultProperties
      && r.value.parentProperties == p.value)
  {
    match p
    case None => Err(NullPointer)
    case Some(q) => Ok(f.(parentProperties := q))
  }

  /**
    `loadProperties`: the loaded entries over the defaults, and a fresh
    Properties over those holding a copy of the parent's own entries. A key
    is looked up in the parent's own entries first, then in the loaded
    entries, then along the defaults chain; the parent's own defaults are not
    consulted.
   */
  function LoadProperties(f: Factory, loaded: map<string, string>): (p: JavaProperties.Properties)
    ensures JavaProperties.Layers(p)
         == [f.parentProperties.table, loaded] + JavaProperties.Layers(f.defaultProperties)
    ensures forall k :: (JavaProperties.GetProperty(p, k) ==
      if k in f.parentProperties.table then Some(f.parentProperties.table[k])
      else if k in loaded then Some(loaded[k])
      else JavaProperties.GetProperty(f.defaultProperties, k))
  {
    var resource := JavaProperties.Properties(loaded, Some(f.defaultProperties));
    var p := JavaProperties.PutAll(JavaProperties.WithDefaults(resource), f.parentProperties);
    assert p.table == f.parentProperties.table;
    p
  }

  /** The ContextProperties over the chain built for `loaded`. */
  function Build(f: Factory, loaded: map<string, string>): ContextProps.ContextProperties {
    ContextProps.New(f.context, Some(LoadProperties(f, loaded)))
  }

  /** A built view reads the prefixed key along the chain and has no replacements. */
  lemma BuildReads(f: Factory, loaded: map<string, string>, key: string)
    ensures Build(f, loaded).context == f.context && Build(f, loaded).replacements == map[]
    ensures var full := KeyWithContext(f.context, key);
      ContextProps.StoredValue(Build(f, loaded), key) ==
        if full in f.parentProperties.table then Some(f.parentProperties.table[full])
        else if full in loaded then Some(loaded[full])
        else JavaProperties.GetProperty(f.defaultProperties, full)
  {
  }

  /** `fromResource(url, charset)`: a failing open or load is thrown. */
  function FromResourceUrl<U>(f: Factory, url: U, open: U -> Result<map<string, string>>): (r: Result<ContextProps.ContextProperties>)
    ensures r.Err? <==> open(url).Err?
    ensures r.Err? ==> r.error == open(url).error
    ensures r.Ok? ==> r.value == Build(f, open(url).value)
  {
    match open(url)
    case Err(e) => Err(e)
    case Ok(loaded) => Ok(Build(f, loaded))
  }

  /** `fromResource(file, charset)`: a failing read is thrown. */
  function FromResourceFile(f: Factory, file: File, read: File -> Result<map<string, string>>): (r: Result<ContextProps.ContextProperties>)
    ensures r.Err? <==> read(file).Err?
    ensures r.Err? ==> r.error == read(file).error
    ensures r.Ok? ==> r.value == Build(f, read(file).value)
  {
    FromResourceUrl(f, file, read)
  }

  /**
    `fromResource(uri, charset)`: the URI becomes a File (which fails with
    `IllegalArgument` for a URI that names no file), then the file is read.
   */
  function FromResourceUri<I>(f: Factory, uri: I, toFile: I -> Result<File>,
                              read: File -> Result<map<string, string>>): (r: Result<ContextProps.ContextProperties>)
    ensures toFile(uri).Err? ==> r == Err(toFile(uri).error)
    ensures toFile(uri).Ok? ==> r == FromResourceFile(f, toFile(uri).value, read)
  {
    match toFile(uri)
    case Err(e) => Err(e)
    case Ok(file) => FromResourceFile(f, file, read)
  }

  /**
    `fromDefaults()`: the same chain as `fromResource` with nothing loaded:
    the parent's own entries over the defaults.
   */
  function FromDefaults(f: Factory): (cp: ContextProps.ContextProperties)
    ensures cp == Build(f, map[])
    ensures forall key :: (ContextProps.StoredValue(cp, key) ==
      var full := KeyWithContext(f.context, key);
      if full in f.parentProperties.table then Some(f.parentProperties.table[full])
      else JavaProperties.GetProperty(f.defaultProperties, full))
  {
    Build(f, map[])
  }

  /**
    `getUserResourceURL(fileKey, urlKey)`: both keys are read, with the
    context prefix, from the system properties. The URL key is parsed first,
    so a malformed URL is thrown even when the file key is set; a file key
    that is set wins over the URL key; neither gives null.
   */
  function GetUserResourceURL<U>(f: Factory, system: JavaProperties.Properties, fileKey: string, urlKey: string,
                                 newUrl: string -> Result<U>, fileToUrl: File -> Result<U>): (r: Result<Option<U>>)
    ensures var fileValue := JavaProperties.GetProperty(system, KeyWithContext(f.context, fileKey));
      var urlValue := JavaProperties.GetProperty(system, KeyWithContext(f.context, urlKey));
      && (urlValue.Some? && newUrl(urlValue.value).Err? ==> r == Err(newUrl(urlValue.value).error))
      && (urlValue.Some? && newUrl(urlValue.value).Ok? && fileValue.None? ==> r == Ok(Some(newUrl(urlValue.value).value)))
      && (urlValue.None? && fileValue.None? ==> r == Ok(None))
      && ((urlValue.None? || newUrl(urlValue.value).Ok?) && fileValue.Some? ==>
            r == Lift(fileToUrl(File(fileValue.value))))
  {
    var cp := ContextProps.New(f.context, Some(system));
    var file := match ContextProps.StoredValue(cp, fileKey)
      case None => None
      case Some(path) => Some(File(path));
    var url := match ContextProps.StoredValue(cp, urlKey)
      case None => Ok(None)
      case Some(text) => Lift(newUrl(text));
    if url.Err? then Err(url.error)
    else if file.Some? then Lift(fileToUrl(file.value))
    else url
  }

  /**
    The discovery reads through the ContextProperties getters with null
    defaults, as the source does.
   */
  lemma UserResourceUsesContextGetters<U>(f: Factory, system: JavaProperties.Properties, fileKey: string, urlKey: string,
                                          newUrl: string -> Result<U>, fileToUrl: File -> Result<U>)
    ensures var cp := ContextProps.New(f.context, Some(system));
      var file := ContextProps.GetFilePropertyOr(cp, fileKey, None);
      var url := ContextProps.GetURLPropertyOr(cp, urlKey, None, newUrl);
      GetUserResourceURL(f, system, fileKey, urlKey, newUrl, fileToUrl) ==
        if url.Err? then Err(url.error)
        else if file.Some? then Lift(fileToUrl(file.value))
        else url
  {
    var cp := ContextProps.New(f.context, Some(system));
    assert ContextProps.GetProperty(cp, fileKey) == ContextProps.StoredValue(cp, fileKey);
    assert ContextProps.GetProperty(cp, urlKey) == ContextProps.StoredValue(cp, urlKey);
  }

  /**
    `fromUserResources(resource, fileKey, urlKey)`: the resource found through
    the system properties if any, else the given one.
   */
  function FromUserResources<U>(f: Factory, resource: U, system: JavaProperties.Properties, fileKey: string, urlKey: string,
                                newUrl: string -> Result<U>, fileToUrl: File -> Result<U>,
                                open: U -> Result<map<string, string>>): (r: Result<ContextProps.ContextProperties>)
    ensures var user := GetUserResourceURL(f, system, fileKey, urlKey, newUrl, fileToUrl);
      && (user.Err? ==> r == Err(user.error))
      && (user == Ok(None) ==> r == FromResourceUrl(f, resource, open))
      && (user.Ok? && user.value.Some? ==> r == FromResourceUrl(f, user.value.value, open))
  {
    match GetUserResourceURL(f, system, fileKey, urlKey, newUrl, fileToUrl)
    case Err(e) => Err(e)
    case Ok(user) => FromResourceUrl(f, if user.Some? then user.value else resource, open)
  }

  /**
    A user file named in the system properties under the prefixed file key is
    read instead of the fallback resource, provided the URL key is unset.
   */
  lemma UserFileOverridesResource<U>(f: Factory, resource: U, system: JavaProperties.Properties, fileKey: string,
                                     urlKey: string, newUrl: string -> Result<U>, fileToUrl: File -> Result<U>,
                                     open: U -> Result<map<string, string>>, path: string, u: U)
    requires JavaProperties.GetProperty(system, KeyWithContext(f.context, fileKey)) == Some(path)
    requires JavaProperties.GetProperty(system, KeyWithContext(f.context, urlKey)).None?
    requires fileToUrl(File(path)) == Ok(u)
    ensures FromUserResources(f, resource, system, fileKey, urlKey, newUrl, fileToUrl, open)
         == FromResourceUrl(f, u, open)
  {
  }

  /** The one placeholder of `${HOME}/t.txt` replaced by "/home/u". */
  lemma ReplaceHome()
    ensures ApplyReplacements("${HOME}/t.txt", map["HOME" := "/home/u"]) == "/home/u/t.txt"
  {
    var t, q, r := Token("HOME"), "/t.txt", "/home/u";
    ReplaceMatchStep(t, q, r);
    NoOccurrenceWithoutHead(t, q);
    ApplySingle(t + q, "HOME", r);
    assert t + q == "${HOME}/t.txt";
  }

  /**
    With the context "app" and a resource holding `app.timeout` as
    `${HOME}/t.txt`, registering HOME as "/home/u" makes `timeout` read as
    "/home/u/t.txt".
   */
  lemma EndToEndSubstitution<U>(url: U, open: U -> Result<map<string, string>>)
    requires open(url) == Ok(map["app.timeout" := "${HOME}/t.txt"])
    ensures FromResourceUrl(New("app"), url, open).Ok?
    ensures var cp := FromResourceUrl(New("app"), url, open).value;
      ContextProps.GetProperty(ContextProps.WithReplacement(cp, "HOME", "/home/u"), "timeout")
        == Some("/home/u/t.txt")
  {
    var loaded := map["app.timeout" := "${HOME}/t.txt"];
    var cp := Build(New("app"), loaded);
    assert "timeout"[..3][0] == 't';
    assert KeyWithContext("app", "timeout") == "app.timeout";
    BuildReads(New("app"), loaded, "timeout");
    assert ContextProps.StoredValue(cp, "timeout") == Some("${HOME}/t.txt");
    var withHome := ContextProps.WithReplacement(cp, "HOME", "/home/u");
    assert withHome.replacements == map["HOME" := "/home/u"];
    assert ContextProps.StoredValue(withHome, "timeout") == Some("${HOME}/t.txt");
    ReplaceHome();
  }
}
