/**
  `ContextPropertiesFactory` of the older top-level module. Its state, its
  constructor, `withDefaultProperties(Properties)`, `withProperties` and
  `loadProperties` are the same code as the newer factory's and are shared
  with `PropsFactory`; only the `fromResource` forms differ, as they build the
  older ContextProperties.
 */
module LegacyPropsFactory {
  import opened Outcomes
  import JavaProperties
  import opened Namespace
  import opened Coercion
  import PropsFactory
  import ContextProps
  import LegacyContextProps

  /** The older ContextProperties over the chain built for `loaded`. */
  function Build(f: PropsFactory.Factory, loaded: map<string, string>): LegacyContextProps.ContextProperties {
    LegacyContextProps.New(f.context, Some(PropsFactory.LoadProperties(f, loaded)))
  }

  /** The lookup order of a built view: parent's own entries, loaded entries, defaults. */
  ghost predicate ReadsLayered(cp: LegacyContextProps.ContextProperties, f: PropsFactory.Factory, loaded: map<string, string>) {
    && cp.context == f.context
    && forall key :: (LegacyContextProps.GetProperty(cp, key) ==
      var full := KeyWithContext(f.context, key);
      if full in f.parentProperties.table then Some(f.parentProperties.table[full])
      else if full in loaded then Some(loaded[full])
      else JavaProperties.GetProperty(f.defaultProperties, full))
  }

  /** `fromResource(url, charset)`: a failing open or load is thrown. */
  function FromResourceUrl<U>(f: PropsFactory.Factory, url: U, open: U -> Result<map<string, string>>): (r: Result<LegacyContextProps.ContextProperties>)
    ensures r.Err? <==> open(url).Err?
    ensures r.Err? ==> r.error == open(url).error
    ensures r.Ok? ==> ReadsLayered(r.value, f, open(url).value)
  {
    match open(url)
    case Err(e) => Err(e)
    case Ok(loaded) => Ok(Build(f, loaded))
  }

  /** `fromResource(file, charset)`: a failing read is thrown. */
  function FromResourceFile(f: PropsFactory.Factory, file: File, read: File -> Result<map<string, string>>): (r: Result<LegacyContextProps.ContextProperties>)
    ensures r.Err? <==> read(file).Err?
    ensures r.Err? ==> r.error == read(file).error
    ensures r.Ok? ==> ReadsLayered(r.value, f, read(file).value)
  {
    FromResourceUrl(f, file, read)
  }

  /**
    `fromResource(uri, charset)`: the URI becomes a File (`IllegalArgument`
    for a URI that names no file), then the file is read.
   */
  function FromResourceUri<I>(f: PropsFactory.Factory, uri: I, toFile: I -> Result<File>,
                              read: File -> Result<map<string, string>>): (r: Result<LegacyContextProps.ContextProperties>)
    ensures toFile(uri).Err? ==> r == Err(toFile(uri).error)
    ensures toFile(uri).Ok? ==> r == FromResourceFile(f, toFile(uri).value, read)
  {
    match toFile(uri)
    case Err(e) => Err(e)
    case Ok(file) => FromResourceFile(f, file, read)
  }

  /**
    For the same factory and resource, the older view reads what the newer
    view reads before any replacement is registered.
   */
  lemma AgreesWithNewerFactory<U>(f: PropsFactory.Factory, url: U, open: U -> Result<map<string, string>>, key: string)
    ensures FromResourceUrl(f, url, open).Ok? <==> PropsFactory.FromResourceUrl(f, url, open).Ok?
    ensures FromResourceUrl(f, url, open).Ok? ==>
      LegacyContextProps.GetProperty(FromResourceUrl(f, url, open).value, key)
        == ContextProps.GetProperty(PropsFactory.FromResourceUrl(f, url, open).value, key)
  {
    if open(url).Ok? {
      LegacyContextProps.AgreesWithoutReplacements(f.context, PropsFactory.LoadProperties(f, open(url).value), key, None);
    }
  }
}
