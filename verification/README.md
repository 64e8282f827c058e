# propertiesutils in Dafny

A model of the core of propertiesutils, a Java library that reads
application settings from `java.util.Properties`:

- **ContextProperties** (newer and older variant) is a view of a Properties
  chain in which every key is prefixed with a context (a package name such
  as `com.example.app`). Values are converted by typed getters (boolean,
  number, character, charset, URL, URI, file, `Format`-parsed objects,
  lists). The newer variant also substitutes `${name}` placeholders with
  registered replacement texts.
- **TypedProperties** offers the same typed getters over a plain Properties,
  without a prefix or substitution, and with configurable list separators.
- **ContextPropertiesFactory** (newer and older) builds the lookup chain
  "parent's own entries, then the loaded resource, then the defaults". The
  newer one can also build a chain with nothing loaded (`fromDefaults`), and
  can pick a user resource named in the system properties
  (`fromUserResources`).
- **MapEntryToString** turns an argument or a map entry into text, in a
  null-tolerant and a null-rejecting form.

A Properties is a datatype: an own table and an optional defaults chain.
Objects are immutable, so an operation that mutates a Java object returns
the updated value. Exceptions are `Err` values of a `Result`, and null is
`None` of an `Option`.

Parsers the library takes from the JDK or from its callers are function
parameters of type `string -> Result<T>`. These are `Double.parseDouble`,
`Charset.forName`, `new URL`, `new URI`, `URI.toURL`,
`File.toURI().toURL()`, a `Format` and a `StringToType`. The model states
precisely what text each parser is handed and how its failure propagates.
`Boolean.parseBoolean`, `String.valueOf`, `charAt(0)`, and commons-lang
`StringUtils.split`, `StringUtils.join` and `StringUtils.replace` are
defined in the model.

The placeholder substitution iterates a HashMap of replacements, so the
order of the names is unspecified. The model picks the next name with
Dafny's `:|` (`Replacements.Pick`), so the substitution and every getter of
the newer ContextProperties are ghost functions. The order can matter: for
`${${a}b}` with `a` registered as the empty text and `b` as `x`, taking `a`
first gives `x` and taking `b` first gives `${b}`. The model proves the
result wherever the order cannot matter. That covers a value made of text
without `$` and placeholders of registered names, when no name contains `$`
or `}` and no registered text contains `$`
(`Replacements.EveryPlaceholderReplaced`).

Modules:

| module | file | contents |
|---|---|---|
| Outcomes | outcomes.dfy | `Option`, `Result`, `Error` |
| Strings | strings.dfy | commons-lang `startsWith`, `split`, `join`, `replace` and their lemmas |
| JavaProperties | java_properties.dfy | the Properties chain, `getProperty`, `put`, `putAll` |
| Coercion | coercion.dfy | the shared conversions |
| Namespace | namespace.dfy | `keyWithContext` |
| Replacements | replacements.dfy | `applyReplacements` |
| ContextProps | context_properties.dfy | the newer ContextProperties |
| TypedProps | typed_properties.dfy | TypedProperties |
| LegacyContextProps | legacy_context_properties.dfy | the older ContextProperties |
| PropsFactory | properties_factory.dfy | the newer factory |
| LegacyPropsFactory | legacy_properties_factory.dfy | the older factory's `fromResource` forms |
| MapEntryToString | map_entry_to_string.dfy | MapEntryToString |

## Model

| member | source | states |
|---|---|---|
| JavaProperties.Empty | propertiesutils-contextproperties/src/main/java/com/anrisoftware/propertiesutils/ContextPropertiesFactory.java:84-85 | `new Properties()` holds no entry: every key reads null |
| JavaProperties.WithDefaults | propertiesutils-contextproperties/src/main/java/com/anrisoftware/propertiesutils/ContextPropertiesFactory.java:330 | `new Properties(defaults)` starts empty, so every key reads what the defaults read |
| JavaProperties.GetProperty | propertiesutils-contextproperties/src/main/java/com/anrisoftware/propertiesutils/ContextProperties.java:190 | `Properties.getProperty`: an own entry is returned before any default; without defaults a key reads a value exactly when the own table holds it |
| JavaProperties.Put | propertiesutils-contextproperties/src/main/java/com/anrisoftware/propertiesutils/ContextProperties.java:737-740 | `Hashtable.put` on the own table: afterwards the key reads the new value, every other key reads what it read before, the defaults are kept, and the previous own entry is returned |
| JavaProperties.PutAll | propertiesutils-contextproperties/src/main/java/com/anrisoftware/propertiesutils/ContextPropertiesFactory.java:333-334 | `putAll` copies only the argument's own entries: those keys read the copied values, all other keys read what they read before |
| JavaProperties.Layers | propertiesutils-contextproperties/src/main/java/com/anrisoftware/propertiesutils/ContextPropertiesFactory.java:330-335 | the tables of a chain, own table first |
| JavaProperties.FirstHit | propertiesutils-contextproperties/src/main/java/com/anrisoftware/propertiesutils/ContextPropertiesFactory.java:330-335 | the reference lookup: null exactly when no layer holds the key, else the value of the first layer that holds it |
| JavaProperties.LookupIsFirstHit | propertiesutils-contextproperties/src/main/java/com/anrisoftware/propertiesutils/ContextProperties.java:189-192 | a Properties lookup through the defaults chain is the first-hit search over its layers |
| Namespace.KeyWithContext | propertiesutils-contextproperties/src/main/java/com/anrisoftware/propertiesutils/ContextProperties.java:742-747 | the prefixed key always starts with the context; a key that already starts with the context is kept, any other key becomes `context.key` |
| Namespace.KeyWithContextIdempotent | propertiesutils-contextproperties/src/main/java/com/anrisoftware/propertiesutils/ContextProperties.java:742-747 | prefixing twice is prefixing once |
| Namespace.QualifiedKeySameEntry | propertiesutils-contextproperties/src/main/java/com/anrisoftware/propertiesutils/ContextProperties.java:742-747 | `key` and `context.key` name the same entry exactly when `key` does not start with the context (there is no check for the dot) |
| Strings.Split | propertiesutils-contextproperties/src/main/java/com/anrisoftware/propertiesutils/ContextProperties.java:683-687 | commons-lang `split`: every token is non-empty and free of separators, and the tokens concatenate to the input with all separators removed |
| Strings.SplitInterleave | propertiesutils-contextproperties/src/main/java/com/anrisoftware/propertiesutils/ContextProperties.java:683-687 | the tokens are the maximal separator-free runs of any layout of tokens and separator runs |
| Strings.StartsWithCharwise | propertiesutils-contextproperties/src/main/java/com/anrisoftware/propertiesutils/ContextProperties.java:743 | commons-lang `startsWith`: the prefix is no longer than the text and agrees with it character by character (both directions) |
| Strings.Join | propertiesutils-contextproperties/src/main/java/com/anrisoftware/propertiesutils/ContextProperties.java:727 | commons-lang `join`: the empty list joins to the empty text; otherwise the result begins with the first element and is as long as the elements together plus one separator between each pair |
| Strings.SplitJoin | propertiesutils-contextproperties/src/main/java/com/anrisoftware/propertiesutils/ContextProperties.java:725-729 | splitting a joined list gives the list back exactly when every element is non-empty and separator-free (both directions) |
| Strings.SplitJoinElements | propertiesutils-contextproperties/src/main/java/com/anrisoftware/propertiesutils/ContextProperties.java:725-729 | the forward direction of that round trip |
| Strings.JoinAvoids | propertiesutils-contextproperties/src/main/java/com/anrisoftware/propertiesutils/ContextProperties.java:725-729 | a character found in neither the elements nor the join separator is not in the joined text |
| Strings.Replace | propertiesutils-contextproperties/src/main/java/com/anrisoftware/propertiesutils/ContextProperties.java:200-210 | commons-lang `StringUtils.replace`: text without the target is unchanged, and replacing the target by itself changes nothing |
| Strings.ReplaceSkips | propertiesutils-contextproperties/src/main/java/com/anrisoftware/propertiesutils/ContextProperties.java:200-210 | for a self-overlap-free target, replacement runs left to right: the prefix before the first match is kept and the match becomes the replacement |
| Strings.ReplaceSkipsPrefix | propertiesutils-contextproperties/src/main/java/com/anrisoftware/propertiesutils/ContextProperties.java:207 | the scan copies unchanged a prefix at none of whose positions the target begins |
| Strings.ReplaceJoin | propertiesutils-contextproperties/src/main/java/com/anrisoftware/propertiesutils/ContextProperties.java:200-210 | every occurrence is replaced: parts joined with the target become the parts joined with the replacement |
| Replacements.Token | propertiesutils-contextproperties/src/main/java/com/anrisoftware/propertiesutils/ContextProperties.java:74 | the `${name}` token starts with `$`, has the name's length plus three, and cannot overlap itself when the name holds no `}` |
| Replacements.ApplyReplacements | propertiesutils-contextproperties/src/main/java/com/anrisoftware/propertiesutils/ContextProperties.java:200-210 | a value that holds none of the registered tokens is returned unchanged, in any order of the names |
| Replacements.ApplyOpt | propertiesutils-contextproperties/src/main/java/com/anrisoftware/propertiesutils/ContextProperties.java:200-210 | null stays null and token-free text is unchanged |
| Replacements.ApplyWithoutDollar | propertiesutils-contextproperties/src/main/java/com/anrisoftware/propertiesutils/ContextProperties.java:200-210 | text without `$` is never changed by the substitution |
| Replacements.ApplySingle | propertiesutils-contextproperties/src/main/java/com/anrisoftware/propertiesutils/ContextProperties.java:200-210 | with one registered name the substitution is a single `replace` of its token |
| Replacements.EveryOccurrenceReplaced | propertiesutils-contextproperties/src/main/java/com/anrisoftware/propertiesutils/ContextProperties.java:200-210 | with one registered name free of `}`, every occurrence of `${name}` becomes the replacement text, however often it occurs and whatever else the text holds |
| Replacements.TokensDiffer | propertiesutils-contextproperties/src/main/java/com/anrisoftware/propertiesutils/ContextProperties.java:207 | the placeholders of two different names free of `}` never begin at the same position |
| Replacements.ReplaceInterleaved | propertiesutils-contextproperties/src/main/java/com/anrisoftware/propertiesutils/ContextProperties.java:204-208 | one round of the loop replaces exactly the placeholders of the round's name and leaves the other placeholders and the text between them alone |
| Replacements.ApplyInterleaved | propertiesutils-contextproperties/src/main/java/com/anrisoftware/propertiesutils/ContextProperties.java:204-208 | the remaining rounds, in any order, replace every placeholder whose name is still to come |
| Replacements.EveryPlaceholderReplaced | propertiesutils-contextproperties/src/main/java/com/anrisoftware/propertiesutils/ContextProperties.java:200-210 | with any number of registered names, in any order: text without `$` interleaved with placeholders of registered names comes out with each placeholder replaced by its name's text, when no name contains `$` or `}` and no text contains `$` |
| Coercion.Lowered | propertiesutils-contextproperties/src/main/java/com/anrisoftware/propertiesutils/ContextProperties.java:237-240 | ASCII lower-casing keeps the length and lowers each character |
| Coercion.ParseBoolean | propertiesutils-contextproperties/src/main/java/com/anrisoftware/propertiesutils/ContextProperties.java:237-240 | `Boolean.parseBoolean` is true exactly for "true" in any letter case |
| Coercion.ParseBooleanValueOf | propertiesutils-contextproperties/src/main/java/com/anrisoftware/propertiesutils/ContextProperties.java:254-257 | the text of a Boolean default parses back to it, and a null default parses to false |
| Coercion.Lift | propertiesutils-contextproperties/src/main/java/com/anrisoftware/propertiesutils/ContextProperties.java:268-271 | a parser's value is returned as a non-null object and its error is rethrown unchanged |
| Coercion.ValueOf | propertiesutils-contextproperties/src/main/java/com/anrisoftware/propertiesutils/ContextProperties.java:255 | `String.valueOf(Object)`: the text `null` for null, else the object's string form |
| Coercion.CharAt0 | propertiesutils-contextproperties/src/main/java/com/anrisoftware/propertiesutils/ContextProperties.java:305-308 | `charAt(0)` fails with an index error exactly on the empty text, else gives the first character |
| Coercion.Shown | propertiesutils-contextproperties/src/main/java/com/anrisoftware/propertiesutils/ContextProperties.java:637-645 | the elements' string forms, in order |
| Coercion.ParseAll | propertiesutils-contextproperties/src/main/java/com/anrisoftware/propertiesutils/ContextProperties.java:575-586 | the parse loop succeeds exactly when every token parses, with the values in order; otherwise it throws the error of the first token that fails |
| ContextProps.StoredValue | propertiesutils-contextproperties/src/main/java/com/anrisoftware/propertiesutils/ContextProperties.java:190 | the raw entry for the prefixed key is the first-hit search over the chain's layers |
| ContextProps.New | propertiesutils-contextproperties/src/main/java/com/anrisoftware/propertiesutils/ContextProperties.java:115-119 | a new view has no replacements and reads each prefixed key from the parent, or null without a parent |
| ContextProps.WithReplacements | propertiesutils-contextproperties/src/main/java/com/anrisoftware/propertiesutils/ContextProperties.java:141-154 | a null map is rejected; otherwise all its entries are registered over the earlier ones, and the other registrations are kept |
| ContextProps.WithReplacement | propertiesutils-contextproperties/src/main/java/com/anrisoftware/propertiesutils/ContextProperties.java:172-175 | one name is registered or overwritten and the others are kept |
| ContextProps.GetProperty | propertiesutils-contextproperties/src/main/java/com/anrisoftware/propertiesutils/ContextProperties.java:189-192 | null exactly when the prefixed key is absent, else the stored value after substitution; a token-free value is returned verbatim |
| ContextProps.GetPropertyOr | propertiesutils-contextproperties/src/main/java/com/anrisoftware/propertiesutils/ContextProperties.java:195-198 | an absent key gives the default after one substitution; a stored value passes the substitution a second time; a non-null default never yields null |
| ContextProps.Get | propertiesutils-contextproperties/src/main/java/com/anrisoftware/propertiesutils/ContextProperties.java:732-734 | `get` reads like `getProperty` |
| ContextProps.Put | propertiesutils-contextproperties/src/main/java/com/anrisoftware/propertiesutils/ContextProperties.java:737-740 | stores under the prefixed key: that key reads the new value, keys with another prefixed form are unaffected, and the previous own entry is returned |
| ContextProps.PutThenGet | propertiesutils-contextproperties/src/main/java/com/anrisoftware/propertiesutils/ContextProperties.java:737-740 | after `put` the key reads the substituted value, `get` agrees, and other keys are unchanged |
| ContextProps.QualifiedKeyReadsSameEntry | propertiesutils-contextproperties/src/main/java/com/anrisoftware/propertiesutils/ContextProperties.java:742-747 | a key not starting with the context reads the same as its qualified form |
| ContextProps.PrefixWithoutDotCounterexample | propertiesutils-contextproperties/src/main/java/com/anrisoftware/propertiesutils/ContextProperties.java:742-747 | in context "app" the key "apple" is not prefixed and misses the entry `app.apple` |
| ContextProps.DoubleReplacementCounterexample | propertiesutils-contextproperties/src/main/java/com/anrisoftware/propertiesutils/ContextProperties.java:195-198 | the double substitution is visible: "${${a}a}" with a registered as "" reads "${a}" without a default and "" with one |
| ContextProps.GetStringProperty | propertiesutils-contextproperties/src/main/java/com/anrisoftware/propertiesutils/ContextProperties.java:224-226 | the substituted default when absent, else the stored value read as with a null default |
| ContextProps.GetBooleanProperty | propertiesutils-contextproperties/src/main/java/com/anrisoftware/propertiesutils/ContextProperties.java:237-240 | null exactly when absent, else true exactly for "true" in any case |
| ContextProps.GetBooleanPropertyOr | propertiesutils-contextproperties/src/main/java/com/anrisoftware/propertiesutils/ContextProperties.java:254-257 | never throws: an absent key gives true exactly for the default true (a null default gives false) |
| ContextProps.GetNumberProperty | propertiesutils-contextproperties/src/main/java/com/anrisoftware/propertiesutils/ContextProperties.java:268-271 | null when absent, else the parsed value or its error |
| ContextProps.ParseOrDefaultText | propertiesutils-contextproperties/src/main/java/com/anrisoftware/propertiesutils/ContextProperties.java:288-291 | the parser is handed the substituted stored value, or the substituted default text when absent |
| ContextProps.GetNumberPropertyOr | propertiesutils-contextproperties/src/main/java/com/anrisoftware/propertiesutils/ContextProperties.java:288-291 | an absent key parses `String.valueOf(default)`, so a null default hands "null" to the parser |
| ContextProps.ReparsedDefaultRoundTrip | propertiesutils-contextproperties/src/main/java/com/anrisoftware/propertiesutils/ContextProperties.java:288-291 | a default whose text the parser reads back, with no `$` in it, is returned for an absent key (number, charset and URI forms) |
| ContextProps.GetCharProperty | propertiesutils-contextproperties/src/main/java/com/anrisoftware/propertiesutils/ContextProperties.java:305-308 | null when absent, an index error for an empty value, else the first character |
| ContextProps.GetCharPropertyOr | propertiesutils-contextproperties/src/main/java/com/anrisoftware/propertiesutils/ContextProperties.java:325-328 | absent with a default: the default; absent with a null default: a NullPointerException, since the conditional unboxes the default to `char`; an empty value: an index error; else the first character |
| ContextProps.GetCharsetProperty | propertiesutils-contextproperties/src/main/java/com/anrisoftware/propertiesutils/ContextProperties.java:343-346 | null when absent, else the charset named by the value or its error |
| ContextProps.GetCharsetPropertyOr | propertiesutils-contextproperties/src/main/java/com/anrisoftware/propertiesutils/ContextProperties.java:364-367 | an absent key looks up the charset named `String.valueOf(default)` |
| ContextProps.GetURLProperty | propertiesutils-contextproperties/src/main/java/com/anrisoftware/propertiesutils/ContextProperties.java:383-386 | null when absent, else the parsed URL or its error |
| ContextProps.GetURLPropertyOr | propertiesutils-contextproperties/src/main/java/com/anrisoftware/propertiesutils/ContextProperties.java:405-409 | the default URL object, unparsed, when absent |
| ContextProps.GetURIProperty | propertiesutils-contextproperties/src/main/java/com/anrisoftware/propertiesutils/ContextProperties.java:425-428 | null when absent, else the parsed URI or its error |
| ContextProps.GetURIPropertyOr | propertiesutils-contextproperties/src/main/java/com/anrisoftware/propertiesutils/ContextProperties.java:447-451 | an absent key parses `String.valueOf(default)` |
| ContextProps.GetFileProperty | propertiesutils-contextproperties/src/main/java/com/anrisoftware/propertiesutils/ContextProperties.java:464-467 | null exactly when absent, else the file of that path |
| ContextProps.GetFilePropertyOr | propertiesutils-contextproperties/src/main/java/com/anrisoftware/propertiesutils/ContextProperties.java:483-486 | the default file object when absent, null included |
| ContextProps.GetTypedProperty | propertiesutils-contextproperties/src/main/java/com/anrisoftware/propertiesutils/ContextProperties.java:503-506 | never null: an absent key hands the text "null" to the format |
| ContextProps.GetTypedPropertyOr | propertiesutils-contextproperties/src/main/java/com/anrisoftware/propertiesutils/ContextProperties.java:527-531 | never null: the format parses the value, or `String.valueOf(default)` when absent |
| ContextProps.GetTypedListPropertyWith | propertiesutils-contextproperties/src/main/java/com/anrisoftware/propertiesutils/ContextProperties.java:575-586 | empty when absent, else each token between the given separators, parsed in order |
| ContextProps.GetTypedListProperty | propertiesutils-contextproperties/src/main/java/com/anrisoftware/propertiesutils/ContextProperties.java:549-552 | the same, split on " ,;" |
| ContextProps.GetTypedListPropertyOrWith | propertiesutils-contextproperties/src/main/java/com/anrisoftware/propertiesutils/ContextProperties.java:637-645 | an absent key re-splits the joined default; the separator argument is not used, the split is always on " ,;" |
| ContextProps.GetTypedListPropertyOr | propertiesutils-contextproperties/src/main/java/com/anrisoftware/propertiesutils/ContextProperties.java:607-611 | the same with the default separators |
| ContextProps.GetListPropertyWith | propertiesutils-contextproperties/src/main/java/com/anrisoftware/propertiesutils/ContextProperties.java:683-687 | empty when absent, else the non-empty separator-free tokens of the value |
| ContextProps.GetListProperty | propertiesutils-contextproperties/src/main/java/com/anrisoftware/propertiesutils/ContextProperties.java:663-665 | the same, split on " ,;" |
| ContextProps.GetListPropertyOrWith | propertiesutils-contextproperties/src/main/java/com/anrisoftware/propertiesutils/ContextProperties.java:725-729 | an absent key re-splits the default joined with "," on the given separators |
| ContextProps.GetListPropertyOr | propertiesutils-contextproperties/src/main/java/com/anrisoftware/propertiesutils/ContextProperties.java:702-704 | the same, split on " ,;" |
| ContextProps.ListDefaultRoundTrip | propertiesutils-contextproperties/src/main/java/com/anrisoftware/propertiesutils/ContextProperties.java:725-729 | a `$`-free default list comes back unchanged exactly when its elements are non-empty and separator-free |
| ContextProps.ListDefaultSplitsElement | propertiesutils-contextproperties/src/main/java/com/anrisoftware/propertiesutils/ContextProperties.java:702-704 | a default element holding a separator is split apart: ["a b"] reads ["a", "b"] |
| ContextProps.PutListThenGet | propertiesutils-contextproperties/src/main/java/com/anrisoftware/propertiesutils/ContextProperties.java:663-665 | a list written joined with "," is read back as that list |
| TypedProps.New | propertiesutils-contextproperties/src/main/java/com/anrisoftware/propertiesutils/TypedProperties.java:67-69 | reads the given Properties as they are and splits lists on " ,;" |
| TypedProps.NewWithSeparators | propertiesutils-contextproperties/src/main/java/com/anrisoftware/propertiesutils/TypedProperties.java:71-74 | reads the given Properties and splits lists on the given characters |
| TypedProps.FromMapAsWritten | propertiesutils-contextproperties/src/main/java/com/anrisoftware/propertiesutils/TypedProperties.java:59-64 | the Map constructor as written leaves the new view empty |
| TypedProps.FromMap | propertiesutils-contextproperties/src/main/java/com/anrisoftware/propertiesutils/TypedProperties.java:59-64 | the intended Map constructor: each entry reads as its value's string form |
| TypedProps.MapConstructorLosesEntries | propertiesutils-contextproperties/src/main/java/com/anrisoftware/propertiesutils/TypedProperties.java:59-64 | an entry is read through the intended constructor and lost through the written one |
| TypedProps.GetProperty | propertiesutils-contextproperties/src/main/java/com/anrisoftware/propertiesutils/TypedProperties.java:84-86 | the plain first-hit lookup of the key as given |
| TypedProps.GetPropertyOr | propertiesutils-contextproperties/src/main/java/com/anrisoftware/propertiesutils/TypedProperties.java:98-100 | the entry, else the default, unchanged |
| TypedProps.TypedReadsWhatContextReadsPrefixed | propertiesutils-contextproperties/src/main/java/com/anrisoftware/propertiesutils/TypedProperties.java:84-86 | over the same chain, TypedProperties at the prefixed key reads what a ContextProperties without replacements reads at the key |
| TypedProps.GetBooleanProperty | propertiesutils-contextproperties/src/main/java/com/anrisoftware/propertiesutils/TypedProperties.java:110-113 | null exactly when absent, else true exactly for "true" in any case |
| TypedProps.GetBooleanPropertyOr | propertiesutils-contextproperties/src/main/java/com/anrisoftware/propertiesutils/TypedProperties.java:125-128 | never throws: an absent key gives true exactly for the default true |
| TypedProps.GetNumberProperty | propertiesutils-contextproperties/src/main/java/com/anrisoftware/propertiesutils/TypedProperties.java:138-141 | null when absent, else the parsed value or its error |
| TypedProps.GetNumberPropertyOr | propertiesutils-contextproperties/src/main/java/com/anrisoftware/propertiesutils/TypedProperties.java:156-159 | an absent key parses `String.valueOf(default)` |
| TypedProps.GetCharProperty | propertiesutils-contextproperties/src/main/java/com/anrisoftware/propertiesutils/TypedProperties.java:171-174 | null when absent, an index error for an empty value, else the first character |
| TypedProps.GetCharPropertyOr | propertiesutils-contextproperties/src/main/java/com/anrisoftware/propertiesutils/TypedProperties.java:188-191 | absent with a default: the default; absent with a null default: a NullPointerException, since the conditional unboxes the default to `char`; an empty value: an index error; else the first character |
| TypedProps.GetCharsetProperty | propertiesutils-contextproperties/src/main/java/com/anrisoftware/propertiesutils/TypedProperties.java:205-208 | null when absent, else the named charset or its error |
| TypedProps.GetCharsetPropertyOr | propertiesutils-contextproperties/src/main/java/com/anrisoftware/propertiesutils/TypedProperties.java:224-227 | an absent key looks up the charset named `String.valueOf(default)` |
| TypedProps.UriToUrl | propertiesutils-contextproperties/src/main/java/com/anrisoftware/propertiesutils/TypedProperties.java:240-243 | `new URI(s).toURL()`: a URI syntax error is thrown first, else the URL conversion's result, which may be `IllegalArgument` for a relative URI |
| TypedProps.GetURLProperty | propertiesutils-contextproperties/src/main/java/com/anrisoftware/propertiesutils/TypedProperties.java:240-243 | null when absent, else the value through the URI parser and the URL conversion |
| TypedProps.GetURLPropertyOr | propertiesutils-contextproperties/src/main/java/com/anrisoftware/propertiesutils/TypedProperties.java:258-261 | the default URL object, unparsed, when absent |
| TypedProps.GetURIProperty | propertiesutils-contextproperties/src/main/java/com/anrisoftware/propertiesutils/TypedProperties.java:273-276 | null when absent, else the parsed URI or its error |
| TypedProps.GetURIPropertyOr | propertiesutils-contextproperties/src/main/java/com/anrisoftware/propertiesutils/TypedProperties.java:290-293 | an absent key parses `String.valueOf(default)` |
| TypedProps.GetFileProperty | propertiesutils-contextproperties/src/main/java/com/anrisoftware/propertiesutils/TypedProperties.java:303-306 | null exactly when absent, else the file of that path |
| TypedProps.GetFilePropertyOr | propertiesutils-contextproperties/src/main/java/com/anrisoftware/propertiesutils/TypedProperties.java:318-321 | the default file object when absent |
| TypedProps.GetTypedProperty | propertiesutils-contextproperties/src/main/java/com/anrisoftware/propertiesutils/TypedProperties.java:337-339 | never null: an absent key hands "null" to the format |
| TypedProps.GetTypedPropertyOr | propertiesutils-contextproperties/src/main/java/com/anrisoftware/propertiesutils/TypedProperties.java:358-361 | never null: the format parses the value or `String.valueOf(default)` |
| TypedProps.GetTypedListPropertyWith | propertiesutils-contextproperties/src/main/java/com/anrisoftware/propertiesutils/TypedProperties.java:398-408 | empty when absent, else each token between the given separators, parsed in order |
| TypedProps.GetTypedListProperty | propertiesutils-contextproperties/src/main/java/com/anrisoftware/propertiesutils/TypedProperties.java:377-379 | the same with the view's separators |
| TypedProps.GetTypedListPropertyOrWith | propertiesutils-contextproperties/src/main/java/com/anrisoftware/propertiesutils/TypedProperties.java:449-457 | an absent key re-splits the joined default; the separator argument is not used, the split is on the view's separators |
| TypedProps.GetTypedListPropertyOr | propertiesutils-contextproperties/src/main/java/com/anrisoftware/propertiesutils/TypedProperties.java:426-428 | the same with the view's separators |
| TypedProps.GetTypedListPropertyByTypeWith | propertiesutils-contextproperties/src/main/java/com/anrisoftware/propertiesutils/TypedProperties.java:501-512 | the `StringToType` form: empty when absent, else each token converted in order |
| TypedProps.GetTypedListPropertyByType | propertiesutils-contextproperties/src/main/java/com/anrisoftware/propertiesutils/TypedProperties.java:479-481 | the same with the view's separators |
| TypedProps.GetTypedListPropertyByTypeOrWith | propertiesutils-contextproperties/src/main/java/com/anrisoftware/propertiesutils/TypedProperties.java:534-542 | an absent key re-splits the joined default on the view's separators, ignoring the argument |
| TypedProps.TypedListDefaultRoundTrip | propertiesutils-contextproperties/src/main/java/com/anrisoftware/propertiesutils/TypedProperties.java:449-457 | a default list whose elements print as non-empty separator-free text that parses back is returned for an absent key, by both default-taking list forms |
| TypedProps.GetListPropertyWith | propertiesutils-contextproperties/src/main/java/com/anrisoftware/propertiesutils/TypedProperties.java:567-570 | empty when absent, else the non-empty separator-free tokens of the value |
| TypedProps.GetListProperty | propertiesutils-contextproperties/src/main/java/com/anrisoftware/propertiesutils/TypedProperties.java:552-554 | the same with the view's separators |
| TypedProps.GetListPropertyOrWith | propertiesutils-contextproperties/src/main/java/com/anrisoftware/propertiesutils/TypedProperties.java:599-602 | an absent key re-splits the default joined with "," on the given separators |
| TypedProps.GetListPropertyOr | propertiesutils-contextproperties/src/main/java/com/anrisoftware/propertiesutils/TypedProperties.java:582-584 | the same with the view's separators |
| TypedProps.ListDefaultRoundTrip | propertiesutils-contextproperties/src/main/java/com/anrisoftware/propertiesutils/TypedProperties.java:599-602 | the default list comes back unchanged exactly when its elements are non-empty and separator-free |
| LegacyContextProps.New | src/main/java/com/anrisoftware/propertiesutils/ContextProperties.java:105-108 | a new view reads each prefixed key from the parent, or null without a parent |
| LegacyContextProps.GetProperty | src/main/java/com/anrisoftware/propertiesutils/ContextProperties.java:111-113 | the first-hit lookup of the prefixed key, verbatim |
| LegacyContextProps.GetPropertyOr | src/main/java/com/anrisoftware/propertiesutils/ContextProperties.java:116-118 | the entry, else the default, both verbatim |
| LegacyContextProps.Get | src/main/java/com/anrisoftware/propertiesutils/ContextProperties.java:536-538 | `get` reads the prefixed key |
| LegacyContextProps.Put | src/main/java/com/anrisoftware/propertiesutils/ContextProperties.java:541-544 | stores under the prefixed key; the key reads the value, other entries are unaffected, the previous own entry is returned |
| LegacyContextProps.AgreesWithoutReplacements | src/main/java/com/anrisoftware/propertiesutils/ContextProperties.java:111-118 | with no replacements registered, the newer variant reads exactly what this one reads, with and without a default |
| LegacyContextProps.GetStringProperty | src/main/java/com/anrisoftware/propertiesutils/ContextProperties.java:132-134 | the entry, else the default |
| LegacyContextProps.GetBooleanProperty | src/main/java/com/anrisoftware/propertiesutils/ContextProperties.java:145-148 | null exactly when absent, else true exactly for "true" in any case |
| LegacyContextProps.GetBooleanPropertyOr | src/main/java/com/anrisoftware/propertiesutils/ContextProperties.java:162-165 | never throws: an absent key gives true exactly for the default true |
| LegacyContextProps.GetNumberProperty | src/main/java/com/anrisoftware/propertiesutils/ContextProperties.java:176-179 | null when absent, else the parsed value or its error |
| LegacyContextProps.ParseOrDefaultText | src/main/java/com/anrisoftware/propertiesutils/ContextProperties.java:196-199 | the parser is handed the value, or the default text when absent |
| LegacyContextProps.GetNumberPropertyOr | src/main/java/com/anrisoftware/propertiesutils/ContextProperties.java:196-199 | an absent key parses `String.valueOf(default)` |
| LegacyContextProps.GetCharProperty | src/main/java/com/anrisoftware/propertiesutils/ContextProperties.java:213-216 | null when absent, an index error for an empty value, else the first character |
| LegacyContextProps.GetCharPropertyOr | src/main/java/com/anrisoftware/propertiesutils/ContextProperties.java:233-236 | absent with a default: the default; absent with a null default: a NullPointerException, since the conditional unboxes the default to `char`; an empty value: an index error; else the first character |
| LegacyContextProps.GetCharsetProperty | src/main/java/com/anrisoftware/propertiesutils/ContextProperties.java:251-254 | null when absent, else the named charset or its error |
| LegacyContextProps.GetCharsetPropertyOr | src/main/java/com/anrisoftware/propertiesutils/ContextProperties.java:272-275 | an absent key looks up the charset named `String.valueOf(default)` |
| LegacyContextProps.GetURLProperty | src/main/java/com/anrisoftware/propertiesutils/ContextProperties.java:291-294 | null when absent, else the parsed URL or its error |
| LegacyContextProps.GetURLPropertyOr | src/main/java/com/anrisoftware/propertiesutils/ContextProperties.java:313-317 | an absent key parses `String.valueOf(default)`, so a null default hands "null" to the URL parser |
| LegacyContextProps.GetURIProperty | src/main/java/com/anrisoftware/propertiesutils/ContextProperties.java:333-336 | null when absent, else the parsed URI or its error |
| LegacyContextProps.GetURIPropertyOr | src/main/java/com/anrisoftware/propertiesutils/ContextProperties.java:355-359 | an absent key parses `String.valueOf(default)` |
| LegacyContextProps.ReparsedDefaultRoundTrip | src/main/java/com/anrisoftware/propertiesutils/ContextProperties.java:313-317 | a default whose text the parser reads back is returned for an absent key (number, charset, URL and URI forms) |
| LegacyContextProps.GetFileProperty | src/main/java/com/anrisoftware/propertiesutils/ContextProperties.java:372-375 | null exactly when absent, else the file of that path |
| LegacyContextProps.GetFilePropertyOr | src/main/java/com/anrisoftware/propertiesutils/ContextProperties.java:391-394 | never null: an absent key gives the default, or the file named "null" for a null default |
| LegacyContextProps.NullFileDefaultDiffers | src/main/java/com/anrisoftware/propertiesutils/ContextProperties.java:391-394 | for an absent key and a null default the older variant gives the file "null" where the newer gives null |
| LegacyContextProps.GetTypedProperty | src/main/java/com/anrisoftware/propertiesutils/ContextProperties.java:411-414 | never null: an absent key hands "null" to the format |
| LegacyContextProps.GetTypedPropertyOr | src/main/java/com/anrisoftware/propertiesutils/ContextProperties.java:435-439 | never null: the format parses the value or `String.valueOf(default)` |
| LegacyContextProps.GetTypedListProperty | src/main/java/com/anrisoftware/propertiesutils/ContextProperties.java:456-467 | empty when absent, else each token between " ,;" runs, parsed in order |
| LegacyContextProps.GetTypedListPropertyOr | src/main/java/com/anrisoftware/propertiesutils/ContextProperties.java:487-495 | an absent key re-splits the default joined with "," |
| LegacyContextProps.TypedListDefault | src/main/java/com/anrisoftware/propertiesutils/ContextProperties.java:487-495 | a default list that prints and parses back is returned; a first element that does not parse makes the call throw its error |
| LegacyContextProps.GetListProperty | src/main/java/com/anrisoftware/propertiesutils/ContextProperties.java:512-516 | empty when absent, else the non-empty separator-free tokens of the value |
| LegacyContextProps.GetListPropertyOr | src/main/java/com/anrisoftware/propertiesutils/ContextProperties.java:530-533 | an absent key re-splits the default joined with "," |
| LegacyContextProps.ListDefaultRoundTrip | src/main/java/com/anrisoftware/propertiesutils/ContextProperties.java:530-533 | the default list comes back unchanged exactly when its elements are non-empty and free of " ,;" |
| LegacyContextProps.PutThenGet | src/main/java/com/anrisoftware/propertiesutils/ContextProperties.java:541-544 | any stored value is read back verbatim, placeholders included, and a joined list is read back as the list |
| PropsFactory.New | propertiesutils-contextproperties/src/main/java/com/anrisoftware/propertiesutils/ContextPropertiesFactory.java:82-86 | a new factory has empty defaults and empty parent properties |
| PropsFactory.WithDefaultProperties | propertiesutils-contextproperties/src/main/java/com/anrisoftware/propertiesutils/ContextPropertiesFactory.java:106-110 | null is rejected; otherwise only the defaults change |
| PropsFactory.WithDefaultResource | propertiesutils-contextproperties/src/main/java/com/anrisoftware/propertiesutils/ContextPropertiesFactory.java:134-139 | a failing read is thrown; otherwise the defaults are exactly the loaded entries, with no chain behind them |
| PropsFactory.WithProperties | propertiesutils-contextproperties/src/main/java/com/anrisoftware/propertiesutils/ContextPropertiesFactory.java:161-165 | null is rejected; otherwise only the parent properties change |
| PropsFactory.LoadProperties | propertiesutils-contextproperties/src/main/java/com/anrisoftware/propertiesutils/ContextPropertiesFactory.java:328-336 | the chain's layers are the parent's own table, the loaded entries, then the defaults' layers; a key is found in that order and the parent's own defaults are not consulted |
| PropsFactory.BuildReads | propertiesutils-contextproperties/src/main/java/com/anrisoftware/propertiesutils/ContextPropertiesFactory.java:196-201 | a built view has no replacements and reads each prefixed key in the layered order |
| PropsFactory.FromResourceUrl | propertiesutils-contextproperties/src/main/java/com/anrisoftware/propertiesutils/ContextPropertiesFactory.java:196-201 | a failing open or load is thrown; otherwise the view over the layered chain |
| PropsFactory.FromResourceFile | propertiesutils-contextproperties/src/main/java/com/anrisoftware/propertiesutils/ContextPropertiesFactory.java:270-275 | the same for a file |
| PropsFactory.FromResourceUri | propertiesutils-contextproperties/src/main/java/com/anrisoftware/propertiesutils/ContextPropertiesFactory.java:234-237 | a URI that does not convert to a file is rejected with the conversion's error (`IllegalArgument` from `new File(uri)`), else the file is read |
| PropsFactory.FromDefaults | propertiesutils-contextproperties/src/main/java/com/anrisoftware/propertiesutils/ContextPropertiesFactory.java:347-352 | the layered chain with nothing loaded: the parent's own entries over the defaults |
| PropsFactory.GetUserResourceURL | propertiesutils-contextproperties/src/main/java/com/anrisoftware/propertiesutils/ContextPropertiesFactory.java:316-326 | both keys are read prefixed from the system properties; a malformed URL is thrown even when the file key is set; a set file key wins; neither gives null |
| PropsFactory.UserResourceUsesContextGetters | propertiesutils-contextproperties/src/main/java/com/anrisoftware/propertiesutils/ContextPropertiesFactory.java:316-326 | the discovery is the ContextProperties file and URL getters with null defaults |
| PropsFactory.FromUserResources | propertiesutils-contextproperties/src/main/java/com/anrisoftware/propertiesutils/ContextPropertiesFactory.java:310-314 | the discovered resource is read if there is one, else the given one; a discovery error is thrown |
| PropsFactory.UserFileOverridesResource | propertiesutils-contextproperties/src/main/java/com/anrisoftware/propertiesutils/ContextPropertiesFactory.java:310-326 | a user file named under the prefixed file key replaces the fallback resource when the URL key is unset |
| PropsFactory.ReplaceHome | propertiesutils-contextproperties/src/main/java/com/anrisoftware/propertiesutils/ContextProperties.java:200-210 | "${HOME}/t.txt" with HOME registered as "/home/u" becomes "/home/u/t.txt" |
| PropsFactory.EndToEndSubstitution | propertiesutils-contextproperties/src/main/java/com/anrisoftware/propertiesutils/ContextPropertiesFactory.java:196-201 | a resource holding `app.timeout` as "${HOME}/t.txt", read in context "app" with HOME registered, reads "/home/u/t.txt" at `timeout` |
| LegacyPropsFactory.FromResourceUrl | src/main/java/com/anrisoftware/propertiesutils/ContextPropertiesFactory.java:161-166 | a failing open or load is thrown; otherwise the older view reads each prefixed key from the parent's own entries, the loaded entries, then the defaults |
| LegacyPropsFactory.FromResourceFile | src/main/java/com/anrisoftware/propertiesutils/ContextPropertiesFactory.java:235-240 | the same for a file |
| LegacyPropsFactory.FromResourceUri | src/main/java/com/anrisoftware/propertiesutils/ContextPropertiesFactory.java:199-202 | a URI that does not convert to a file is rejected with the conversion's error (`IllegalArgument` from `new File(uri)`), else the file is read |
| LegacyPropsFactory.AgreesWithNewerFactory | src/main/java/com/anrisoftware/propertiesutils/ContextPropertiesFactory.java:242-250 | for the same factory and resource both factories succeed together and read the same values before any replacement is registered |
| MapEntryToString.ToStringNull | propertiesutils-contextproperties/src/main/java/com/anrisoftware/propertiesutils/MapEntryToString.java:71-76 | null exactly for null, else the argument's string form |
| MapEntryToString.ToString | propertiesutils-contextproperties/src/main/java/com/anrisoftware/propertiesutils/MapEntryToString.java:87-90 | a null argument is rejected, else its string form |
| MapEntryToString.ToStringNullIn | propertiesutils-contextproperties/src/main/java/com/anrisoftware/propertiesutils/MapEntryToString.java:40-46 | a null map throws; otherwise null exactly when the key is missing or maps to null, else the value's string form |
| MapEntryToString.ToStringIn | propertiesutils-contextproperties/src/main/java/com/anrisoftware/propertiesutils/MapEntryToString.java:59-62 | rejected exactly when the map is null, the key missing or the value null, else the value's string form |
| MapEntryToString.MapFormsAgree | propertiesutils-contextproperties/src/main/java/com/anrisoftware/propertiesutils/MapEntryToString.java:40-62 | on a map the null-rejecting form fails exactly where the null-tolerant one gives null, and they agree elsewhere |
| MapEntryToString.ObjectFormsAgree | propertiesutils-contextproperties/src/main/java/com/anrisoftware/propertiesutils/MapEntryToString.java:71-90 | the same relation for a single argument |

## Left out

- I/O: opening a URL, file or stream, and `Properties.load`'s parsing of the `.properties` format. A function parameter gives the loaded entries or an I/O error.
- The charset argument of `fromResource` and the platform default charset. They only matter inside `Properties.load`.
- JDK and caller parsers (`parseDouble`, `Charset.forName`, `new URL`, `new URI`, `toURL`, `new File(uri)`, `Format`, `StringToType`). They are parameters; their own behaviour is not modelled.
- `File` path normalisation. A file is identified by the path text it was built from.
- The `Object` and `Class` factory constructors. They only derive the context string from a package name.
- The older factory's constructor, `withDefaultProperties`, `withProperties` and `loadProperties`. They are the same code as the newer factory's and are modelled once in `PropsFactory`.
- The mutable factory and the builder's `return this`. Each `withX` returns an updated factory.
- PropsFactory.WithDefaultResource: a failing read also leaves the factory with fresh, partly loaded defaults. The model returns only the error.
- Replacements.ApplyReplacements: the order in which HashMap iterates the replacements is left open. No result is claimed for values whose outcome depends on that order. Order dependence arises when literal text holds a `$`, as in `${${a}b}`, when a registered text holds a `$`, or when a name holds `$` or `}`. Values in which such a character is harmless are also not covered.
- Coercion.CharAt0: a Dafny `char` is a Unicode scalar value, while Java's `charAt(0)` returns a UTF-16 code unit. For text starting outside the Basic Multilingual Plane the model returns the whole code point where Java returns a high surrogate. This affects every `GetCharProperty` and `GetCharPropertyOr`.
- Null replacement texts, null default lists, null separator strings (commons-lang then splits on whitespace), and non-String values or keys stored through `put`.
- A ContextProperties or TypedProperties passed in as the Properties of another view. The wrapped Properties is taken as a plain one.
- TypedProps.FromMapAsWritten: the written Map constructor also adds `key=value` entries to the argument map while iterating it, which can throw `ConcurrentModificationException`. Only the empty result is modelled.
- Null values in a Map given to the TypedProperties Map constructor.
- Replacement names and texts are strings. The source takes the `toString` of any registered key or `Serializable` value.
- `getContext()` is not a separate operation. It is the `context` field of the datatype.
- Java serialization and `synchronized`.
- The Joda, date, byte, Swing, AWT and script-evaluating properties classes, and the Guice providers. They are outside the modelled core.
- Apache commons-lang `startsWith`, `split`, `join`, `replace` and `Validate` are not part of this model's sources. They are defined from their documented behaviour.

## Findings

| source | as written | input that shows it | evidently intended | confidence | as-written member | corrected member |
|---|---|---|---|---|---|---|
| propertiesutils-contextproperties/src/main/java/com/anrisoftware/propertiesutils/TypedProperties.java:59-64 | the loop calls `put(entry.toString(), entry.toString())` on the constructor's `properties` parameter, which shadows the field, so the entries go into the argument map as `key=value` and the new TypedProperties stays empty | a map {a: 1}; `getProperty("a")` is null | each entry stored in the new view under its key, with its value's string form | not executed | TypedProps.FromMapAsWritten | TypedProps.FromMap |
