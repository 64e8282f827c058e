/**
  `java.util.Properties` as the accessors use it: an own table of string
  entries and an optional chain of default properties consulted when the own
  table has no entry for a key.
 */
module JavaProperties {
  import opened Outcomes

  datatype Properties = Properties(table: map<string, string>, defaults: Option<Properties>)

  /** `new Properties()` */
  function Empty(): (r: Properties)
    ensures forall k :: GetProperty(r, k).None?
  {
    Properties(map[], None)
  }

  /** `new Properties(defaults)`: every read falls through to the defaults. */
  function WithDefaults(defaults: Properties): (r: Properties)
    ensures forall k :: GetProperty(r, k) == GetProperty(defaults, k)
  {
    Properties(map[], Some(defaults))
  }

  /** `Properties.getProperty(key)`: the own entry, else the defaults' answer, else null. */
  function GetProperty(p: Properties, key: string): (r: Option<string>)
    ensures key in p.table ==> r == Some(p.table[key])
    ensures p.defaults.None? ==> (r.Some? <==> key in p.table)
    decreases p
  {
    if key in p.table then Some(p.table[key])
    else match p.defaults
      case None => None
      case Some(d) => GetProperty(d, key)
  }

  /** `Properties.put(key, value)`: updates the own table and returns the previous own entry. */
  function Put(p: Properties, key: string, value: string): (r: (Properties, Option<string>))
    ensures r.0.defaults == p.defaults
    ensures GetProperty(r.0, key) == Some(value)
    ensures forall k :: k != key ==> GetProperty(r.0, k) == GetProperty(p, k)
    ensures r.1 == (if key in p.table then Some(p.table[key]) else None)
  {
    (p.(table := p.table[key := value]), if key in p.table then Some(p.table[key]) else None)
  }

  /** `p.putAll(q)`: copies the own entries of `q` (not its defaults) into `p`. */
  function PutAll(p: Properties, q: Properties): (r: Properties)
    ensures r.defaults == p.defaults
    ensures forall k :: k in q.table ==> GetProperty(r, k) == Some(q.table[k])
    ensures forall k :: k !in q.table ==> GetProperty(r, k) == GetProperty(p, k)
  {
    p.(table := p.table + q.table)
  }

  /** The tables of the chain, own table first. */
  function Layers(p: Properties): (r: seq<map<string, string>>)
    ensures |r| > 0 && r[0] == p.table
    decreases p
  {
    [p.table] + match p.defaults
      case None => []
      case Some(d) => Layers(d)
  }

  /** The value of the first layer that has an entry for `key`. */
  function FirstHit(layers: seq<map<string, string>>, key: string): (r: Option<string>)
    ensures r.None? <==> forall i :: 0 <= i < |layers| ==> key !in layers[i]
    ensures r.Some? ==> exists i :: (
      && 0 <= i < |layers| && key in layers[i]
      && r.value == layers[i][key]
      && forall j :: 0 <= j < i ==> key !in layers[j])
    decreases |layers|
  {
    if layers == [] then None
    else if key in layers[0] then Some(layers[0][key])
    else
      var r := FirstHit(layers[1..], key);
      assert forall i :: 1 <= i < |layers| ==> layers[i] == layers[1..][i - 1];
      r
  }

  /** A lookup through the defaults chain is a first-hit search over its layers. */
  lemma {:induction false} LookupIsFirstHit(p: Properties, key: string)
    ensures GetProperty(p, key) == FirstHit(Layers(p), key)
    decreases p
  {
    if key !in p.table {
      match p.defaults
      case None =>
      case Some(d) =>
        LookupIsFirstHit(d, key);
        assert Layers(p)[1..] == Layers(d);
    }
  }
}
