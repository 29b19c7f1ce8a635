/**
 * The values that PyYAML's safe loader hands to Python, and the external
 * YAML library itself.  The library is not modelled: its dump and load
 * functions are carried around as function values (`YamlLib`), so every
 * result of the model holds for whatever the library does.
 */
module YamlValues {

  datatype Option<+T> = None | Some(value: T)

  /** A parsed YAML value.  Integers and floats are both numbers; a mapping
      keeps Python's insertion order and has string keys. */
  datatype Yaml =
    | YNull
    | YBool(b: bool)
    | YNum(n: real)
    | YStr(s: string)
    | YList(items: seq<Yaml>)
    | YMap(entries: Doc)

  /** A mapping, as an ordered list of key/value pairs (a Python dict). */
  type Doc = seq<(string, Yaml)>

  /** The outcome of `yaml.safe_load` on one text. */
  datatype Loaded = Parsed(value: Yaml) | LoadError

  /** The outcome of `list(yaml.safe_load_all(text))` on a multi-document stream. */
  datatype LoadedAll = ParsedAll(docs: seq<Yaml>) | LoadAllError

  /** The YAML library the source calls: `safe_dump`, `safe_load`, `safe_load_all`. */
  datatype YamlLib = YamlLib(
    dump: Yaml -> string,
    load: string -> Loaded,
    loadAll: string -> LoadedAll)

  /** `key in d` for a dict. */
  predicate HasKey(d: Doc, key: string) {
    exists i :: 0 <= i < |d| && d[i].0 == key
  }

  /** `d.get(key)`: the value of the first entry with that key. */
  function Lookup(d: Doc, key: string): Option<Yaml> {
    if d == [] then None
    else if d[0].0 == key then Some(d[0].1)
    else Lookup(d[1..], key)
  }

  /** `d.get(key)` finds a value exactly when `key in d`, and the value is
      that of the first entry with the key. */
  lemma {:induction false} LookupFinds(d: Doc, key: string)
    ensures Lookup(d, key).Some? <==> HasKey(d, key)
    ensures Lookup(d, key).Some? ==> exists i :: 0 <= i < |d| && d[i] == (key, Lookup(d, key).value)
                                       && forall j :: 0 <= j < i ==> d[j].0 != key
  {
    if d != [] && d[0].0 != key {
      LookupFinds(d[1..], key);
      if HasKey(d, key) {
        var i :| 0 <= i < |d| && d[i].0 == key;
        assert d[1..][i - 1].0 == key;
      }
      if Lookup(d, key).Some? {
        var i :| 0 <= i < |d| - 1 && d[1..][i] == (key, Lookup(d, key).value)
                 && forall j :: 0 <= j < i ==> d[1..][j].0 != key;
        assert d[i + 1] == (key, Lookup(d, key).value);
        assert forall j :: 0 <= j < i + 1 ==> d[j].0 != key by {
          forall j | 0 <= j < i + 1
            ensures d[j].0 != key
          {
            if j > 0 {
              assert d[j] == d[1..][j - 1];
            }
          }
        }
      }
    } else if d != [] {
      assert d[0] == (key, d[0].1);
    }
  }

  /** `Lookup` returns the value of the first entry with the key. */
  lemma {:induction false} LookupAt(d: Doc, i: nat, key: string)
    requires i < |d| && d[i].0 == key
    requires forall j :: 0 <= j < i ==> d[j].0 != key
    ensures Lookup(d, key) == Some(d[i].1)
  {
    if i > 0 {
      LookupAt(d[1..], i - 1, key);
    }
  }

  /** The value found by indexing mappings along `path`, if every step exists. */
  function At(y: Yaml, path: seq<string>): Option<Yaml>
    decreases |path|
  {
    if path == [] then Some(y)
    else match y
      case YMap(d) =>
        (match Lookup(d, path[0])
         case Some(v) => At(v, path[1..])
         case None => None)
      case _ => None
  }

  /** Python truthiness (`if not value:`). */
  predicate Truthy(y: Yaml) {
    match y
    case YNull => false
    case YBool(b) => b
    case YNum(n) => n != 0.0
    case YStr(s) => s != ""
    case YList(items) => items != []
    case YMap(d) => d != []
  }
}
