/** Typed configuration values, the typed getters that read a configuration
    map with a default, and the process-wide key-value store that the
    partition module publishes into. */
module Values {

  /** A configuration or store value. `RecordV` is a nested string-to-string map. */
  datatype Value =
    | BoolV(b: bool)
    | NumberV(x: real)
    | StringV(s: string)
    | ListV(items: seq<string>)
    | RecordV(fields: map<string, string>)

  type ConfigMap = map<string, Value>

  /** The value of `key` when it is present and a boolean, else `default`. */
  function GetBool(cfg: ConfigMap, key: string, default: bool): (r: bool)
    ensures key !in cfg ==> r == default
  {
    if key in cfg && cfg[key].BoolV? then cfg[key].b else default
  }

  /** The value of `key` when it is present and a string, else `default`. */
  function GetString(cfg: ConfigMap, key: string, default: string): (r: string)
    ensures key !in cfg ==> r == default
  {
    if key in cfg && cfg[key].StringV? then cfg[key].s else default
  }

  /** The value of `key` when it is present and a number, else `default`. */
  function GetNumber(cfg: ConfigMap, key: string, default: real): (r: real)
    ensures key !in cfg ==> r == default
  {
    if key in cfg && cfg[key].NumberV? then cfg[key].x else default
  }

  /** A value read as a list of strings: a list as is, a lone string as a
      one-element list, anything else as the empty list. */
  function AsStringList(v: Value): seq<string>
  {
    match v
    case ListV(items) => items
    case StringV(s) => [s]
    case _ => []
  }

  function GetStringList(cfg: ConfigMap, key: string): (r: seq<string>)
    ensures key !in cfg ==> r == []
  {
    if key in cfg then AsStringList(cfg[key]) else []
  }

  /** The shared store: whole-value inserts and membership tests. */
  class GlobalStorage {
    var data: map<string, Value>

    constructor (initial: map<string, Value>)
      ensures data == initial
    {
      data := initial;
    }

    method Insert(key: string, value: Value)
      modifies this
      ensures data == old(data)[key := value]
    {
      data := data[key := value];
    }

    method Contains(key: string) returns (present: bool)
      ensures present <==> key in data
    {
      present := key in data;
    }
  }
}
