/**
 * The user configuration object (src/config/user-config.ts:67-81, 121-165, 306-347, 451-487): dotted keys,
 * the cache, and the file it is saved to and loaded from.
 */
module UserConfig {
  import opened Collections
  import opened Text
  import opened SimpleYaml
  import opened YamlRoundTrip
  import opened YamlExact

  // ------------------------------------------------------------ dotted keys

  /** getNestedValue, from a value that may be undefined; only objects have properties. */
  function GetPath(v: Option<Value>, parts: seq<string>): Option<Value>
    decreases |parts|
  {
    if parts == [] then v
    else if v.None? || !v.value.Obj? then None
    else GetPath(Get(v.value.fields, parts[0]), parts[1..])
  }

  function FieldsOf(v: Option<Value>): Dict {
    if v.Some? && v.value.Obj? then v.value.fields else []
  }

  /** setNestedValue: whatever is in the way and is no object is replaced by an empty one. */
  function SetPath(d: Dict, parts: seq<string>, v: Value): Dict
    requires parts != []
    decreases |parts|
  {
    if |parts| == 1 then Put(d, parts[0], v)
    else Put(d, parts[0], Obj(SetPath(FieldsOf(Get(d, parts[0])), parts[1..], v)))
  }

  lemma {:induction false} GetPut(d: Dict, key: string, v: Value, other: string)
    ensures Get(Put(d, key, v), other) == if other == key then Some(v) else Get(d, other)
  {
    if d != [] && d[0].key != key {
      GetPut(d[1..], key, v, other);
    }
  }

  /** What was set is what is got, at any depth. */
  lemma {:induction false} GetAfterSet(d: Dict, parts: seq<string>, v: Value)
    requires parts != []
    ensures GetPath(Some(Obj(SetPath(d, parts, v))), parts) == Some(v)
    decreases |parts|
  {
    GetPut(d, parts[0], if |parts| == 1 then v else Obj(SetPath(FieldsOf(Get(d, parts[0])), parts[1..], v)), parts[0]);
    if |parts| > 1 {
      GetAfterSet(FieldsOf(Get(d, parts[0])), parts[1..], v);
    }
  }

  lemma SamePrefix(a: seq<string>, b: seq<string>)
    requires a != [] && b != [] && a[0] == b[0]
    ensures a <= b <==> a[1..] <= b[1..]
  {
    assert a == [a[0]] + a[1..] && b == [b[0]] + b[1..];
    if a <= b {
      assert a == b[..|a|];
      assert a[1..] == b[1..][..|a| - 1];
    }
  }

  /** Every key that is neither a prefix nor an extension of the one set reads as before, at any depth. */
  lemma {:induction false} SetKeepsOthers(d: Dict, parts: seq<string>, v: Value, other: seq<string>)
    requires parts != [] && !(parts <= other) && !(other <= parts)
    ensures GetPath(Some(Obj(SetPath(d, parts, v))), other) == GetPath(Some(Obj(d)), other)
    decreases |parts|
  {
    GetPut(d, parts[0], if |parts| == 1 then v else Obj(SetPath(FieldsOf(Get(d, parts[0])), parts[1..], v)), other[0]);
    if other[0] == parts[0] {
      SamePrefix(parts, other);
      SamePrefix(other, parts);
      SetKeepsOthers(FieldsOf(Get(d, parts[0])), parts[1..], v, other[1..]);
    }
  }

  // -------------------------------------------------------------- user input

  /** parseValue: the text given on the command line; quotes are kept. */
  function ParseValue(s: string): Value {
    if s == "true" then Bool(true)
    else if s == "false" then Bool(false)
    else if s == "null" then Null
    else if IntShaped(s) then Int(ParseInt(s))
    else if FractionShaped(s) then Fraction(s)
    else Str(s)
  }

  // ---------------------------------------------------------------- defaults

  const PROVIDERS: Dict := [Field("provider", Str("claude")), Field("verbosity", Str("normal"))]
  const TELEMETRY: Dict := [Field("enabled", Bool(false))]
  const UPDATES: Dict := [Field("channel", Str("stable")), Field("checkOnStartup", Bool(true))]

  const DEFAULTS: Dict := [
    Field("apiVersion", Str("aiwg.io/v1")),
    Field("kind", Str("UserConfig")),
    Field("defaults", Obj(PROVIDERS)),
    Field("telemetry", Obj(TELEMETRY)),
    Field("updates", Obj(UPDATES))]

  /** `{ ...base, ...over }` */
  function Spread(base: Dict, over: Dict): Dict {
    if over == [] then base
    else
      var last := over[|over| - 1];
      Put(Spread(base, over[..|over| - 1]), last.key, last.value)
  }

  /** The own properties of a value spread into an object: a string gives its characters by index. */
  function Spreadable(v: Option<Value>): Dict {
    if v.None? then []
    else
      match v.value
      case Obj(fields) => fields
      case Str(s) => seq(|s|, i requires 0 <= i < |s| => Field(IntText(i), Str([s[i]])))
      case _ => []
  }

  function WithSection(d: Dict, key: string, base: Dict, parsed: Dict): Dict {
    Put(d, key, Obj(Spread(base, Spreadable(Get(parsed, key)))))
  }

  /** The defaults overlaid with what the file holds, section by section. */
  function Merge(parsed: Dict): Dict {
    var all := Spread(DEFAULTS, parsed);
    WithSection(
      WithSection(WithSection(all, "defaults", PROVIDERS, parsed), "telemetry", TELEMETRY, parsed),
      "updates", UPDATES, parsed)
  }

  /** loadConfig without a cache: an absent or unreadable file means the defaults. */
  function Loaded(file: Option<string>): Dict {
    if file.None? then DEFAULTS
    else
      var parsed := Parse(file.value);
      if parsed.None? then DEFAULTS else Merge(parsed.value)
  }

  // --------------------------------------------------------------- the object

  /** One process's view: its cache and the file on disk. */
  class Config {
    var file: Option<string>
    var cache: Option<Dict>

    /** A fresh process: nothing cached. */
    constructor (file: Option<string>)
      ensures this.file == file && cache == None
    {
      this.file := file;
      cache := None;
    }

    function Current(): Dict
      reads this
    {
      if cache.Some? then cache.value else Loaded(file)
    }

    method LoadConfig() returns (config: Dict)
      modifies this`cache
      ensures config == old(Current()) && cache == Some(config)
    {
      if cache.Some? {
        return cache.value;
      }
      config := DEFAULTS;
      if file.Some? {
        var parsed := ParseYamlSimple(file.value);
        if parsed.Some? {
          config := Merge(parsed.value);
        }
      }
      cache := Some(config);
    }

    method SaveConfig(config: Dict)
      modifies this`file
      ensures file == Some(Serialize(config, 0))
    {
      var yaml := SerializeYamlSimple(config, 0);
      file := Some(yaml);
    }

    method Read(key: string) returns (v: Option<Value>)
      modifies this`cache
      ensures v == GetPath(Some(Obj(old(Current()))), Split(key, '.'))
      ensures Current() == old(Current())
    {
      var config := LoadConfig();
      v := GetPath(Some(Obj(config)), Split(key, '.'));
    }

    method Set(key: string, value: string)
      modifies this
      ensures cache == Some(SetPath(old(Current()), Split(key, '.'), ParseValue(value)))
      ensures file == Some(Serialize(cache.value, 0))
    {
      var config := LoadConfig();
      config := SetPath(config, Split(key, '.'), ParseValue(value));
      SaveConfig(config);
      cache := Some(config);
    }
  }
}
