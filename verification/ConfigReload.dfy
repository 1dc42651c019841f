/**
 * Set, save, reload and get from any file (src/config/user-config.ts:151-165, 309-347, 369-478): what a user's
 * own file may hold, and what a save and a fresh load make of it.
 */
module ConfigReload {
  import opened Collections
  import opened Text
  import opened SimpleYaml
  import opened YamlRoundTrip
  import opened YamlExact
  import opened UserConfig
  import opened ConfigPersistence

  // ----------------------------------------------------- what the reader yields

  /** A value that is no object. */
  predicate Flat(v: Value) {
    !v.Obj?
  }

  ghost predicate FlatSection(d: Dict) {
    GoodKeys(d) && forall f :: f in d ==> Flat(f.value)
  }

  /** At most two levels, all keys well formed and different. */
  ghost predicate Layered(d: Dict) {
    GoodKeys(d) && forall f :: f in d ==> Flat(f.value) || FlatSection(f.value.fields)
  }

  ghost predicate LayeredReader(st: Reader) {
    st.Reader? ==> Layered(st.result) && (st.section.Some? ==> WellFormedKey(st.section.value))
  }

  lemma PutFlat(d: Dict, key: string, v: Value)
    requires FlatSection(d) && WellFormedKey(key) && Flat(v)
    ensures FlatSection(Put(d, key, v))
  {
    PutGoodKeys(d, key, v);
    forall f | f in Put(d, key, v) ensures Flat(f.value) {
      PutMembers(d, key, v, f);
    }
  }

  lemma PutLayered(d: Dict, key: string, v: Value)
    requires Layered(d) && WellFormedKey(key) && (Flat(v) || FlatSection(v.fields))
    ensures Layered(Put(d, key, v))
  {
    PutGoodKeys(d, key, v);
    forall f | f in Put(d, key, v) ensures Flat(f.value) || FlatSection(f.value.fields) {
      PutMembers(d, key, v, f);
    }
  }

  lemma ReadPairLayered(scalar: string -> Value, st: Reader, kv: KeyValue, indent: nat)
    requires st.Reader? && LayeredReader(st) && WellFormedKey(kv.key) && Flat(scalar(kv.raw))
    ensures LayeredReader(ReadPair(scalar, st, kv, indent))
  {
    PutLayered(st.result, kv.key, Obj([]));
    PutLayered(st.result, kv.key, scalar(kv.raw));
    if st.section.Some? {
      var section := Get(st.result, st.section.value);
      GetMember(st.result, st.section.value);
      if section.Some? && section.value.Obj? {
        PutFlat(section.value.fields, kv.key, scalar(kv.raw));
        PutLayered(st.result, st.section.value, Obj(Put(section.value.fields, kv.key, scalar(kv.raw))));
      }
    }
  }

  lemma TrimKeepsHead(s: string)
    requires s != "" && !IsSpace(s[0])
    ensures Trim(s) != "" && Trim(s)[0] == s[0]
  {
    TrimBlank(s);
    assert s[0] in s && TrimStart(s) == s;
    TrimEndPrefix(s);
  }

  /** A key that is read is one the printer can write. */
  lemma MatchedKey(trimmed: string)
    requires trimmed != "" && trimmed[0] != '#' && !IsSpace(trimmed[0]) && '\n' !in trimmed
    ensures MatchPair(trimmed).Some? ==> WellFormedKey(MatchPair(trimmed).value.key)
  {
    if MatchPair(trimmed).Some? {
      var head := trimmed[..IndexOf(trimmed, ':')];
      assert head[0] == trimmed[0];
      TrimKeepsHead(head);
      TrimIsTrimmed(head);
    }
  }

  lemma ReadTrimmedLayered(scalar: string -> Value, st: Reader, trimmed: string, indent: nat)
    requires LayeredReader(st) && Trimmed(trimmed) && '\n' !in trimmed
    requires forall s :: Flat(scalar(s))
    ensures LayeredReader(ReadTrimmed(scalar, st, trimmed, indent))
  {
    if st.Reader? && trimmed != "" && trimmed[0] != '#' && MatchPair(trimmed).Some? {
      MatchedKey(trimmed);
      ReadPairLayered(scalar, st, MatchPair(trimmed).value, indent);
    }
  }

  lemma {:induction false} ReadLinesLayered(step: (Reader, string) -> Reader, st: Reader, lines: seq<string>)
    requires LayeredReader(st) && forall l :: l in lines ==> '\n' !in l
    requires forall s: Reader, line: string :: LayeredReader(s) && '\n' !in line ==> LayeredReader(step(s, line))
    ensures LayeredReader(ReadLines(step, st, lines))
  {
    if lines == [] {
    } else {
      ReadLinesLayered(step, st, lines[..|lines| - 1]);
      assert lines[|lines| - 1] in lines;
    }
  }

  lemma ScalarsAreFlat(s: string)
    ensures Flat(ParseScalar(s))
  {
    ParseNotKeyword(s);
  }

  lemma ReadLineLayered(st: Reader, line: string)
    requires LayeredReader(st) && '\n' !in line
    ensures LayeredReader(ReadLine(st, line))
  {
    TrimIsTrimmed(line);
    forall s ensures Flat(ParseScalar(s)) {
      ScalarsAreFlat(s);
    }
    ReadTrimmedLayered(ParseScalar, st, Trim(line), |line| - |TrimStart(line)|);
  }

  /** Whatever the text, the reader yields at most two levels with well-formed, different keys. */
  lemma ParsedIsLayered(content: string)
    ensures Parse(content).Some? ==> Layered(Parse(content).value)
  {
    forall s: Reader, line: string | LayeredReader(s) && '\n' !in line ensures LayeredReader(ReadLine(s, line)) {
      ReadLineLayered(s, line);
    }
    ReadLinesLayered(ReadLine, START, Lines(content));
  }

  // -------------------------------------------------- what the defaults add to it

  /** Nothing in it is a fractional number, the one kind of scalar that is not modelled exactly. */
  ghost predicate NoFraction(d: Dict) {
    forall f :: f in d ==>
      !f.value.Fraction? && (f.value.Obj? ==> forall g :: g in f.value.fields ==> !g.value.Fraction?)
  }

  /** A section a save can print on one line per value. */
  ghost predicate PrintableSection(d: Dict) {
    IsSection(d) && forall f :: f in d ==> OneLine(f.value)
  }

  ghost predicate PrintableValue(v: Value) {
    if v.Obj? then PrintableSection(v.fields) else IsScalar(v) && OneLine(v)
  }

  ghost predicate PrintableConfig(d: Dict) {
    GoodKeys(d) && forall f :: f in d ==> PrintableValue(f.value)
  }

  lemma PrintableIsBoth(d: Dict)
    ensures PrintableConfig(d) <==> TwoLevels(d) && ConfigOneLine(d)
  {
  }

  lemma ParsedIsPrintable(content: string)
    requires Parse(content).Some? && NoFraction(Parse(content).value)
    ensures PrintableConfig(Parse(content).value)
  {
    var d := Parse(content).value;
    ParsedIsLayered(content);
    ParsedIsClean(content);
    CleanIsOneLine(d);
    forall f | f in d ensures PrintableValue(f.value) {
    }
  }

  lemma PutPrintable(d: Dict, key: string, v: Value)
    requires PrintableConfig(d) && WellFormedKey(key) && PrintableValue(v)
    ensures PrintableConfig(Put(d, key, v))
  {
    PutGoodKeys(d, key, v);
    forall f | f in Put(d, key, v) ensures PrintableValue(f.value) {
      PutMembers(d, key, v, f);
    }
  }

  lemma PutPrintableSection(d: Dict, key: string, v: Value)
    requires PrintableSection(d) && WellFormedKey(key) && IsScalar(v) && OneLine(v)
    ensures PrintableSection(Put(d, key, v))
  {
    PutGoodKeys(d, key, v);
    forall f | f in Put(d, key, v) ensures IsScalar(f.value) && OneLine(f.value) {
      PutMembers(d, key, v, f);
    }
  }

  ghost predicate PrintableField(f: Field) {
    WellFormedKey(f.key) && IsScalar(f.value) && OneLine(f.value)
  }

  lemma {:induction false} SpreadPrintable(base: Dict, over: Dict)
    requires PrintableConfig(base) && forall f :: f in over ==> WellFormedKey(f.key) && PrintableValue(f.value)
    ensures PrintableConfig(Spread(base, over))
  {
    if over == [] {
    } else {
      var last := over[|over| - 1];
      SpreadPrintable(base, over[..|over| - 1]);
      assert last in over;
      PutPrintable(Spread(base, over[..|over| - 1]), last.key, last.value);
    }
  }

  lemma {:induction false} SpreadPrintableSection(base: Dict, over: Dict)
    requires PrintableSection(base) && forall f :: f in over ==> PrintableField(f)
    ensures PrintableSection(Spread(base, over))
  {
    if over == [] {
    } else {
      var last := over[|over| - 1];
      SpreadPrintableSection(base, over[..|over| - 1]);
      assert last in over;
      PutPrintableSection(Spread(base, over[..|over| - 1]), last.key, last.value);
    }
  }

  lemma IndexKey(i: nat)
    ensures WellFormedKey(IntText(i))
  {
    var s := NatToString(i);
    assert s[0] in s && s[|s| - 1] in s;
  }

  /** Spreading a string into a section gives its characters under their indices. */
  lemma SpreadableIsPrintable(parsed: Dict, key: string)
    requires PrintableConfig(parsed)
    ensures forall f :: f in Spreadable(Get(parsed, key)) ==> PrintableField(f)
  {
    GetMember(parsed, key);
    var v := Get(parsed, key);
    if v.Some? && v.value.Str? {
      var s := v.value.s;
      forall i | 0 <= i < |s| ensures PrintableField(Field(IntText(i), Str([s[i]]))) {
        IndexKey(i);
        assert s[i] in s;
      }
    }
  }

  lemma WithSectionPrintable(d: Dict, key: string, base: Dict, parsed: Dict)
    requires PrintableConfig(d) && PrintableConfig(parsed) && PrintableSection(base) && WellFormedKey(key)
    ensures PrintableConfig(WithSection(d, key, base, parsed))
  {
    SpreadableIsPrintable(parsed, key);
    SpreadPrintableSection(base, Spreadable(Get(parsed, key)));
    PutPrintable(d, key, Obj(Spread(base, Spreadable(Get(parsed, key)))));
  }

  lemma GoodSectionIsPrintable(d: Dict)
    requires IsSection(d) && SectionSurvives(d)
    ensures PrintableSection(d)
  {
  }

  lemma DefaultsArePrintable()
    ensures PrintableConfig(DEFAULTS)
    ensures PrintableSection(PROVIDERS) && PrintableSection(TELEMETRY) && PrintableSection(UPDATES)
  {
    DefaultsAreGood();
    CleanIsOneLine(DEFAULTS);
    PrintableIsBoth(DEFAULTS);
    ProvidersAreGood(PROVIDERS);
    TelemetryIsGood(TELEMETRY);
    UpdatesAreGood(UPDATES);
    GoodSectionIsPrintable(PROVIDERS);
    GoodSectionIsPrintable(TELEMETRY);
    GoodSectionIsPrintable(UPDATES);
  }

  lemma MergedIsPrintable(parsed: Dict)
    requires PrintableConfig(parsed)
    ensures PrintableConfig(Merge(parsed))
  {
    DefaultsArePrintable();
    SpreadPrintable(DEFAULTS, parsed);
    DefaultKeyIsWellFormed("defaults");
    DefaultKeyIsWellFormed("telemetry");
    DefaultKeyIsWellFormed("updates");
    var a := Spread(DEFAULTS, parsed);
    WithSectionPrintable(a, "defaults", PROVIDERS, parsed);
    var b := WithSection(a, "defaults", PROVIDERS, parsed);
    WithSectionPrintable(b, "telemetry", TELEMETRY, parsed);
    WithSectionPrintable(WithSection(b, "telemetry", TELEMETRY, parsed), "updates", UPDATES, parsed);
  }

  /** A file none of whose values is read as a fractional number. */
  ghost predicate WithoutFractions(file: Option<string>) {
    file.Some? && Parse(file.value).Some? ==> NoFraction(Parse(file.value).value)
  }

  lemma LoadedIsPrintable(file: Option<string>)
    requires WithoutFractions(file)
    ensures PrintableConfig(Loaded(file)) && Shaped(Loaded(file))
  {
    LoadedIsShaped(file);
    DefaultsArePrintable();
    if file.Some? && Parse(file.value).Some? {
      ParsedIsPrintable(file.value);
      MergedIsPrintable(Parse(file.value).value);
    }
  }

  // --------------------------------------------------- what a save and a load do

  /** A configuration after it was printed and read, value by value. */
  function Reread(d: Dict): Dict {
    MapValues(Top(ParseScalar, Suffix), d)
  }

  lemma {:induction false} GetMapped(f: Value -> Value, d: Dict, key: string)
    ensures Get(MapValues(f, d), key) == if Get(d, key).Some? then Some(f(Get(d, key).value)) else None
  {
    if d != [] && d[0].key != key {
      GetMapped(f, d[1..], key);
      assert MapValues(f, d)[1..] == MapValues(f, d[1..]);
    }
  }

  /** A change of values that leaves objects objects with the same keys. */
  ghost predicate KeepsSections(f: Value -> Value, g: Value -> Value) {
    forall fields: Dict :: f(Obj(fields)) == Obj(MapValues(g, fields))
  }

  lemma SectionMapped(f: Value -> Value, g: Value -> Value, d: Dict, key: string, base: Dict)
    requires KeepsSections(f, g) && HasSection(d, key, base)
    ensures HasSection(MapValues(f, d), key, base)
  {
    GetMapped(f, d, key);
    var fields := Get(d, key).value.fields;
    assert f(Obj(fields)) == Obj(MapValues(g, fields));
  }

  lemma MappedKeys(f: Value -> Value, d: Dict, base: Dict)
    requires BeginsLike(d, base)
    ensures BeginsLike(MapValues(f, d), base)
    ensures DistinctKeys(d) ==> DistinctKeys(MapValues(f, d))
  {
  }

  lemma MappedIsShaped(f: Value -> Value, g: Value -> Value, d: Dict)
    requires KeepsSections(f, g) && Shaped(d)
    ensures Shaped(MapValues(f, d))
  {
    MappedKeys(f, d, DEFAULTS);
    SectionMapped(f, g, d, "defaults", PROVIDERS);
    SectionMapped(f, g, d, "telemetry", TELEMETRY);
    SectionMapped(f, g, d, "updates", UPDATES);
  }

  lemma TopKeepsSections(scalar: string -> Value, suffix: Value -> string)
    ensures KeepsSections(Top(scalar, suffix), Nested(scalar, suffix))
  {
  }

  lemma LoadedFrom(text: string, r: Dict)
    requires Parse(text) == Some(r) && Shaped(r)
    ensures Loaded(Some(text)) == r
  {
    MergeShaped(r);
  }

  /** Saving and loading rereads every value where it stands, and changes nothing exactly when every scalar survives. */
  lemma SaveAndLoad(d: Dict)
    requires Shaped(d) && PrintableConfig(d)
    ensures Loaded(Some(Serialize(d, 0))) == Reread(d)
    ensures Loaded(Some(Serialize(d, 0))) == d <==> ConfigSurvives(d)
  {
    PrintableIsBoth(d);
    ParsePrinted(d);
    TopKeepsSections(ParseScalar, Suffix);
    MappedIsShaped(Top(ParseScalar, Suffix), Nested(ParseScalar, Suffix), d);
    LoadedFrom(Serialize(d, 0), Reread(d));
    ConfigExactly(d);
  }

  /** A value under a two-segment key is reread by itself; under a key that leads through no object there is none. */
  lemma RereadAt(scalar: string -> Value, suffix: Value -> string, d: Dict, section: string, key: string)
    requires forall s :: Flat(scalar(s))
    ensures var v := GetPath(Some(Obj(d)), [section, key]);
            GetPath(Some(Obj(MapValues(Top(scalar, suffix), d))), [section, key]) ==
            if v.Some? then Some(Nested(scalar, suffix)(v.value)) else None
  {
    TwoDeep(d, section, key);
    TwoDeep(MapValues(Top(scalar, suffix), d), section, key);
    GetMapped(Top(scalar, suffix), d, section);
    var v := Get(d, section);
    if v.Some? {
      TopAt(scalar, suffix, v.value, key);
    }
  }

  lemma TopOfObject(scalar: string -> Value, suffix: Value -> string, fields: Dict, key: string)
    ensures Below(Some(Top(scalar, suffix)(Obj(fields))), key) ==
            var x := Get(fields, key); if x.Some? then Some(Nested(scalar, suffix)(x.value)) else None
  {
    GetMapped(Nested(scalar, suffix), fields, key);
    TopKeepsSections(scalar, suffix);
    assert Top(scalar, suffix)(Obj(fields)) == Obj(MapValues(Nested(scalar, suffix), fields));
  }

  lemma TopOfFlat(scalar: string -> Value, suffix: Value -> string, v: Value, key: string)
    requires Flat(v) && forall s :: Flat(scalar(s))
    ensures Below(Some(Top(scalar, suffix)(v)), key) == None
  {
    var r := Top(scalar, suffix)(v);
    var t := Trim(suffix(v));
    assert Flat(scalar(t));
    assert r == if t == "" then Obj([]) else scalar(t);
  }

  /** Looking a key up in a reread value; a flat value that turns into a section turns into an empty one. */
  lemma TopAt(scalar: string -> Value, suffix: Value -> string, v: Value, key: string)
    requires forall s :: Flat(scalar(s))
    ensures Below(Some(Top(scalar, suffix)(v)), key) ==
            var x := Below(Some(v), key); if x.Some? then Some(Nested(scalar, suffix)(x.value)) else None
  {
    if v.Obj? {
      TopOfObject(scalar, suffix, v.fields, key);
    } else {
      TopOfFlat(scalar, suffix, v, key);
    }
  }

  function Below(v: Option<Value>, key: string): Option<Value> {
    if v.Some? && v.value.Obj? then Get(v.value.fields, key) else None
  }

  lemma TwoDeep(d: Dict, section: string, key: string)
    ensures GetPath(Some(Obj(d)), [section, key]) == Below(Get(d, section), key)
  {
    var path := [section, key];
    assert path[1..] == [key] && path[1..][1..] == [];
    assert GetPath(Some(Obj(d)), path) == GetPath(Get(d, section), path[1..]);
    OneDeep(Get(d, section), [key]);
  }

  lemma OneDeep(v: Option<Value>, path: seq<string>)
    requires |path| == 1
    ensures GetPath(v, path) == Below(v, path[0])
  {
    assert path[1..] == [];
  }

  lemma SetKeepsPrintable(d: Dict, section: string, key: string, v: Value)
    requires Shaped(d) && PrintableConfig(d) && WellFormedKey(section) && WellFormedKey(key) && IsScalar(v)
             && OneLine(v)
    ensures Shaped(SetPath(d, [section, key], v)) && PrintableConfig(SetPath(d, [section, key], v))
  {
    var fields := FieldsOf(Get(d, section));
    assert [section, key][1..] == [key];
    GetMember(d, section);
    PutPrintableSection(fields, key, v);
    PutPrintable(d, section, Obj(Put(fields, key, v)));
    PutShape(d, section, Obj(Put(fields, key, v)));
    SectionKept(d, section, key, v, "defaults", PROVIDERS);
    SectionKept(d, section, key, v, "telemetry", TELEMETRY);
    SectionKept(d, section, key, v, "updates", UPDATES);
  }

  lemma OtherKey(section: string, key: string, section2: string, key2: string)
    requires [section, key] != [section2, key2]
    ensures !([section, key] <= [section2, key2]) && !([section2, key2] <= [section, key])
  {
    assert [section, key][..2] == [section, key] && [section2, key2][..2] == [section2, key2];
  }

  /** Setting a value without line terminators and reloading: what every two-segment key then reads as. */
  lemma ReloadAfterSet(d: Dict, section: string, key: string, v: Value, section2: string, key2: string)
    requires Shaped(d) && PrintableConfig(d) && WellFormedKey(section) && WellFormedKey(key) && IsScalar(v)
             && OneLine(v)
    ensures var memory := SetPath(d, [section, key], v);
            var stored := GetPath(Some(Obj(memory)), [section2, key2]);
            var read := GetPath(Some(Obj(Loaded(Some(Serialize(memory, 0))))), [section2, key2]);
            && (stored.None? ==> read == None)
            && (stored.Some? ==> IsScalar(stored.value) && read == Some(ParseScalar(Trim(Suffix(stored.value)))))
            && (read == stored <==> stored.None? || Survives(stored.value))
  {
    var memory := SetPath(d, [section, key], v);
    SetKeepsPrintable(d, section, key, v);
    SaveAndLoad(memory);
    forall s ensures Flat(ParseScalar(s)) {
      ScalarsAreFlat(s);
    }
    RereadAt(ParseScalar, Suffix, memory, section2, key2);
    StoredIsScalar(memory, section2, key2);
    var stored := GetPath(Some(Obj(memory)), [section2, key2]);
    if stored.Some? {
      NestedExactly(stored.value);
    }
  }

  lemma {:induction false} SpreadKeepsClean(base: Dict, over: Dict)
    ensures CleanConfig(base) && CleanConfig(over) ==> CleanConfig(Spread(base, over))
    ensures CleanSection(base) && CleanSection(over) ==> CleanSection(Spread(base, over))
  {
    if over == [] {
    } else {
      var last := over[|over| - 1];
      SpreadKeepsClean(base, over[..|over| - 1]);
      assert last in over;
      PutKeepsClean(Spread(base, over[..|over| - 1]), last.key, last.value);
    }
  }

  lemma WithSectionClean(d: Dict, key: string, base: Dict, parsed: Dict)
    requires CleanConfig(d) && CleanConfig(parsed) && CleanSection(base)
    ensures CleanConfig(WithSection(d, key, base, parsed))
  {
    GetMember(parsed, key);
    SpreadKeepsClean(base, Spreadable(Get(parsed, key)));
    PutKeepsClean(d, key, Obj(Spread(base, Spreadable(Get(parsed, key)))));
  }

  lemma SectionsKeepClean(all: Dict, parsed: Dict, defaults: string, providers: Dict, telemetry: string, enabled: Dict,
                          updates: string, channel: Dict)
    requires CleanConfig(all) && CleanConfig(parsed)
    requires CleanSection(providers) && CleanSection(enabled) && CleanSection(channel)
    ensures var one := WithSection(all, defaults, providers, parsed);
            CleanConfig(WithSection(WithSection(one, telemetry, enabled, parsed), updates, channel, parsed))
  {
    WithSectionClean(all, defaults, providers, parsed);
    WithSectionClean(WithSection(all, defaults, providers, parsed), telemetry, enabled, parsed);
    WithSectionClean(WithSection(WithSection(all, defaults, providers, parsed), telemetry, enabled, parsed),
                     updates, channel, parsed);
  }

  lemma DefaultsAreClean()
    ensures CleanConfig(DEFAULTS) && CleanSection(PROVIDERS) && CleanSection(TELEMETRY) && CleanSection(UPDATES)
  {
    DefaultsArePrintable();
  }

  lemma MergedIsClean(parsed: Dict)
    requires CleanConfig(parsed)
    ensures CleanConfig(Merge(parsed))
  {
    DefaultsAreClean();
    SpreadKeepsClean(DEFAULTS, parsed);
    SectionsKeepClean(Spread(DEFAULTS, parsed), parsed, "defaults", PROVIDERS, "telemetry", TELEMETRY, "updates",
                      UPDATES);
  }

  /** Whatever the file, no string loaded from it has a line terminator. */
  lemma LoadedIsClean(file: Option<string>)
    ensures CleanConfig(Loaded(file))
  {
    if file.Some? && Parse(file.value).Some? {
      ParsedIsClean(file.value);
      MergedIsClean(Parse(file.value).value);
    } else {
      DefaultsAreClean();
    }
  }

  lemma LoadedValueIsOneLine(file: Option<string>, section: string, key: string)
    ensures var v := GetPath(Some(Obj(Loaded(file))), [section, key]); v.Some? ==> OneLine(v.value)
  {
    var d := Loaded(file);
    LoadedIsClean(file);
    TwoDeep(d, section, key);
    GetMember(d, section);
    var v := Get(d, section);
    if v.Some? && v.value.Obj? {
      GetMember(v.value.fields, key);
    }
  }

  /** What a fresh load finds after a setting was saved. */
  function Reloaded(d: Dict, section: string, key: string, v: Value): Option<Value> {
    Some(Obj(Loaded(Some(Serialize(SetPath(d, [section, key], v), 0)))))
  }

  lemma OthersAfterSet(d: Dict, section: string, key: string, v: Value, section2: string, key2: string)
    requires Shaped(d) && PrintableConfig(d) && WellFormedKey(section) && WellFormedKey(key) && IsScalar(v)
             && OneLine(v)
    requires [section2, key2] != [section, key]
    ensures var before := GetPath(Some(Obj(d)), [section2, key2]);
            GetPath(Reloaded(d, section, key, v), [section2, key2]) == before <==>
            before.None? || Survives(before.value)
  {
    ReloadAfterSet(d, section, key, v, section2, key2);
    OtherKey(section, key, section2, key2);
    SetKeepsOthers(d, [section, key], v, [section2, key2]);
  }

  lemma ItselfAfterSet(d: Dict, section: string, key: string, v: Value)
    requires Shaped(d) && PrintableConfig(d) && WellFormedKey(section) && WellFormedKey(key) && IsScalar(v)
    ensures GetPath(Reloaded(d, section, key, v), [section, key]) == Some(v) <==> Survives(v)
  {
    if OneLine(v) {
      ReloadAfterSet(d, section, key, v, section, key);
      GetAfterSet(d, [section, key], v);
    } else {
      LoadedValueIsOneLine(Some(Serialize(SetPath(d, [section, key], v), 0)), section, key);
    }
  }

  lemma ParsedIsScalar(value: string)
    ensures IsScalar(ParseValue(value)) || ParseValue(value).Fraction?
  {
  }

  /**
   * From any file without fractional numbers, exactly: the setting of a two-segment key is read back by a fresh load
   * if and only if its value survives, and every other two-segment key reads as before if and only if it had no
   * value or one that survives, unless the new value has a line terminator.
   */
  lemma SetReloadGetAny(file: Option<string>, section: string, key: string, value: string, section2: string,
                        key2: string)
    requires WithoutFractions(file) && WellFormedKey(section) && WellFormedKey(key) && !ParseValue(value).Fraction?
    ensures var (d, v) := (Loaded(file), ParseValue(value));
            var before := GetPath(Some(Obj(d)), [section2, key2]);
            && (GetPath(Reloaded(d, section, key, v), [section, key]) == Some(v) <==> Survives(v))
            && ([section2, key2] != [section, key] && OneLine(v) ==>
                  (GetPath(Reloaded(d, section, key, v), [section2, key2]) == before <==>
                   before.None? || Survives(before.value)))
  {
    LoadedIsPrintable(file);
    ParsedIsScalar(value);
    ItselfAfterSet(Loaded(file), section, key, ParseValue(value));
    if [section2, key2] != [section, key] && OneLine(ParseValue(value)) {
      OthersAfterSet(Loaded(file), section, key, ParseValue(value), section2, key2);
    }
  }

  /** Any two-segment key set to `~` holds that string in memory, and null after a reload. */
  lemma TildeIsReloadedAsNull(file: Option<string>, section: string, key: string)
    requires WithoutFractions(file) && WellFormedKey(section) && WellFormedKey(key)
    ensures var memory := SetPath(Loaded(file), [section, key], ParseValue("~"));
            && GetPath(Some(Obj(memory)), [section, key]) == Some(Str("~"))
            && GetPath(Reloaded(Loaded(file), section, key, ParseValue("~")), [section, key]) == Some(Null)
  {
    LoadedIsPrintable(file);
    TildeIsString();
    GetAfterSet(Loaded(file), [section, key], Str("~"));
    ReloadAfterSet(Loaded(file), section, key, Str("~"), section, key);
  }

  lemma TildeIsString()
    ensures ParseValue("~") == Str("~") && OneLine(Str("~"))
    ensures ParseScalar(Trim(Suffix(Str("~")))) == Null
  {
    var t := "~";
    assert Unsigned(t) == t && '~' in t && '.' !in t;
    assert Suffix(Str(t)) == " " + t;
    TrimSpaced(t);
    TrimKept(t);
  }

  lemma StoredIsScalar(d: Dict, section: string, key: string)
    requires PrintableConfig(d)
    ensures var v := GetPath(Some(Obj(d)), [section, key]); v.Some? ==> IsScalar(v.value) && OneLine(v.value)
  {
    TwoDeep(d, section, key);
    GetMember(d, section);
    var v := Get(d, section);
    if v.Some? && v.value.Obj? {
      GetMember(v.value.fields, key);
    }
  }
}
