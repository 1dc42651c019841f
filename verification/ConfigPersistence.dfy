/** Setting, saving and loading again: when the file is as good as the memory. */
module ConfigPersistence {
  import opened Collections
  import opened Text
  import opened SimpleYaml
  import opened YamlRoundTrip
  import opened YamlExact
  import opened UserConfig

  // ---------------------------------------------------------------- key order

  /** d begins with the keys of base, in their order. */
  ghost predicate BeginsLike(d: Dict, base: Dict) {
    |base| <= |d| && forall i :: 0 <= i < |base| ==> d[i].key == base[i].key
  }

  lemma {:induction false} PutKeys(d: Dict, key: string, v: Value)
    requires Get(d, key).Some?
    ensures |Put(d, key, v)| == |d| && forall i :: 0 <= i < |d| ==> Put(d, key, v)[i].key == d[i].key
  {
    if d[0].key != key {
      PutKeys(d[1..], key, v);
      assert forall i :: 0 < i < |d| ==> Put(d, key, v)[i] == Put(d[1..], key, v)[i - 1] && d[i] == d[1..][i - 1];
    } else {
      assert forall i :: 0 < i < |d| ==> Put(d, key, v)[i] == d[i];
    }
  }

  lemma PutShape(d: Dict, key: string, v: Value)
    ensures BeginsLike(Put(d, key, v), d)
    ensures DistinctKeys(d) ==> DistinctKeys(Put(d, key, v))
  {
    if Get(d, key).Some? {
      PutKeys(d, key, v);
    } else {
      PutAppends(d, key, v);
      GetAbsent(d, key);
    }
  }

  lemma {:induction false} SpreadShape(base: Dict, over: Dict)
    requires DistinctKeys(base)
    ensures BeginsLike(Spread(base, over), base) && DistinctKeys(Spread(base, over))
  {
    if over == [] {
    } else {
      var before := Spread(base, over[..|over| - 1]);
      SpreadShape(base, over[..|over| - 1]);
      PutShape(before, over[|over| - 1].key, over[|over| - 1].value);
    }
  }

  lemma {:induction false} PutAtPosition(a: Dict, was: Field, b: Dict, v: Value)
    requires forall i :: 0 <= i < |a| ==> a[i].key != was.key
    ensures Put(a + [was] + b, was.key, v) == a + [Field(was.key, v)] + b
  {
    var d := a + [was] + b;
    if a == [] {
      assert d[1..] == b;
      assert [] + [Field(was.key, v)] + b == [Field(was.key, v)] + b;
    } else {
      assert d[1..] == a[1..] + [was] + b;
      PutAtPosition(a[1..], was, b, v);
      assert [a[0]] + (a[1..] + [Field(was.key, v)] + b) == a + [Field(was.key, v)] + b;
    }
  }

  lemma SpreadStep(base: Dict, over: Dict, n: nat)
    requires n < |over| && DistinctKeys(over) && BeginsLike(over, base)
    ensures n < |base| ==> Put(over[..n] + base[n..], over[n].key, over[n].value) == over[..n + 1] + base[n + 1..]
    ensures n >= |base| ==> Put(over[..n], over[n].key, over[n].value) == over[..n + 1]
  {
    if n < |base| {
      assert over[..n] + base[n..] == over[..n] + [base[n]] + base[n + 1..];
      PutAtPosition(over[..n], base[n], base[n + 1..], over[n].value);
      assert over[..n + 1] == over[..n] + [over[n]];
    } else {
      GetAbsent(over[..n], over[n].key);
      PutAppends(over[..n], over[n].key, over[n].value);
      assert over[..n + 1] == over[..n] + [over[n]];
    }
  }

  lemma {:induction false} SpreadPrefix(base: Dict, over: Dict, n: nat)
    requires n <= |over| && DistinctKeys(over) && BeginsLike(over, base)
    ensures Spread(base, over[..n]) == if n < |base| then over[..n] + base[n..] else over[..n]
  {
    if n == 0 {
      assert over[..0] + base[0..] == base;
    } else {
      assert over[..n][..n - 1] == over[..n - 1];
      SpreadPrefix(base, over, n - 1);
      SpreadStep(base, over, n - 1);
      if n == |base| {
        assert over[..n] + base[n..] == over[..n];
      }
    }
  }

  /** Overlaying something that already has the base's keys in order gives just that. */
  lemma SpreadOverItself(base: Dict, over: Dict)
    requires DistinctKeys(over) && BeginsLike(over, base)
    ensures Spread(base, over) == over
  {
    SpreadPrefix(base, over, |over|);
    assert over[..|over|] == over;
  }

  // ------------------------------------------------------- loaded configurations

  ghost predicate HasSection(d: Dict, key: string, base: Dict) {
    var v := Get(d, key);
    v.Some? && v.value.Obj? && BeginsLike(v.value.fields, base) && DistinctKeys(v.value.fields)
  }

  /** What every loaded configuration looks like: the default keys first, and its three sections likewise. */
  ghost predicate Shaped(d: Dict) {
    && DistinctKeys(d) && BeginsLike(d, DEFAULTS)
    && HasSection(d, "defaults", PROVIDERS)
    && HasSection(d, "telemetry", TELEMETRY)
    && HasSection(d, "updates", UPDATES)
  }

  lemma {:induction false} PutSame(d: Dict, key: string, v: Value)
    requires Get(d, key) == Some(v)
    ensures Put(d, key, v) == d
  {
    if d[0].key != key {
      PutSame(d[1..], key, v);
      assert [d[0]] + d[1..] == d;
    } else {
      assert [Field(key, v)] + d[1..] == d;
    }
  }

  lemma WithSectionSame(d: Dict, key: string, base: Dict)
    requires HasSection(d, key, base)
    ensures WithSection(d, key, base, d) == d
  {
    SpreadOverItself(base, Get(d, key).value.fields);
    PutSame(d, key, Get(d, key).value);
  }

  /** Merging the defaults under a shaped configuration changes nothing. */
  lemma MergeShaped(d: Dict)
    requires Shaped(d)
    ensures Merge(d) == d
  {
    SpreadOverItself(DEFAULTS, d);
    WithSectionSame(d, "defaults", PROVIDERS);
    WithSectionSame(d, "telemetry", TELEMETRY);
    WithSectionSame(d, "updates", UPDATES);
  }

  /** A shaped configuration whose scalars all survive is loaded back from its file as it was. */
  lemma SaveThenLoad(d: Dict)
    requires Shaped(d) && TwoLevels(d) && ConfigSurvives(d)
    ensures Loaded(Some(Serialize(d, 0))) == d
  {
    YamlRoundTripExactly(d);
    MergeShaped(d);
  }

  lemma {:induction false} GetAt(d: Dict, i: nat)
    requires DistinctKeys(d) && i < |d|
    ensures Get(d, d[i].key) == Some(d[i].value)
  {
    if i == 0 {
    } else {
      assert d[0].key != d[i].key;
      assert d[1..][i - 1] == d[i];
      GetAt(d[1..], i - 1);
    }
  }

  lemma SectionAt(d: Dict, i: nat, base: Dict)
    requires DistinctKeys(d) && DistinctKeys(base) && i < |d| && d[i].value == Obj(base)
    ensures HasSection(d, d[i].key, base)
  {
    GetAt(d, i);
  }

  lemma DefaultsAreShaped()
    ensures Shaped(DEFAULTS)
  {
    BaseKeysDistinct();
    SectionAt(DEFAULTS, 2, PROVIDERS);
    SectionAt(DEFAULTS, 3, TELEMETRY);
    SectionAt(DEFAULTS, 4, UPDATES);
  }

  lemma WithSectionShape(d: Dict, key: string, base: Dict, parsed: Dict)
    requires DistinctKeys(d) && DistinctKeys(base)
    ensures var r := WithSection(d, key, base, parsed);
            && DistinctKeys(r) && |r| >= |d| && BeginsLike(r, d)
            && HasSection(r, key, base)
            && forall other :: other != key ==> Get(r, other) == Get(d, other)
  {
    SpreadShape(base, Spreadable(Get(parsed, key)));
    var v := Obj(Spread(base, Spreadable(Get(parsed, key))));
    PutShape(d, key, v);
    forall other ensures Get(Put(d, key, v), other) == if other == key then Some(v) else Get(d, other) {
      GetPut(d, key, v, other);
    }
  }

  lemma BaseKeysDistinct()
    ensures DistinctKeys(DEFAULTS) && DistinctKeys(PROVIDERS) && DistinctKeys(TELEMETRY) && DistinctKeys(UPDATES)
  {
  }

  /** Whatever the file holds, what is loaded from it is shaped. */
  lemma LoadedIsShaped(file: Option<string>)
    ensures Shaped(Loaded(file))
  {
    DefaultsAreShaped();
    if file.Some? && Parse(file.value).Some? {
      MergedIsShaped(Parse(file.value).value);
    }
  }

  lemma MergedIsShaped(parsed: Dict)
    ensures Shaped(Merge(parsed))
  {
    BaseKeysDistinct();
    var a := Spread(DEFAULTS, parsed);
    SpreadShape(DEFAULTS, parsed);
    var b := WithSection(a, "defaults", PROVIDERS, parsed);
    WithSectionShape(a, "defaults", PROVIDERS, parsed);
    var c := WithSection(b, "telemetry", TELEMETRY, parsed);
    WithSectionShape(b, "telemetry", TELEMETRY, parsed);
    WithSectionShape(c, "updates", UPDATES, parsed);
  }

  // ------------------------------------------------------------- safe settings

  /** A key of two well-formed segments and a value that survives. */
  predicate SafeSetting(section: string, key: string, v: Value) {
    WellFormedKey(section) && WellFormedKey(key) && IsScalar(v) && Survives(v)
  }

  ghost predicate Good(d: Dict) {
    Shaped(d) && TwoLevels(d) && ConfigSurvives(d)
  }

  lemma PutGoodKeys(d: Dict, key: string, v: Value)
    requires GoodKeys(d) && WellFormedKey(key)
    ensures GoodKeys(Put(d, key, v))
  {
    PutShape(d, key, v);
    forall f | f in Put(d, key, v) ensures WellFormedKey(f.key) {
      PutMembers(d, key, v, f);
    }
  }

  lemma PutInSection(d: Dict, key: string, v: Value)
    requires IsSection(d) && SectionSurvives(d) && WellFormedKey(key) && IsScalar(v) && Survives(v)
    ensures IsSection(Put(d, key, v)) && SectionSurvives(Put(d, key, v))
  {
    PutGoodKeys(d, key, v);
    forall f | f in Put(d, key, v) ensures IsScalar(f.value) && Survives(f.value) {
      PutMembers(d, key, v, f);
    }
  }

  lemma PutSection(d: Dict, key: string, fields: Dict)
    requires TwoLevels(d) && ConfigSurvives(d) && WellFormedKey(key) && IsSection(fields) && SectionSurvives(fields)
    ensures TwoLevels(Put(d, key, Obj(fields))) && ConfigSurvives(Put(d, key, Obj(fields)))
  {
    var r := Put(d, key, Obj(fields));
    PutGoodKeys(d, key, Obj(fields));
    forall f | f in r
      ensures IsScalar(f.value) || (f.value.Obj? && IsSection(f.value.fields))
      ensures if f.value.Obj? then SectionSurvives(f.value.fields) else Survives(f.value)
    {
      PutMembers(d, key, Obj(fields), f);
    }
  }

  lemma OldFields(d: Dict, section: string)
    requires TwoLevels(d) && ConfigSurvives(d)
    ensures IsSection(FieldsOf(Get(d, section))) && SectionSurvives(FieldsOf(Get(d, section)))
  {
    GetMember(d, section);
  }

  lemma SectionKept(d: Dict, section: string, key: string, v: Value, name: string, base: Dict)
    requires HasSection(d, name, base)
    ensures HasSection(SetPath(d, [section, key], v), name, base)
  {
    var fields := FieldsOf(Get(d, section));
    assert [section, key][1..] == [key];
    GetPut(d, section, Obj(Put(fields, key, v)), name);
    PutShape(fields, key, v);
  }

  /** A safe setting keeps a configuration good. */
  lemma SetKeepsGood(d: Dict, section: string, key: string, v: Value)
    requires Good(d) && SafeSetting(section, key, v)
    ensures Good(SetPath(d, [section, key], v))
  {
    var fields := FieldsOf(Get(d, section));
    assert [section, key][1..] == [key];
    OldFields(d, section);
    PutInSection(fields, key, v);
    PutSection(d, section, Put(fields, key, v));
    PutShape(d, section, Obj(Put(fields, key, v)));
    SectionKept(d, section, key, v, "defaults", PROVIDERS);
    SectionKept(d, section, key, v, "telemetry", TELEMETRY);
    SectionKept(d, section, key, v, "updates", UPDATES);
  }

  /**
   * Set, save, reload, get: from any file whose configuration survives, a safe setting of a
   * two-segment key is read back by a fresh load, the whole configuration is the one that was in
   * memory, and every key that neither contains nor is contained in the one set reads as before.
   */
  lemma SetReloadGet(file: Option<string>, section: string, key: string, value: string, other: seq<string>)
    requires TwoLevels(Loaded(file)) && ConfigSurvives(Loaded(file)) && SafeSetting(section, key, ParseValue(value))
    ensures var memory := SetPath(Loaded(file), [section, key], ParseValue(value));
            var reloaded := Loaded(Some(Serialize(memory, 0)));
            && reloaded == memory
            && GetPath(Some(Obj(reloaded)), [section, key]) == Some(ParseValue(value))
            && (!([section, key] <= other) && !(other <= [section, key]) ==>
                  GetPath(Some(Obj(reloaded)), other) == GetPath(Some(Obj(Loaded(file))), other))
  {
    var v := ParseValue(value);
    LoadedIsShaped(file);
    SetKeepsGood(Loaded(file), section, key, v);
    SaveThenLoad(SetPath(Loaded(file), [section, key], v));
    GetAfterSet(Loaded(file), [section, key], v);
    if !([section, key] <= other) && !(other <= [section, key]) {
      SetKeepsOthers(Loaded(file), [section, key], v, other);
    }
  }

  /** Splitting a dotted key of two dot-free segments gives the segments. */
  lemma TwoSegments(section: string, key: string)
    requires '.' !in section && '.' !in key
    ensures Split(section + "." + key, '.') == [section, key]
  {
    SplitFirst(section, '.', key);
  }

  // -------------------------------------------------------------------- runs

  datatype Action = SetKey(section: string, key: string, value: string) | Restart

  datatype Process = Process(file: Option<string>, cache: Option<Dict>)

  function Memory(p: Process): Dict {
    if p.cache.Some? then p.cache.value else Loaded(p.file)
  }

  function Act(p: Process, a: Action): Process {
    match a
    case SetKey(section, key, value) =>
      var d := SetPath(Memory(p), [section, key], ParseValue(value));
      Process(Some(Serialize(d, 0)), Some(d))
    case Restart => p.(cache := None)
  }

  function RunActions(p: Process, actions: seq<Action>): Process {
    if actions == [] then p else Act(RunActions(p, actions[..|actions| - 1]), actions[|actions| - 1])
  }

  /** The same settings made in memory, with no file and no restarts. */
  function InMemory(d: Dict, actions: seq<Action>): Dict {
    if actions == [] then d
    else
      var before := InMemory(d, actions[..|actions| - 1]);
      match actions[|actions| - 1]
      case SetKey(section, key, value) => SetPath(before, [section, key], ParseValue(value))
      case Restart => before
  }

  /**
   * Restarts cannot be observed: after any run of safe settings and restarts, what a process sees is
   * what it would see had the settings only been made in memory.
   */
  lemma {:induction false} RestartsAreInvisible(p: Process, actions: seq<Action>)
    requires Good(Memory(p)) && Loaded(p.file) == Memory(p)
    requires forall a :: a in actions && a.SetKey? ==> SafeSetting(a.section, a.key, ParseValue(a.value))
    ensures var q := RunActions(p, actions);
            Memory(q) == InMemory(Memory(p), actions) && Loaded(q.file) == Memory(q) && Good(Memory(q))
  {
    if actions == [] {
    } else {
      var init := actions[..|actions| - 1];
      var last := actions[|actions| - 1];
      RestartsAreInvisible(p, init);
      assert last in actions;
      if last.SetKey? {
        SetKeepsGood(Memory(RunActions(p, init)), last.section, last.key, ParseValue(last.value));
        SaveThenLoad(Memory(RunActions(p, actions)));
      }
    }
  }

  // ----------------------------------------------------------- where runs start

  predicate Letter(c: char) {
    'a' <= c <= 'z' || 'A' <= c <= 'Z'
  }

  lemma PlainStringSurvives(s: string)
    requires |s| >= 6 && Letter(s[0]) && !IsSpace(s[|s| - 1]) && SingleLine(s)
    ensures Survives(Str(s))
  {
    assert Unsigned(s) == s;
    assert s[0] in s && !IsDigit(s[0]);
    if '.' in s {
      var u := s[..IndexOf(s, '.')];
      assert u != "" ==> u[0] == s[0] && u[0] in u;
    }
  }

  lemma DefaultStringSurvives(s: string)
    requires s == "aiwg.io/v1" || s == "UserConfig" || s == "claude" || s == "normal" || s == "stable"
    ensures Survives(Str(s))
  {
    PlainStringSurvives(s);
  }

  lemma DefaultKeyIsWellFormed(key: string)
    requires key == "apiVersion" || key == "kind" || key == "defaults" || key == "telemetry" || key == "updates"
             || key == "provider" || key == "verbosity" || key == "enabled" || key == "channel"
                || key == "checkOnStartup"
    ensures WellFormedKey(key)
  {
  }

  ghost predicate GoodScalar(f: Field) {
    WellFormedKey(f.key) && IsScalar(f.value) && Survives(f.value)
  }

  lemma GoodSection(d: Dict)
    requires DistinctKeys(d) && forall i :: 0 <= i < |d| ==> GoodScalar(d[i])
    ensures IsSection(d) && SectionSurvives(d)
  {
  }

  lemma GoodPair(d: Dict, a: Field, b: Field)
    requires d == [a, b] && a.key != b.key && GoodScalar(a) && GoodScalar(b)
    ensures IsSection(d) && SectionSurvives(d)
  {
    GoodSection(d);
  }

  lemma ProvidersAreGood(d: Dict)
    requires d == PROVIDERS
    ensures IsSection(d) && SectionSurvives(d)
  {
    DefaultKeyIsWellFormed(d[0].key);
    DefaultKeyIsWellFormed(d[1].key);
    DefaultStringSurvives(d[0].value.s);
    DefaultStringSurvives(d[1].value.s);
    BaseKeysDistinct();
    GoodPair(d, d[0], d[1]);
  }

  lemma TelemetryIsGood(d: Dict)
    requires d == TELEMETRY
    ensures IsSection(d) && SectionSurvives(d)
  {
    DefaultKeyIsWellFormed(d[0].key);
    GoodSection(d);
  }

  lemma UpdatesAreGood(d: Dict)
    requires d == UPDATES
    ensures IsSection(d) && SectionSurvives(d)
  {
    DefaultKeyIsWellFormed(d[0].key);
    DefaultKeyIsWellFormed(d[1].key);
    DefaultStringSurvives(d[0].value.s);
    BaseKeysDistinct();
    GoodPair(d, d[0], d[1]);
  }

  ghost predicate GoodField(f: Field) {
    WellFormedKey(f.key) &&
    if f.value.Obj? then IsSection(f.value.fields) && SectionSurvives(f.value.fields)
    else IsScalar(f.value) && Survives(f.value)
  }

  lemma GoodConfig(d: Dict)
    requires DistinctKeys(d) && forall i :: 0 <= i < |d| ==> GoodField(d[i])
    ensures TwoLevels(d) && ConfigSurvives(d)
  {
    forall f | f in d ensures GoodField(f) {
      var i :| 0 <= i < |d| && d[i] == f;
    }
  }

  lemma GoodFive(d: Dict)
    requires |d| == 5 && DistinctKeys(d)
    requires GoodField(d[0]) && GoodField(d[1]) && GoodField(d[2]) && GoodField(d[3]) && GoodField(d[4])
    ensures TwoLevels(d) && ConfigSurvives(d)
  {
    forall i | 0 <= i < |d| ensures GoodField(d[i]) {
      assert i == 0 || i == 1 || i == 2 || i == 3 || i == 4;
    }
    GoodConfig(d);
  }

  lemma DefaultField(f: Field)
    requires || (f.key == "apiVersion" && f.value == Str("aiwg.io/v1"))
             || (f.key == "kind" && f.value == Str("UserConfig"))
             || (f.key == "defaults" && f.value == Obj(PROVIDERS))
             || (f.key == "telemetry" && f.value == Obj(TELEMETRY))
             || (f.key == "updates" && f.value == Obj(UPDATES))
    ensures GoodField(f)
  {
    DefaultKeyIsWellFormed(f.key);
    if f.value.Str? {
      DefaultStringSurvives(f.value.s);
    } else if f.value == Obj(PROVIDERS) {
      ProvidersAreGood(f.value.fields);
    } else if f.value == Obj(TELEMETRY) {
      TelemetryIsGood(f.value.fields);
    } else {
      UpdatesAreGood(f.value.fields);
    }
  }

  /** A new installation, which has no file, starts from a good configuration. */
  lemma DefaultsAreGood()
    ensures Good(Loaded(None))
  {
    DefaultsAreShaped();
    BaseKeysDistinct();
    DefaultField(DEFAULTS[0]);
    DefaultField(DEFAULTS[1]);
    DefaultField(DEFAULTS[2]);
    DefaultField(DEFAULTS[3]);
    DefaultField(DEFAULTS[4]);
    GoodFive(DEFAULTS);
  }
}
