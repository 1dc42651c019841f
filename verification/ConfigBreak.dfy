/**
 * A setting whose value has a line feed (src/config/user-config.ts:159-165, 369-445): the printer does not escape it,
 * so the rest of the value is read as a line of its own and may set another key.
 */
module ConfigBreak {
  import opened Collections
  import opened Text
  import opened SimpleYaml
  import opened YamlRoundTrip
  import opened YamlExact
  import opened UserConfig
  import opened ConfigPersistence
  import opened ConfigReload

  /** A value that goes on with what looks like another line of its section. */
  function Broken(a: string, k: string, b: string): string {
    a + "\n" + ("  " + k + ": " + b)
  }

  /** The printer as its reader sees it: the broken value as two values, each on its line. */
  function Opened(a: string, b: string, s: string): Value -> string {
    (v: Value) =>
      if v == Str(s) then " \"" + a
      else if v == Str(s + "\n") then " " + b + "\""
      else Suffix(v)
  }

  ghost predicate Ordinary(f: Value -> string, v: Value) {
    f(v) == Suffix(v)
  }

  lemma OpenedOrdinary(a: string, b: string, s: string, v: Value)
    requires '\n' in s && (v.Obj? || (IsScalar(v) && OneLine(v)))
    ensures Ordinary(Opened(a, b, s), v)
  {
    assert '\n' in s + "\n";
  }

  // ------------------------------------------------------------- the same text

  lemma {:induction false} SameParts(f: Value -> string, g: Value -> string, c: Dict, d: Dict, n: nat)
    requires |c| == |d| && forall i :: 0 <= i < |c| ==> PartsOf(f, c[i], n) == PartsOf(g, d[i], n)
    ensures Parts(f, c, n) == Parts(g, d, n)
    decreases |c|
  {
    if c == [] {
    } else {
      SameParts(f, g, c[..|c| - 1], d[..|d| - 1], n);
    }
  }

  lemma {:induction false} JoinBreak(p: seq<string>, x: string, y: string)
    ensures Join(p + [x + "\n" + y], "\n") == Join(p + [x, y], "\n")
    decreases |p|
  {
    if p == [] {
      assert [] + [x + "\n" + y] == [x + "\n" + y] && [] + [x, y] == [x, y] && [x, y][1..] == [y];
    } else {
      assert (p + [x + "\n" + y])[1..] == p[1..] + [x + "\n" + y];
      assert (p + [x, y])[1..] == p[1..] + [x, y];
      JoinBreak(p[1..], x, y);
    }
  }

  lemma PartsEnd(f: Value -> string, d: Dict, x: Field, n: nat)
    requires !x.value.Obj?
    ensures Parts(f, d + [x], n) == Parts(f, d, n) + [LineText(n, x.key, f(x.value))]
  {
    assert (d + [x])[..|d|] == d;
  }

  lemma OrdinarySection(f: Value -> string, d: Dict)
    requires forall x :: x in d ==> Ordinary(f, x.value) && !x.value.Obj?
    ensures Parts(f, d, 2) == Parts(Suffix, d, 2)
  {
    forall i | 0 <= i < |d| ensures PartsOf(f, d[i], 2) == PartsOf(Suffix, d[i], 2) {
      assert d[i] in d;
    }
    SameParts(f, Suffix, d, d, 2);
  }

  lemma Quoted(s: string)
    requires ':' in s
    ensures Suffix(Str(s)) == " " + ("\"" + s + "\"")
  {
    assert ':' in SPECIAL;
  }

  lemma SecondLine(k: string, b: string)
    ensures "  " + k + ": " + b + "\"" == LineText(2, k, " " + b + "\"")
  {
    assert Spaces(2) == Spaces(1) + " " && Spaces(1) == Spaces(0) + " ";
    assert "  " + k + ": " == "  " + k + ":" + " ";
  }

  lemma Regroup(head: string, a: string, rest: string)
    ensures head + (" " + ("\"" + (a + "\n" + rest) + "\"")) == (head + (" \"" + a)) + "\n" + (rest + "\"")
  {
    assert " " + ("\"" + (a + "\n" + rest) + "\"") == (" \"" + a) + ("\n" + (rest + "\""));
  }

  lemma BrokenLine(key: string, a: string, k: string, b: string, s: string)
    requires s == Broken(a, k, b)
    ensures LineText(2, key, Suffix(Str(s))) == LineText(2, key, " \"" + a) + "\n" + LineText(2, k, " " + b + "\"")
  {
    assert s[|a| + 3 + |k|] == ':' && ':' in s;
    Quoted(s);
    SecondLine(k, b);
    Regroup(Spaces(2) + key + ":", a, "  " + k + ": " + b);
  }

  /** The section that holds the broken value prints as the one with two fields in its place. */
  lemma BrokenSection(fields: Dict, key: string, k: string, a: string, b: string, s: string)
    requires s == Broken(a, k, b) && forall x :: x in fields ==> Ordinary(Opened(a, b, s), x.value) && !x.value.Obj?
    ensures Print(Suffix, fields + [Field(key, Str(s))], 2) ==
            Print(Opened(a, b, s), fields + [Field(key, Str(s))] + [Field(k, Str(s + "\n"))], 2)
  {
    var f := Opened(a, b, s);
    PartsEnd(Suffix, fields, Field(key, Str(s)), 2);
    PartsEnd(f, fields, Field(key, Str(s)), 2);
    PartsEnd(f, fields + [Field(key, Str(s))], Field(k, Str(s + "\n")), 2);
    OrdinarySection(f, fields);
    BrokenLine(key, a, k, b, s);
    var p := Parts(Suffix, fields, 2);
    var x, y := LineText(2, key, " \"" + a), LineText(2, k, " " + b + "\"");
    assert p + [x] + [y] == p + [x, y];
    JoinBreak(p, x, y);
  }

  lemma {:induction false} PutAt(d: Dict, key: string, v: Value)
    requires DistinctKeys(d) && Get(d, key).Some?
    ensures |Put(d, key, v)| == |d|
    ensures forall i :: 0 <= i < |d| ==> Put(d, key, v)[i] == if d[i].key == key then Field(key, v) else d[i]
  {
    if d[0].key == key {
    } else {
      PutAt(d[1..], key, v);
      assert forall i :: 0 < i < |d| ==> Put(d, key, v)[i] == Put(d[1..], key, v)[i - 1] && d[i] == d[1..][i - 1];
    }
  }

  // ------------------------------------------------------------- what is read

  /** The configuration with the broken value, and the one its text is read as. */
  function WithBroken(d: Dict, section: string, key: string, s: string): Dict {
    Put(d, section, Obj(FieldsOf(Get(d, section)) + [Field(key, Str(s))]))
  }

  function WithBoth(d: Dict, section: string, key: string, k: string, s: string): Dict {
    Put(WithBroken(d, section, key, s), section,
        Obj(FieldsOf(Get(d, section)) + [Field(key, Str(s))] + [Field(k, Str(s + "\n"))]))
  }

  /** The section that holds the broken value, and that with both fields, as they print. */
  lemma SamePart(section: string, one: Dict, two: Dict, a: string, b: string, s: string)
    requires '\n' in s && Print(Suffix, one, 2) == Print(Opened(a, b, s), two, 2)
    ensures PartsOf(Suffix, Field(section, Obj(one)), 0) == PartsOf(Opened(a, b, s), Field(section, Obj(two)), 0)
  {
    OpenedOrdinary(a, b, s, Obj(two));
  }

  lemma SameFields(d: Dict, section: string, one: Dict, two: Dict, a: string, b: string, s: string)
    requires PrintableConfig(d) && '\n' in s && Print(Suffix, one, 2) == Print(Opened(a, b, s), two, 2)
    ensures Serialize(Put(d, section, Obj(one)), 0) ==
            Print(Opened(a, b, s), Put(Put(d, section, Obj(one)), section, Obj(two)), 0)
  {
    var c := Put(d, section, Obj(one));
    var e := Put(c, section, Obj(two));
    PutShape(d, section, Obj(one));
    GetPut(d, section, Obj(one), section);
    PutAt(c, section, Obj(two));
    SamePart(section, one, two, a, b, s);
    forall i | 0 <= i < |c| ensures PartsOf(Suffix, c[i], 0) == PartsOf(Opened(a, b, s), e[i], 0) {
      if c[i].key == section {
        KeyHolds(c, i);
        assert c[i] == Field(section, Obj(one));
      } else {
        OtherMember(d, section, Obj(one), c[i]);
        OrdinaryParts(a, b, s, c[i]);
      }
    }
    SameParts(Suffix, Opened(a, b, s), c, e, 0);
  }

  lemma SameText(d: Dict, section: string, key: string, k: string, a: string, b: string, s: string)
    requires s == Broken(a, k, b) && PrintableConfig(d)
    ensures Serialize(WithBroken(d, section, key, s), 0) == Print(Opened(a, b, s), WithBoth(d, section, key, k, s), 0)
  {
    var fields := FieldsOf(Get(d, section));
    assert s[|a|] == '\n' && '\n' in s;
    SectionIsPrintable(d, section);
    forall x | x in fields ensures Ordinary(Opened(a, b, s), x.value) && !x.value.Obj? {
      OpenedOrdinary(a, b, s, x.value);
    }
    BrokenSection(fields, key, k, a, b, s);
    SameFields(d, section, fields + [Field(key, Str(s))],
               fields + [Field(key, Str(s))] + [Field(k, Str(s + "\n"))], a, b, s);
  }

  lemma SectionIsPrintable(d: Dict, section: string)
    requires PrintableConfig(d)
    ensures PrintableSection(FieldsOf(Get(d, section)))
  {
    GetMember(d, section);
  }

  lemma {:induction false} KeyHolds(d: Dict, i: nat)
    requires DistinctKeys(d) && i < |d|
    ensures Get(d, d[i].key) == Some(d[i].value)
  {
    if i == 0 {
    } else {
      assert d[1..][i - 1] == d[i];
      KeyHolds(d[1..], i - 1);
    }
  }

  lemma OtherMember(d: Dict, key: string, v: Value, x: Field)
    requires x in Put(d, key, v) && x.key != key
    ensures x in d
  {
    PutMembers(d, key, v, x);
  }

  /** Every other field prints as before. */
  lemma OrdinaryParts(a: string, b: string, s: string, x: Field)
    requires '\n' in s && PrintableValue(x.value)
    ensures PartsOf(Suffix, x, 0) == PartsOf(Opened(a, b, s), x, 0)
  {
    var f := Opened(a, b, s);
    OpenedOrdinary(a, b, s, x.value);
    if x.value.Obj? {
      forall y | y in x.value.fields ensures Ordinary(f, y.value) && !y.value.Obj? {
        OpenedOrdinary(a, b, s, y.value);
      }
      OrdinarySection(f, x.value.fields);
    }
  }

  lemma PutTwoLevels(d: Dict, section: string, fields: Dict)
    requires TwoLevels(d) && WellFormedKey(section) && IsSection(fields)
    ensures TwoLevels(Put(d, section, Obj(fields)))
  {
    PutGoodKeys(d, section, Obj(fields));
    forall f | f in Put(d, section, Obj(fields))
      ensures IsScalar(f.value) || (f.value.Obj? && IsSection(f.value.fields))
    {
      PutMembers(d, section, Obj(fields), f);
    }
  }

  lemma AppendToSection(fields: Dict, x: Field)
    requires IsSection(fields) && Get(fields, x.key).None? && WellFormedKey(x.key) && IsScalar(x.value)
    ensures IsSection(fields + [x]) && BeginsLike(fields + [x], fields)
    ensures forall other :: Get(fields + [x], other) == if other == x.key then Some(x.value) else Get(fields, other)
  {
    PutAppends(fields, x.key, x.value);
    assert fields + [x] == Put(fields, x.key, x.value);
    PutShape(fields, x.key, x.value);
    PutGoodKeys(fields, x.key, x.value);
    forall other ensures Get(fields + [x], other) == if other == x.key then Some(x.value) else Get(fields, other) {
      GetPut(fields, x.key, x.value, other);
    }
  }

  lemma PutKeepsShape(d: Dict, section: string, fields: Dict)
    requires Shaped(d) && BeginsLike(fields, FieldsOf(Get(d, section))) && DistinctKeys(fields)
    ensures Shaped(Put(d, section, Obj(fields)))
  {
    PutShape(d, section, Obj(fields));
    GetPut(d, section, Obj(fields), "defaults");
    GetPut(d, section, Obj(fields), "telemetry");
    GetPut(d, section, Obj(fields), "updates");
  }

  ghost predicate Fresh(d: Dict, section: string, key: string, k: string) {
    && WellFormedKey(section) && WellFormedKey(key) && WellFormedKey(k) && k != key
    && Get(FieldsOf(Get(d, section)), key).None? && Get(FieldsOf(Get(d, section)), k).None?
  }

  /** The two fields in the section, and nothing else different. */
  lemma BothIsShaped(d: Dict, section: string, key: string, k: string, s: string)
    requires Shaped(d) && PrintableConfig(d) && Fresh(d, section, key, k)
    ensures var e := WithBoth(d, section, key, k, s);
            && Shaped(e) && TwoLevels(e)
            && (forall t :: Get(e, t) == if t == section then
                              Some(Obj(FieldsOf(Get(d, section)) + [Field(key, Str(s))] + [Field(k, Str(s + "\n"))]))
                            else Get(d, t))
  {
    var fields := FieldsOf(Get(d, section));
    var one := fields + [Field(key, Str(s))];
    var two := one + [Field(k, Str(s + "\n"))];
    SectionIsPrintable(d, section);
    PrintableIsBoth(d);
    AppendToSection(fields, Field(key, Str(s)));
    AppendToSection(one, Field(k, Str(s + "\n")));
    PutTwoLevels(d, section, one);
    PutKeepsShape(d, section, one);
    var c := WithBroken(d, section, key, s);
    GetPut(d, section, Obj(one), section);
    PutTwoLevels(c, section, two);
    PutKeepsShape(c, section, two);
    forall t ensures Get(WithBoth(d, section, key, k, s), t) == if t == section then Some(Obj(two)) else Get(d, t) {
      GetPut(c, section, Obj(two), t);
      GetPut(d, section, Obj(one), t);
    }
  }

  lemma OpenedIsSingleLine(a: string, b: string, s: string, v: Value)
    requires SingleLine(a) && SingleLine(b) && '\n' in s && IsScalar(v)
    requires OneLine(v) || v == Str(s) || v == Str(s + "\n")
    ensures SingleLine(Opened(a, b, s)(v))
  {
    if v == Str(s) {
      assert forall x :: x in " \"" + a ==> x == ' ' || x == '"' || x in a;
    } else if v == Str(s + "\n") {
      assert forall x :: x in " " + b + "\"" ==> x == ' ' || x == '"' || x in b;
    } else {
      SuffixIsSingleLine(v);
    }
  }

  /** Every value of the section is of one line, or one of the two. */
  ghost predicate Known(s: string, fields: Dict) {
    forall x :: x in fields ==> IsScalar(x.value) && (OneLine(x.value) || x.value == Str(s) || x.value == Str(s + "\n"))
  }

  lemma OpenedSection(a: string, b: string, s: string, fields: Dict)
    requires SingleLine(a) && SingleLine(b) && '\n' in s && Known(s, fields)
    ensures SingleLineValues(Opened(a, b, s), fields)
  {
    forall x | x in fields ensures SingleLine(Opened(a, b, s)(x.value)) {
      OpenedIsSingleLine(a, b, s, x.value);
    }
  }

  lemma KnownEnd(s: string, fields: Dict, x: Field)
    requires Known(s, fields) && (x.value == Str(s) || x.value == Str(s + "\n"))
    ensures Known(s, fields + [x])
  {
  }

  /** What the fields of a configuration with the broken value may be. */
  ghost predicate KnownValue(s: string, v: Value) {
    if v.Obj? then Known(s, v.fields) else IsScalar(v) && OneLine(v)
  }

  lemma OpenedField(a: string, b: string, s: string, f: Field)
    requires SingleLine(a) && SingleLine(b) && '\n' in s && KnownValue(s, f.value)
    ensures SingleLineField(Opened(a, b, s), f)
  {
    if f.value.Obj? {
      OpenedSection(a, b, s, f.value.fields);
    } else {
      OpenedIsSingleLine(a, b, s, f.value);
    }
  }

  lemma PutKnown(s: string, d: Dict, section: string, fields: Dict)
    requires Known(s, fields) && forall f :: f in d ==> KnownValue(s, f.value)
    ensures forall f :: f in Put(d, section, Obj(fields)) ==> KnownValue(s, f.value)
  {
    forall f | f in Put(d, section, Obj(fields)) ensures KnownValue(s, f.value) {
      PutMembers(d, section, Obj(fields), f);
    }
  }

  lemma OpenedConfig(d: Dict, section: string, key: string, k: string, a: string, b: string, s: string)
    requires SingleLine(a) && SingleLine(b) && '\n' in s && PrintableConfig(d)
    ensures SingleLineConfig(Opened(a, b, s), WithBoth(d, section, key, k, s))
  {
    var fields := FieldsOf(Get(d, section));
    SectionIsPrintable(d, section);
    KnownEnd(s, fields, Field(key, Str(s)));
    KnownEnd(s, fields + [Field(key, Str(s))], Field(k, Str(s + "\n")));
    PutKnown(s, d, section, fields + [Field(key, Str(s))]);
    PutKnown(s, WithBroken(d, section, key, s), section, fields + [Field(key, Str(s))] + [Field(k, Str(s + "\n"))]);
    forall f | f in WithBoth(d, section, key, k, s) ensures SingleLineField(Opened(a, b, s), f) {
      OpenedField(a, b, s, f);
    }
  }

  lemma ParseOpened(f: Value -> string, e: Dict)
    requires TwoLevels(e) && SingleLineConfig(f, e)
    ensures Parse(Print(f, e, 0)) == Some(MapValues(Top(ParseScalar, f), e))
  {
    ReaderReadsPrinted();
    ReadBody(ReadLine, START, f, e, 0);
    ReadConfig(ReadLine, ParseScalar, f, e);
  }

  /** What a fresh load makes of the text. */
  lemma LoadsOpened(d: Dict, section: string, key: string, k: string, a: string, b: string, s: string)
    requires Shaped(d) && PrintableConfig(d) && Fresh(d, section, key, k)
    requires SingleLine(a) && SingleLine(b) && s == Broken(a, k, b)
    ensures Loaded(Some(Serialize(WithBroken(d, section, key, s), 0))) ==
            MapValues(Top(ParseScalar, Opened(a, b, s)), WithBoth(d, section, key, k, s))
  {
    var f, e := Opened(a, b, s), WithBoth(d, section, key, k, s);
    assert s[|a|] == '\n' && '\n' in s;
    SameText(d, section, key, k, a, b, s);
    BothIsShaped(d, section, key, k, s);
    OpenedConfig(d, section, key, k, a, b, s);
    ParseOpened(f, e);
    OpenedKeepsSections(f);
    MappedIsShaped(Top(ParseScalar, f), Nested(ParseScalar, f), e);
    LoadedFrom(Print(f, e, 0), MapValues(Top(ParseScalar, f), e));
  }

  lemma OpenedKeepsSections(f: Value -> string)
    ensures KeepsSections(Top(ParseScalar, f), Nested(ParseScalar, f))
  {
    TopKeepsSections(ParseScalar, f);
  }

  /** A two-segment key of what was loaded, by the key of the configuration with both fields. */
  lemma ReadsAt(d: Dict, section: string, key: string, k: string, a: string, b: string, s: string, t: string, u: string)
    requires Shaped(d) && PrintableConfig(d) && Fresh(d, section, key, k)
    requires SingleLine(a) && SingleLine(b) && s == Broken(a, k, b)
    ensures var v := GetPath(Some(Obj(WithBoth(d, section, key, k, s))), [t, u]);
            GetPath(Some(Obj(Loaded(Some(Serialize(WithBroken(d, section, key, s), 0))))), [t, u]) ==
            if v.Some? then Some(ParseScalar(Trim(Opened(a, b, s)(v.value)))) else None
  {
    LoadsOpened(d, section, key, k, a, b, s);
    forall x ensures Flat(ParseScalar(x)) {
      ScalarsAreFlat(x);
    }
    RereadAt(ParseScalar, Opened(a, b, s), WithBoth(d, section, key, k, s), t, u);
  }

  lemma BothAt(d: Dict, section: string, key: string, k: string, s: string, t: string, u: string)
    requires Shaped(d) && PrintableConfig(d) && Fresh(d, section, key, k)
    ensures GetPath(Some(Obj(WithBoth(d, section, key, k, s))), [t, u]) ==
            if t == section && u == key then Some(Str(s))
            else if t == section && u == k then Some(Str(s + "\n"))
            else GetPath(Some(Obj(d)), [t, u])
  {
    var fields := FieldsOf(Get(d, section));
    BothIsShaped(d, section, key, k, s);
    SectionIsPrintable(d, section);
    AppendToSection(fields, Field(key, Str(s)));
    AppendToSection(fields + [Field(key, Str(s))], Field(k, Str(s + "\n")));
    TwoDeep(d, t, u);
    TwoDeep(WithBoth(d, section, key, k, s), t, u);
  }

  lemma InOnePart(u: string, i: nat, c: char)
    requires c in u && i < |u| && u[i] != c
    ensures c in u[..i] || c in u[i + 1..]
  {
    var j :| 0 <= j < |u| && u[j] == c;
    if j < i {
      assert u[..i][j] == c;
    } else {
      assert u[i + 1..][j - i - 1] == c;
    }
  }

  lemma BreakIsNoFraction(s: string)
    requires '\n' in s
    ensures !IntShaped(s) && !FractionShaped(s)
  {
    var u := Unsigned(s);
    assert '\n' in u;
    if '.' in u {
      InOnePart(u, IndexOf(u, '.'), '\n');
    }
  }

  lemma BreakIsNoNumber(s: string)
    requires '\n' in s
    ensures ParseValue(s) == Str(s)
  {
    BreakIsNoFraction(s);
    assert '\n' !in "true" && '\n' !in "false" && '\n' !in "null";
  }

  /** Setting a key that its section does not hold adds it there at the end. */
  lemma SetAppends(d: Dict, section: string, key: string, v: Value)
    requires Get(FieldsOf(Get(d, section)), key).None?
    ensures SetPath(d, [section, key], v) == Put(d, section, Obj(FieldsOf(Get(d, section)) + [Field(key, v)]))
  {
    assert [section, key][1..] == [key];
    PutAppends(FieldsOf(Get(d, section)), key, v);
  }

  /**
   * Setting a new key to a value that goes on with a line of the form of another: a fresh load reads two keys, the one
   * set with the first line and an opening quote, and the other with the second line and the closing one; every other
   * two-segment key reads as before exactly when it had no value or one that survives.
   */
  lemma SecondLineIsRead(file: Option<string>, section: string, key: string, k: string, a: string, b: string, s: string)
    requires WithoutFractions(file) && Fresh(Loaded(file), section, key, k)
    requires SingleLine(a) && SingleLine(b) && s == Broken(a, k, b)
    ensures ParseValue(s) == Str(s)
    ensures var reloaded := Reloaded(Loaded(file), section, key, ParseValue(s));
            && GetPath(reloaded, [section, key]) == Some(ParseScalar(Trim(" \"" + a)))
            && GetPath(reloaded, [section, k]) == Some(ParseScalar(Trim(" " + b + "\"")))
  {
    var d := Loaded(file);
    assert s[|a|] == '\n' && '\n' in s;
    LoadedIsPrintable(file);
    BreakIsNoNumber(s);
    SetAppends(d, section, key, Str(s));
    ReadsAt(d, section, key, k, a, b, s, section, key);
    BothAt(d, section, key, k, s, section, key);
    ReadsAt(d, section, key, k, a, b, s, section, k);
    BothAt(d, section, key, k, s, section, k);
  }

  lemma OthersBesideSecondLine(file: Option<string>, section: string, key: string, k: string, a: string, b: string,
                               s: string, t: string, u: string)
    requires WithoutFractions(file) && Fresh(Loaded(file), section, key, k)
    requires SingleLine(a) && SingleLine(b) && s == Broken(a, k, b)
    requires [t, u] != [section, key] && [t, u] != [section, k]
    ensures var before := GetPath(Some(Obj(Loaded(file))), [t, u]);
            GetPath(Reloaded(Loaded(file), section, key, Str(s)), [t, u]) == before <==>
            before.None? || Survives(before.value)
  {
    var d := Loaded(file);
    var before := GetPath(Some(Obj(d)), [t, u]);
    assert s[|a|] == '\n' && '\n' in s;
    assert t != section || (u != key && u != k);
    LoadedIsPrintable(file);
    SetAppends(d, section, key, Str(s));
    ReadsAt(d, section, key, k, a, b, s, t, u);
    BothAt(d, section, key, k, s, t, u);
    if before.Some? {
      StoredIsScalar(d, t, u);
      OpenedOrdinary(a, b, s, before.value);
      NestedExactly(before.value);
    }
  }
}
