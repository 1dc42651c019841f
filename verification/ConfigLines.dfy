/**
 * The lines of a configuration file (src/config/user-config.ts:67-81, 309-335, 369-445): how each value is
 * printed, which lines the reader skips or takes alike, and what a load takes from the file and what from the
 * defaults.
 */
module ConfigLines {
  import opened Collections
  import opened Text
  import opened SimpleYaml
  import opened YamlRoundTrip
  import opened YamlExact
  import opened UserConfig
  import opened ConfigPersistence
  import opened ConfigReload

  // ----------------------------------------------------------------- printing

  lemma Single(suffix: Value -> string, f: Field, indent: nat)
    ensures Print(suffix, [f], indent) == Join(PartsOf(suffix, f, indent), "\n")
  {
    assert [f][..0] == [];
    assert Parts(suffix, [f][..0], indent) == [];
    AppendNothing(PartsOf(suffix, f, indent));
  }

  lemma NoSpaces(key: string, rest: string)
    ensures Spaces(0) + key + ":" + rest == key + ":" + rest
  {
    assert Spaces(0) + key == key;
  }

  lemma PrintedFlat(key: string, v: Value, rest: string)
    requires Flat(v) && Suffix(v) == rest
    ensures Serialize([Field(key, v)], 0) == key + ":" + rest
  {
    Single(Suffix, Field(key, v), 0);
    NoSpaces(key, rest);
  }

  lemma PrintedSection(suffix: Value -> string, key: string, fields: Dict)
    requires suffix(Obj(fields)) == ""
    ensures Print(suffix, [Field(key, Obj(fields))], 0) == key + ":" + "\n" + Print(suffix, fields, 2)
  {
    Single(suffix, Field(key, Obj(fields)), 0);
    NoSpaces(key, "");
    AppendNothing(key + ":");
    JoinTwo(key + ":", Print(suffix, fields, 2));
  }

  lemma JoinTwo(a: string, b: string)
    ensures Join([a, b], "\n") == a + "\n" + b
  {
    assert [a, b][1..] == [b];
  }

  /** The characters for which a string is quoted. */
  predicate Special(c: char) {
    c in {':', '#', '{', '}', '[', ']', ',', '&', '*', '?', '|', '>', '!', '%', '@', '`'}
  }

  predicate Quoted(s: string) {
    s == "" || exists i :: 0 <= i < |s| && Special(s[i])
  }

  lemma SpecialCharacters(c: char)
    ensures c in SPECIAL <==> Special(c)
  {
    var s := SPECIAL;
    assert s[0] == ':' && s[1] == '#' && s[2] == '{' && s[3] == '}' && s[4] == '[' && s[5] == ']' && s[6] == ','
           && s[7] == '&' && s[8] == '*' && s[9] == '?' && s[10] == '|' && s[11] == '>' && s[12] == '!'
           && s[13] == '%' && s[14] == '@' && s[15] == '`' && |s| == 16;
  }

  lemma QuotedExactly(s: string)
    ensures NeedsQuote(s) <==> Quoted(s)
  {
    forall c ensures c in SPECIAL <==> Special(c) {
      SpecialCharacters(c);
    }
    if NeedsQuote(s) && s != "" {
      var c :| c in s && c in SPECIAL;
      var i :| 0 <= i < |s| && s[i] == c;
    }
    if Quoted(s) && s != "" {
      var i :| 0 <= i < |s| && Special(s[i]);
      assert s[i] in s && s[i] in SPECIAL;
    }
  }

  /** The line of each scalar. */
  lemma PrintedScalars(key: string, n: int, s: string)
    ensures Serialize([Field(key, Null)], 0) == key + ":"
    ensures Serialize([Field(key, Bool(true))], 0) == key + ":" + " true"
    ensures Serialize([Field(key, Bool(false))], 0) == key + ":" + " false"
    ensures Serialize([Field(key, Int(n))], 0) == key + ":" + (" " + IntText(n))
    ensures Serialize([Field(key, Str(s))], 0) == key + ":" + (" " + if Quoted(s) then "\"" + s + "\"" else s)
  {
    PrintedFlat(key, Null, "");
    AppendNothing(key + ":");
    PrintedFlat(key, Bool(true), " true");
    PrintedFlat(key, Bool(false), " false");
    PrintedFlat(key, Int(n), " " + IntText(n));
    QuotedExactly(s);
    PrintedFlat(key, Str(s), " " + if Quoted(s) then "\"" + s + "\"" else s);
  }

  lemma PrintedNext(suffix: Value -> string, d: Dict, f: Field, indent: nat)
    requires d != []
    ensures Print(suffix, d + [f], indent) == Print(suffix, d, indent) + "\n" + Print(suffix, [f], indent)
  {
    assert (d + [f])[..|d|] == d;
    Single(suffix, f, indent);
    assert Parts(suffix, d, indent) != [] by {
      assert PartsOf(suffix, d[|d| - 1], indent) != [];
    }
    JoinAppend(Parts(suffix, d, indent), PartsOf(suffix, f, indent), "\n");
  }

  lemma Indented(blanks: string, key: string, rest: string)
    ensures blanks + key + ":" + rest == blanks + (key + ":" + rest)
  {
  }

  lemma TwoBlanks(suffix: Value -> string, key: string, v: Value)
    requires Flat(v)
    ensures Print(suffix, [Field(key, v)], 2) == "  " + Print(suffix, [Field(key, v)], 0)
  {
    Single(suffix, Field(key, v), 2);
    Single(suffix, Field(key, v), 0);
    NoSpaces(key, suffix(v));
    assert Spaces(1) == " " && Spaces(2) == "  ";
    Indented("  ", key, suffix(v));
  }

  /** Where the line of a value stands: in the order of the keys, and a section's two blanks in under its name. */
  lemma PrintedOrder(d: Dict, f: Field, key: string, v: Value, fields: Dict)
    requires d != [] && Flat(v)
    ensures Serialize(d + [f], 0) == Serialize(d, 0) + "\n" + Serialize([f], 0)
    ensures Serialize(d + [f], 2) == Serialize(d, 2) + "\n" + Serialize([f], 2)
    ensures Serialize([Field(key, Obj(fields))], 0) == key + ":" + "\n" + Serialize(fields, 2)
    ensures Serialize([Field(key, v)], 2) == "  " + Serialize([Field(key, v)], 0)
  {
    PrintedNext(Suffix, d, f, 0);
    PrintedNext(Suffix, d, f, 2);
    PrintedSection(Suffix, key, fields);
    TwoBlanks(Suffix, key, v);
  }

  // ------------------------------------------------------------- the defaults

  lemma SectionOfOne(key: string, k: string, v: Value)
    requires Flat(v)
    ensures Serialize([Field(key, Obj([Field(k, v)]))], 0) == key + ":" + "\n" + ("  " + (k + ":" + Suffix(v)))
  {
    PrintedSection(Suffix, key, [Field(k, v)]);
    TwoBlanks(Suffix, k, v);
    PrintedFlat(k, v, Suffix(v));
  }

  lemma SectionOfTwo(key: string, k: string, v: Value, l: string, w: Value, a: string, b: string)
    requires Flat(v) && Flat(w) && a == k + ":" + Suffix(v) && b == l + ":" + Suffix(w)
    ensures Serialize([Field(key, Obj([Field(k, v), Field(l, w)]))], 0) ==
            key + ":" + "\n" + ("  " + a + "\n" + ("  " + b))
  {
    var d := [Field(k, v)] + [Field(l, w)];
    assert d == [Field(k, v), Field(l, w)];
    PrintedSection(Suffix, key, d);
    PrintedNext(Suffix, [Field(k, v)], Field(l, w), 2);
    TwoBlanks(Suffix, k, v);
    TwoBlanks(Suffix, l, w);
    PrintedFlat(k, v, Suffix(v));
    PrintedFlat(l, w, Suffix(w));
  }

  lemma FiveFields(suffix: Value -> string, a: Field, b: Field, c: Field, d: Field, e: Field)
    ensures Print(suffix, [a, b, c, d, e], 0) ==
            Print(suffix, [a], 0) + "\n" + Print(suffix, [b], 0) + "\n" + Print(suffix, [c], 0) + "\n" +
            Print(suffix, [d], 0) + "\n" + Print(suffix, [e], 0)
  {
    assert [a] + [b] == [a, b] && [a, b] + [c] == [a, b, c];
    assert [a, b, c] + [d] == [a, b, c, d] && [a, b, c, d] + [e] == [a, b, c, d, e];
    PrintedNext(suffix, [a], b, 0);
    PrintedNext(suffix, [a, b], c, 0);
    PrintedNext(suffix, [a, b, c], d, 0);
    PrintedNext(suffix, [a, b, c, d], e, 0);
  }

  lemma PlainSuffix(s: string, t: string)
    requires !Quoted(s) && t == " " + s
    ensures Suffix(Str(s)) == t
  {
    QuotedExactly(s);
  }

  lemma PlainWords(s: string)
    requires s == "aiwg.io/v1" || s == "UserConfig" || s == "claude" || s == "normal" || s == "stable"
    ensures !Quoted(s)
  {
  }

  lemma TopPrinted(key: string, s: string, line: string)
    requires !Quoted(s) && line == key + ": " + s
    ensures Serialize([Field(key, Str(s))], 0) == line
  {
    PlainLine(key, s, line);
    PrintedFlat(key, Str(s), Suffix(Str(s)));
  }

  lemma TwoLines(head: string, a: string, b: string, text: string)
    requires text == head + "\n  " + a + "\n  " + b
    ensures text == head + "\n" + ("  " + a + "\n" + ("  " + b))
  {
    assert "\n  " == "\n" + "  ";
  }

  lemma PlainLine(key: string, s: string, line: string)
    requires !Quoted(s) && line == key + ": " + s
    ensures line == key + ":" + Suffix(Str(s))
  {
    PlainSuffix(s, " " + s);
    assert ": " == ":" + " ";
  }

  lemma TwoWords(key: string, k: string, s: string, l: string, w: Value, a: string, b: string, text: string)
    requires !Quoted(s) && Flat(w) && a == k + ": " + s && b == l + ":" + Suffix(w)
    requires text == key + ":" + "\n  " + a + "\n  " + b
    ensures Serialize([Field(key, Obj([Field(k, Str(s)), Field(l, w)]))], 0) == text
  {
    PlainLine(k, s, a);
    SectionOfTwo(key, k, Str(s), l, w, a, b);
    TwoLines(key + ":", a, b, text);
  }

  lemma ProvidersText(key: string, k: string, s: string, l: string, w: string, text: string)
    requires key == "defaults" && k == "provider" && s == "claude" && l == "verbosity" && w == "normal"
    requires text == "defaults:\n  provider: claude\n  verbosity: normal"
    ensures text == key + ":" + "\n  " + (k + ": " + s) + "\n  " + (l + ": " + w)
  {
  }

  lemma ProvidersPrinted(key: string, k: string, s: string, l: string, w: string, text: string)
    requires key == "defaults" && k == "provider" && s == "claude" && l == "verbosity" && w == "normal"
    requires text == "defaults:\n  provider: claude\n  verbosity: normal"
    ensures Serialize([Field(key, Obj([Field(k, Str(s)), Field(l, Str(w))]))], 0) == text
  {
    PlainWords(s);
    PlainWords(w);
    ProvidersText(key, k, s, l, w, text);
    PlainLine(l, w, l + ": " + w);
    TwoWords(key, k, s, l, Str(w), k + ": " + s, l + ": " + w, text);
  }

  lemma TelemetryPrinted(key: string, k: string, text: string)
    requires key == "telemetry" && k == "enabled" && text == "telemetry:\n  enabled: false"
    ensures Serialize([Field(key, Obj([Field(k, Bool(false))]))], 0) == text
  {
    SectionOfOne(key, k, Bool(false));
    assert text == key + ":" + "\n" + ("  " + (k + ":" + " false"));
  }

  lemma UpdatesText(key: string, k: string, s: string, l: string, text: string)
    requires key == "updates" && k == "channel" && s == "stable" && l == "checkOnStartup"
    requires text == "updates:\n  channel: stable\n  checkOnStartup: true"
    ensures text == key + ":" + "\n  " + (k + ": " + s) + "\n  " + (l + ":" + " true")
  {
  }

  lemma UpdatesPrinted(key: string, k: string, s: string, l: string, text: string)
    requires key == "updates" && k == "channel" && s == "stable" && l == "checkOnStartup"
    requires text == "updates:\n  channel: stable\n  checkOnStartup: true"
    ensures Serialize([Field(key, Obj([Field(k, Str(s)), Field(l, Bool(true))]))], 0) == text
  {
    PlainWords(s);
    UpdatesText(key, k, s, l, text);
    TwoWords(key, k, s, l, Bool(true), k + ": " + s, l + ":" + " true", text);
  }

  lemma LeftFirst(a: string, b: string, c: string, d: string, e: string, sep: string)
    ensures a + sep + (b + sep + (c + sep + (d + sep + e))) == a + sep + b + sep + c + sep + d + sep + e
  {
  }

  lemma JoinCons(a: string, rest: seq<string>, sep: string)
    requires rest != []
    ensures Join([a] + rest, sep) == a + sep + Join(rest, sep)
  {
    assert ([a] + rest)[1..] == rest;
  }

  lemma Lined(a: string, b: string, c: string, d: string, e: string)
    ensures Join([a, b, c, d, e], "\n") == a + "\n" + b + "\n" + c + "\n" + d + "\n" + e
  {
    JoinTwo(d, e);
    JoinCons(c, [d, e], "\n");
    JoinCons(b, [c, d, e], "\n");
    JoinCons(a, [b, c, d, e], "\n");
    assert [c] + [d, e] == [c, d, e] && [b] + [c, d, e] == [b, c, d, e];
    assert [a] + [b, c, d, e] == [a, b, c, d, e];
    LeftFirst(a, b, c, d, e, "\n");
  }

  lemma FiveLines(suffix: Value -> string, d: Dict, a: string, b: string, c: string, e: string, g: string)
    requires |d| == 5 && Print(suffix, [d[0]], 0) == a && Print(suffix, [d[1]], 0) == b
    requires Print(suffix, [d[2]], 0) == c && Print(suffix, [d[3]], 0) == e && Print(suffix, [d[4]], 0) == g
    ensures Print(suffix, d, 0) == Join([a, b, c, e, g], "\n")
  {
    assert d == [d[0], d[1], d[2], d[3], d[4]];
    FiveFields(suffix, d[0], d[1], d[2], d[3], d[4]);
    Lined(a, b, c, e, g);
  }

  lemma WrittenIsRead(text: string)
    requires text == Serialize(DEFAULTS, 0)
    ensures Parse(text) == Some(DEFAULTS) && Loaded(Some(text)) == DEFAULTS
  {
    DefaultsAreGood();
    YamlRoundTripExactly(DEFAULTS);
    MergeShaped(DEFAULTS);
  }

  lemma SectionsPrinted()
    ensures Serialize([Field("defaults", Obj(PROVIDERS))], 0) == "defaults:\n  provider: claude\n  verbosity: normal"
    ensures Serialize([Field("telemetry", Obj(TELEMETRY))], 0) == "telemetry:\n  enabled: false"
    ensures Serialize([Field("updates", Obj(UPDATES))], 0) == "updates:\n  channel: stable\n  checkOnStartup: true"
  {
    ProvidersPrinted("defaults", "provider", "claude", "verbosity", "normal",
                     "defaults:\n  provider: claude\n  verbosity: normal");
    TelemetryPrinted("telemetry", "enabled", "telemetry:\n  enabled: false");
    UpdatesPrinted("updates", "channel", "stable", "checkOnStartup",
                   "updates:\n  channel: stable\n  checkOnStartup: true");
  }

  lemma HeaderPrinted()
    ensures Serialize([Field("apiVersion", Str("aiwg.io/v1"))], 0) == "apiVersion: aiwg.io/v1"
    ensures Serialize([Field("kind", Str("UserConfig"))], 0) == "kind: UserConfig"
  {
    PlainWords("aiwg.io/v1");
    PlainWords("UserConfig");
    TopPrinted("apiVersion", "aiwg.io/v1", "apiVersion: aiwg.io/v1");
    TopPrinted("kind", "UserConfig", "kind: UserConfig");
  }

  /** The file that a first save of the defaults writes, and what a load reads from it. */
  lemma DefaultsAreWritten()
    ensures var text := Join(
              ["apiVersion: aiwg.io/v1",
               "kind: UserConfig",
               "defaults:\n  provider: claude\n  verbosity: normal",
               "telemetry:\n  enabled: false",
               "updates:\n  channel: stable\n  checkOnStartup: true"], "\n");
            Serialize(DEFAULTS, 0) == text && Parse(text) == Some(DEFAULTS) && Loaded(Some(text)) == DEFAULTS
  {
    HeaderPrinted();
    SectionsPrinted();
    FiveLines(Suffix, DEFAULTS, "apiVersion: aiwg.io/v1", "kind: UserConfig",
              "defaults:\n  provider: claude\n  verbosity: normal", "telemetry:\n  enabled: false",
              "updates:\n  channel: stable\n  checkOnStartup: true");
    WrittenIsRead(Serialize(DEFAULTS, 0));
  }

  // ------------------------------------------------------------------ reading

  ghost predicate AreLines(lines: seq<string>) {
    lines != [] && forall l :: l in lines ==> '\n' !in l
  }

  /** What is read from a text of these lines. */
  function ParseLines(lines: seq<string>): Option<Dict> {
    Parse(Join(lines, "\n"))
  }

  lemma ParseLinesIs(lines: seq<string>)
    requires AreLines(lines)
    ensures ParseLines(lines) ==
            var st := ReadLines(ReadLine, START, lines); if st.Failed? then None else Some(st.result)
  {
    SplitJoin(lines, '\n');
  }

  lemma LineDropped(step: (Reader, string) -> Reader, a: seq<string>, line: string, b: seq<string>)
    requires step(ReadLines(step, START, a), line) == ReadLines(step, START, a)
    ensures ReadLines(step, START, a + [line] + b) == ReadLines(step, START, a + b)
  {
    LineSeen(step, a, line, b);
    ReadLinesAppend(step, START, a, b);
  }

  lemma LineSeen(step: (Reader, string) -> Reader, a: seq<string>, line: string, b: seq<string>)
    ensures ReadLines(step, START, a + [line]) == step(ReadLines(step, START, a), line)
    ensures ReadLines(step, START, a + [line] + b) == ReadLines(step, step(ReadLines(step, START, a), line), b)
  {
    OneReadLine(step, ReadLines(step, START, a), line);
    ReadLinesAppend(step, START, a, [line]);
    ReadLinesAppend(step, START, a + [line], b);
  }

  lemma WithAndWithout(a: seq<string>, line: string, b: seq<string>)
    requires AreLines(a + [line] + b) && a + b != []
    requires ReadLine(ReadLines(ReadLine, START, a), line) == ReadLines(ReadLine, START, a)
    ensures ParseLines(a + [line] + b) == ParseLines(a + b)
  {
    assert forall l :: l in a + b ==> l in a + [line] + b;
    ParseLinesIs(a + [line] + b);
    ParseLinesIs(a + b);
    LineDropped(ReadLine, a, line, b);
  }

  lemma TrimmedHead(pre: string, rest: string)
    requires AllSpace(pre) && rest != "" && !IsSpace(rest[0])
    ensures Trim(pre + rest) != "" && Trim(pre + rest)[0] == rest[0]
  {
    TrimStartUnique(pre, rest);
    assert TrimStart(rest) == rest;
    TrimKeepsHead(rest);
  }

  /** A trimmed line that is a pair: something before the first colon, and behind it text without a line break. */
  ghost predicate IsPair(trimmed: string, k: string, space: string, v: string) {
    k != "" && ':' !in k && AllSpace(space) && SingleLine(v) && trimmed == k + [':'] + (space + v)
  }

  lemma PairIsMatched(trimmed: string, k: string, space: string, v: string)
    requires IsPair(trimmed, k, space, v)
    ensures MatchPair(trimmed) == Some(KeyValue(Trim(k), Trim(v)))
  {
    var rest := space + v;
    IndexOfFirst(k, ':', rest);
    assert trimmed[|k|] == ':' && trimmed[0] == k[0];
    assert trimmed[..|k|] == k && trimmed[|k| + 1..] == rest;
    TrimStartSkips(space, v);
    TrimStartMembers(v);
    TrimStartTwice(v);
  }

  lemma TrimStartTwice(v: string)
    ensures Trim(TrimStart(v)) == Trim(v)
  {
    var pre := TrimStartSplit(v);
    assert TrimStart(TrimStart(v)) == TrimStart(v);
  }

  lemma MatchedIsPair(trimmed: string) returns (k: string, space: string, v: string)
    requires MatchPair(trimmed).Some?
    ensures IsPair(trimmed, k, space, v)
  {
    var rest;
    k, rest := CutAt(trimmed, ':');
    IndexOfFirst(k, ':', rest);
    assert trimmed[|k| + 1..] == rest;
    space := TrimStartSplit(rest);
    v := TrimStart(rest);
  }

  /** Which lines are pairs, and what they say. */
  lemma PairExactly(trimmed: string, key: string, raw: string)
    ensures MatchPair(trimmed) == Some(KeyValue(key, raw)) <==>
            exists k, space, v :: IsPair(trimmed, k, space, v) && key == Trim(k) && raw == Trim(v)
  {
    if MatchPair(trimmed) == Some(KeyValue(key, raw)) {
      var k, space, v := MatchedIsPair(trimmed);
      PairIsMatched(trimmed, k, space, v);
    }
    if k, space, v :| IsPair(trimmed, k, space, v) && key == Trim(k) && raw == Trim(v) {
      PairIsMatched(trimmed, k, space, v);
    }
  }

  lemma NoPair(st: Reader, line: string, pre: string, rest: string)
    requires line == pre + rest && AllSpace(pre)
    requires rest == "" || rest[0] == '#' || rest[0] == ':' || ':' !in rest
    ensures ReadLine(st, line) == st
  {
    var trimmed := Trim(line);
    if rest == "" {
      assert line == pre;
      TrimBlank(line);
    } else if rest[0] == '#' || rest[0] == ':' {
      TrimmedHead(pre, rest);
    } else {
      TrimIsWithin(line);
      assert ':' !in line;
    }
  }

  /** White space, a comment, and a line with no colon or nothing before it may stand anywhere. */
  lemma SkippedLine(a: seq<string>, pre: string, rest: string, b: seq<string>)
    requires AreLines(a + [pre + rest] + b) && a + b != [] && AllSpace(pre)
    requires rest == "" || rest[0] == '#' || rest[0] == ':' || ':' !in rest
    ensures ParseLines(a + [pre + rest] + b) == ParseLines(a + b)
  {
    NoPair(ReadLines(ReadLine, START, a), pre + rest, pre, rest);
    WithAndWithout(a, pre + rest, b);
  }

  lemma PairRead(st: Reader, n: nat, key: string, suffix: string)
    requires WellFormedKey(key) && SingleLine(suffix)
    ensures st.Failed? ==> ReadLine(st, LineText(n, key, suffix)) == st
    ensures st.Reader? ==>
              ReadLine(st, LineText(n, key, suffix)) == ReadPair(ParseScalar, st, KeyValue(key, Trim(suffix)), n)
  {
    if st.Reader? {
      ReadPrintedLine(st, n, key, suffix);
    }
  }

  lemma PairIgnored(st: Reader, n: nat, key: string, suffix: string)
    requires WellFormedKey(key) && SingleLine(suffix)
    requires n == 1 || (n > 1 && (st.Failed? || st.section.None?))
    ensures ReadLine(st, LineText(n, key, suffix)) == st
  {
    PairRead(st, n, key, suffix);
  }

  /** A pair behind one blank is ignored, wherever it stands. */
  lemma OneBlankIsIgnored(a: seq<string>, key: string, suffix: string, b: seq<string>)
    requires WellFormedKey(key) && SingleLine(suffix)
    requires AreLines(a + [LineText(1, key, suffix)] + b) && a + b != []
    ensures ParseLines(a + [LineText(1, key, suffix)] + b) == ParseLines(a + b)
  {
    PairIgnored(ReadLines(ReadLine, START, a), 1, key, suffix);
    WithAndWithout(a, LineText(1, key, suffix), b);
  }

  /** Two blanks and more mean the same. */
  lemma DeeperIsAlike(a: seq<string>, n: nat, key: string, suffix: string, b: seq<string>)
    requires n >= 2 && WellFormedKey(key) && SingleLine(suffix)
    requires AreLines(a + [LineText(n, key, suffix)] + b) && AreLines(a + [LineText(2, key, suffix)] + b)
    ensures ParseLines(a + [LineText(n, key, suffix)] + b) == ParseLines(a + [LineText(2, key, suffix)] + b)
  {
    ParseLinesIs(a + [LineText(n, key, suffix)] + b);
    ParseLinesIs(a + [LineText(2, key, suffix)] + b);
    PairRead(ReadLines(ReadLine, START, a), n, key, suffix);
    PairRead(ReadLines(ReadLine, START, a), 2, key, suffix);
    LineSeen(ReadLine, a, LineText(n, key, suffix), b);
    LineSeen(ReadLine, a, LineText(2, key, suffix), b);
  }

  lemma ScalarEndsSection(st: Reader, key: string, suffix: string)
    requires WellFormedKey(key) && SingleLine(suffix) && Trim(suffix) != ""
    ensures var next := ReadLine(st, LineText(0, key, suffix)); next.Failed? || next.section.None?
  {
    PairRead(st, 0, key, suffix);
  }

  lemma SectionEnded(a: seq<string>, key: string, suffix: string)
    requires WellFormedKey(key) && SingleLine(suffix) && Trim(suffix) != ""
    ensures var st := ReadLines(ReadLine, START, a + [LineText(0, key, suffix)]); st.Failed? || st.section.None?
  {
    LineSeen(ReadLine, a, LineText(0, key, suffix), []);
    ScalarEndsSection(ReadLines(ReadLine, START, a), key, suffix);
  }

  /** An indented pair is ignored after a value at the top level, */
  lemma AfterValue(a: seq<string>, key: string, suffix: string, n: nat, key2: string, suffix2: string, b: seq<string>)
    requires WellFormedKey(key) && SingleLine(suffix) && Trim(suffix) != ""
    requires WellFormedKey(key2) && SingleLine(suffix2) && n > 0
    requires AreLines(a + [LineText(0, key, suffix)] + [LineText(n, key2, suffix2)] + b)
    ensures ParseLines(a + [LineText(0, key, suffix)] + [LineText(n, key2, suffix2)] + b) ==
            ParseLines(a + [LineText(0, key, suffix)] + b)
  {
    var c := a + [LineText(0, key, suffix)];
    SectionEnded(a, key, suffix);
    PairIgnored(ReadLines(ReadLine, START, c), n, key2, suffix2);
    WithAndWithout(c, LineText(n, key2, suffix2), b);
  }

  /** and at the beginning. */
  lemma BeforeSections(n: nat, key: string, suffix: string, b: seq<string>)
    requires WellFormedKey(key) && SingleLine(suffix) && n > 0
    requires b != [] && AreLines([LineText(n, key, suffix)] + b)
    ensures ParseLines([LineText(n, key, suffix)] + b) == ParseLines(b)
  {
    var line := LineText(n, key, suffix);
    assert [] + [line] + b == [line] + b && [] + b == b;
    PairIgnored(START, n, key, suffix);
    WithAndWithout([], line, b);
  }

  lemma Reopened(key: string, suffix: string)
    requires WellFormedKey(key) && SingleLine(suffix) && Trim(suffix) != ""
    ensures var st := ReadLine(ReadLine(START, LineText(0, key, suffix)), LineText(0, key, ""));
            st == Reader([Field(key, ParseScalar(Trim(suffix)))], Some(key))
  {
    PairRead(START, 0, key, suffix);
    var st := ReadLine(START, LineText(0, key, suffix));
    TrimBlank("");
    PairRead(st, 0, key, "");
  }

  lemma ReadThree(step: (Reader, string) -> Reader, a: string, b: string, c: string)
    ensures ReadLines(step, START, [a, b, c]) == step(step(step(START, a), b), c)
  {
    assert [] + [a] == [a] && [a] + [b] == [a, b] && [a, b] + [c] == [a, b, c];
    LineSeen(step, [], a, []);
    LineSeen(step, [a], b, []);
    LineSeen(step, [a, b], c, []);
  }

  lemma ReaderBreaks(st: Reader, key: string, v: Value, key2: string, suffix2: string)
    requires st == Reader([Field(key, v)], Some(key)) && Flat(v)
    requires WellFormedKey(key2) && SingleLine(suffix2)
    ensures ReadLine(st, LineText(2, key2, suffix2)) == Failed
  {
    PairRead(st, 2, key2, suffix2);
    assert Get([Field(key, v)], key) == Some(v);
  }

  /** A section under the name of a plain value cannot be read: the load falls back on the defaults. */
  lemma BrokenSection(key: string, suffix: string, key2: string, suffix2: string)
    requires WellFormedKey(key) && SingleLine(suffix) && Trim(suffix) != ""
    requires WellFormedKey(key2) && SingleLine(suffix2)
    requires AreLines([LineText(0, key, suffix), LineText(0, key, ""), LineText(2, key2, suffix2)])
    ensures ParseLines([LineText(0, key, suffix), LineText(0, key, ""), LineText(2, key2, suffix2)]) == None
  {
    var a, b, c := LineText(0, key, suffix), LineText(0, key, ""), LineText(2, key2, suffix2);
    ParseLinesIs([a, b, c]);
    ReadThree(ReadLine, a, b, c);
    Reopened(key, suffix);
    ScalarsAreFlat(Trim(suffix));
    ReaderBreaks(ReadLine(ReadLine(START, a), b), key, ParseScalar(Trim(suffix)), key2, suffix2);
  }

  // ------------------------------------------------------------------ loading

  lemma GetPush(init: Dict, last: Field, key: string)
    requires Get(init, last.key).None?
    ensures Get(init + [last], key) == if key == last.key then Some(last.value) else Get(init, key)
  {
    PutAppends(init, last.key, last.value);
    GetPut(init, last.key, last.value, key);
  }

  lemma {:induction false} SpreadGet(base: Dict, over: Dict, key: string)
    requires DistinctKeys(over)
    ensures Get(Spread(base, over), key) == if Get(over, key).Some? then Get(over, key) else Get(base, key)
  {
    if over == [] {
    } else {
      var init, last := over[..|over| - 1], over[|over| - 1];
      assert over == init + [last];
      SpreadGet(base, init, key);
      GetAbsent(init, last.key);
      GetPush(init, last, key);
      GetPut(Spread(base, init), last.key, last.value, key);
    }
  }

  /** The first of two values that is there. */
  function Else(a: Option<Value>, b: Option<Value>): Option<Value> {
    if a.Some? then a else b
  }

  lemma SectionAfter(d: Dict, section: string, base: Dict, parsed: Dict, other: string)
    ensures Get(WithSection(d, section, base, parsed), other) ==
            if other == section then Some(Obj(Spread(base, Spreadable(Get(parsed, section))))) else Get(d, other)
  {
    GetPut(d, section, Obj(Spread(base, Spreadable(Get(parsed, section)))), other);
  }

  lemma ThreeSections(all: Dict, parsed: Dict, a: string, x: Dict, b: string, y: Dict, c: string, z: Dict, key: string)
    requires a != b && a != c && b != c
    ensures Get(WithSection(WithSection(WithSection(all, a, x, parsed), b, y, parsed), c, z, parsed), key) ==
            if key == a then Some(Obj(Spread(x, Spreadable(Get(parsed, a)))))
            else if key == b then Some(Obj(Spread(y, Spreadable(Get(parsed, b)))))
            else if key == c then Some(Obj(Spread(z, Spreadable(Get(parsed, c)))))
            else Get(all, key)
  {
    var one := WithSection(all, a, x, parsed);
    var two := WithSection(one, b, y, parsed);
    SectionAfter(all, a, x, parsed, key);
    SectionAfter(one, b, y, parsed, key);
    SectionAfter(two, c, z, parsed, key);
  }

  function BaseOf(section: string): Dict {
    if section == "defaults" then PROVIDERS else if section == "telemetry" then TELEMETRY else UPDATES
  }

  predicate IsDefaultSection(section: string) {
    section == "defaults" || section == "telemetry" || section == "updates"
  }

  lemma MergedAt(parsed: Dict, key: string)
    ensures Get(Merge(parsed), key) ==
            if IsDefaultSection(key) then Some(Obj(Spread(BaseOf(key), Spreadable(Get(parsed, key)))))
            else Get(Spread(DEFAULTS, parsed), key)
  {
    assert "defaults"[0] != "telemetry"[0] && "defaults"[0] != "updates"[0] && "telemetry"[0] != "updates"[0];
    ThreeSections(Spread(DEFAULTS, parsed), parsed, "defaults", PROVIDERS, "telemetry", TELEMETRY, "updates", UPDATES,
                  key);
  }

  /** Outside the three sections: what the file holds, and else the default. */
  lemma LoadedTop(text: string, key: string)
    requires Parse(text).Some? && !IsDefaultSection(key)
    ensures Get(Loaded(Some(text)), key) == Else(Get(Parse(text).value, key), Get(DEFAULTS, key))
  {
    ParsedIsLayered(text);
    MergedAt(Parse(text).value, key);
    SpreadGet(DEFAULTS, Parse(text).value, key);
  }

  lemma BaseIsDefault(section: string)
    requires IsDefaultSection(section)
    ensures Get(DEFAULTS, section) == Some(Obj(BaseOf(section)))
  {
    BaseKeysDistinct();
    GetAt(DEFAULTS, 2);
    GetAt(DEFAULTS, 3);
    GetAt(DEFAULTS, 4);
  }

  lemma SpreadSection(v: Option<Value>, base: Dict, key: string)
    requires !(v.Some? && v.value.Str?)
    requires v.Some? && v.value.Obj? ==> DistinctKeys(v.value.fields)
    ensures Get(Spread(base, Spreadable(v)), key) == Else(Below(v, key), Get(base, key))
  {
    SpreadGet(base, Spreadable(v), key);
  }

  /** Inside them: what the file holds under the key, and else the default, whatever else the section holds. */
  lemma LoadedInSection(text: string, section: string, key: string)
    requires Parse(text).Some? && IsDefaultSection(section)
    requires var v := Get(Parse(text).value, section); !(v.Some? && v.value.Str?)
    ensures GetPath(Some(Obj(Loaded(Some(text)))), [section, key]) ==
            Else(GetPath(Some(Obj(Parse(text).value)), [section, key]), GetPath(Some(Obj(DEFAULTS)), [section, key]))
  {
    var parsed := Parse(text).value;
    ParsedIsLayered(text);
    GetMember(parsed, section);
    MergedAt(parsed, section);
    BaseIsDefault(section);
    SpreadSection(Get(parsed, section), BaseOf(section), key);
    TwoDeep(Loaded(Some(text)), section, key);
    TwoDeep(parsed, section, key);
    TwoDeep(DEFAULTS, section, key);
  }

  lemma IndicesDiffer(s: string)
    ensures DistinctKeys(Spreadable(Some(Str(s))))
  {
    var d := Spreadable(Some(Str(s)));
    forall i, j | 0 <= i < j < |d| ensures d[i].key != d[j].key {
      IntBack(i);
      IntBack(j);
    }
  }

  lemma LetterAt(s: string, base: Dict, i: nat)
    requires i < |s|
    ensures Get(Spread(base, Spreadable(Some(Str(s)))), IntText(i)) == Some(Str([s[i]]))
  {
    var d := Spreadable(Some(Str(s)));
    IndicesDiffer(s);
    assert d[i] == Field(IntText(i), Str([s[i]]));
    GetAt(d, i);
    SpreadGet(base, d, IntText(i));
  }

  /** A section that the file holds as a string is loaded as its characters, by index. */
  lemma StringForSection(text: string, section: string, s: string, i: nat)
    requires Parse(text).Some? && IsDefaultSection(section)
    requires Get(Parse(text).value, section) == Some(Str(s)) && i < |s|
    ensures GetPath(Some(Obj(Loaded(Some(text)))), [section, IntText(i)]) == Some(Str([s[i]]))
  {
    MergedAt(Parse(text).value, section);
    LetterAt(s, BaseOf(section), i);
    TwoDeep(Loaded(Some(text)), section, IntText(i));
  }
}
