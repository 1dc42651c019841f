/** Which configurations the small YAML printer and reader carry through unchanged. */
module YamlRoundTrip {
  import opened Collections
  import opened Text
  import opened SimpleYaml

  // ------------------------------------------------------------ dictionaries

  lemma {:induction false} GetAbsent(d: Dict, key: string)
    ensures Get(d, key).None? <==> forall i :: 0 <= i < |d| ==> d[i].key != key
  {
    if d == [] {
    } else {
      GetAbsent(d[1..], key);
      assert forall i :: 0 < i < |d| ==> d[i] == d[1..][i - 1];
    }
  }

  lemma {:induction false} PutAppends(d: Dict, key: string, v: Value)
    requires Get(d, key).None?
    ensures Put(d, key, v) == d + [Field(key, v)]
    ensures Get(d + [Field(key, v)], key) == Some(v)
  {
    if d == [] {
      AppendNothing([Field(key, v)]);
    } else {
      assert (d + [Field(key, v)])[1..] == d[1..] + [Field(key, v)];
      PutAppends(d[1..], key, v);
    }
  }

  lemma {:induction false} PutReplacesLast(d: Dict, key: string, was: Value, v: Value)
    requires Get(d, key).None?
    ensures Put(d + [Field(key, was)], key, v) == d + [Field(key, v)]
  {
    if d == [] {
      assert [] + [Field(key, was)] == [Field(key, was)];
      assert [Field(key, v)] + [] == [Field(key, v)];
    } else {
      assert (d + [Field(key, was)])[1..] == d[1..] + [Field(key, was)];
      PutReplacesLast(d[1..], key, was, v);
    }
  }

  // --------------------------------------------------------------- one line

  /** Keys the line format can carry. */
  predicate WellFormedKey(key: string) {
    key != "" && Trimmed(key) && ':' !in key && '\n' !in key && key[0] != '#'
  }

  lemma {:induction false} SpacesAreSpace(n: nat)
    ensures AllSpace(Spaces(n)) && |Spaces(n)| == n
    ensures '\n' !in Spaces(n)
  {
    if n == 0 {
    } else {
      SpacesAreSpace(n - 1);
    }
  }

  lemma TrimEndOf(x: string, pre: string, m: string, post: string)
    requires x == pre + m + post && AllSpace(pre) && AllSpace(post) && Trimmed(m) && m != ""
    ensures TrimEnd(x) == pre + m && TrimStart(pre + m) == m
  {
    TrimEndUnique(pre + m, post);
    TrimStartUnique(pre, m);
  }

  lemma TrimEndOfBlank(x: string)
    requires AllSpace(x)
    ensures TrimEnd(x) == ""
  {
    TrimEndUnique("", x);
    AppendNothing(x);
  }

  lemma TrimEndThenStart(x: string)
    ensures Trim(TrimStart(TrimEnd(x))) == Trim(x)
    ensures Trim(x) == "" ==> TrimEnd(x) == ""
  {
    var m := Trim(x);
    TrimIsTrimmed(x);
    TrimIsTrimmed(m);
    if m == "" {
      TrimBlank(x);
      TrimEndOfBlank(x);
    } else {
      var pre, post := TrimSplit(x);
      TrimEndOf(x, pre, m, post);
    }
  }

  lemma PrefixSingleLine(s: string, r: string)
    requires SingleLine(s) && r <= s
    ensures SingleLine(r)
  {
  }

  lemma KeyBeforeColon(key: string, rest: string, s: string)
    requires WellFormedKey(key) && s == key + [':'] + rest
    ensures ':' in s && s[0] == key[0] && IndexOf(s, ':') == |key|
    ensures s[..|key|] == key && s[|key| + 1..] == rest
  {
    IndexOfFirst(key, ':', rest);
    assert s[|key|] == ':';
  }

  lemma MatchKey(key: string, rest: string, s: string)
    requires WellFormedKey(key) && s == key + [':'] + rest && SingleLine(rest)
    ensures MatchPair(s) == Some(KeyValue(key, Trim(TrimStart(rest))))
  {
    KeyBeforeColon(key, rest, s);
    TrimIsTrimmed(key);
    assert key[0] in key;
    TrimStartMembers(rest);
  }

  lemma TrimEndAfter(middle: string, suffix: string)
    requires middle != "" && !IsSpace(middle[|middle| - 1])
    ensures TrimEnd(middle + suffix) == middle + TrimEnd(suffix)
  {
    var post := TrimEndSplit(suffix);
    Regroup3(middle, TrimEnd(suffix), post);
    TrimEndUnique(middle + TrimEnd(suffix), post);
  }

  lemma ReadMatched(scalar: string -> Value, st: Reader, trimmed: string, n: nat, kv: KeyValue)
    requires st.Reader? && trimmed != "" && trimmed[0] != '#' && MatchPair(trimmed) == Some(kv)
    ensures ReadTrimmed(scalar, st, trimmed, n) == ReadPair(scalar, st, kv, n)
  {
  }

  lemma TrimAround(pre: string, head: string, suffix: string, line: string)
    requires AllSpace(pre) && head != "" && !IsSpace(head[0]) && !IsSpace(head[|head| - 1])
    requires line == pre + (head + suffix)
    ensures TrimStart(line) == head + suffix && Trim(line) == head + TrimEnd(suffix)
  {
    TrimStartUnique(pre, head + suffix);
    TrimEndAfter(head, suffix);
  }

  lemma PrintedShape(n: nat, key: string, suffix: string)
    requires WellFormedKey(key)
    ensures var line := LineText(n, key, suffix);
            |line| - |TrimStart(line)| == n && Trim(line) == key + ":" + TrimEnd(suffix)
  {
    SpacesAreSpace(n);
    Regroup3(Spaces(n), key, ":");
    Regroup3(Spaces(n), key + ":", suffix);
    TrimAround(Spaces(n), key + ":", suffix, LineText(n, key, suffix));
  }

  lemma PrintedPair(key: string, suffix: string, trimmed: string)
    requires WellFormedKey(key) && SingleLine(suffix) && trimmed == key + ":" + TrimEnd(suffix)
    ensures trimmed != "" && trimmed[0] != '#' && MatchPair(trimmed) == Some(KeyValue(key, Trim(suffix)))
  {
    TrimEndPrefix(suffix);
    PrefixSingleLine(suffix, TrimEnd(suffix));
    MatchKey(key, TrimEnd(suffix), trimmed);
    TrimEndThenStart(suffix);
  }

  function LineText(n: nat, key: string, suffix: string): string {
    Spaces(n) + key + ":" + suffix
  }

  /** A printed line is read as its key, its trimmed value and its indentation. */
  lemma ReadPrintedLine(st: Reader, n: nat, key: string, suffix: string)
    requires st.Reader? && WellFormedKey(key) && SingleLine(suffix)
    ensures ReadLine(st, LineText(n, key, suffix)) == ReadPair(ParseScalar, st, KeyValue(key, Trim(suffix)), n)
  {
    PrintedShape(n, key, suffix);
    ReadPrintedTrimmed(ParseScalar, st, n, key, suffix, Trim(LineText(n, key, suffix)));
  }

  lemma ReadPrintedTrimmed(scalar: string -> Value, st: Reader, n: nat, key: string, suffix: string, trimmed: string)
    requires st.Reader? && WellFormedKey(key) && SingleLine(suffix) && trimmed == key + ":" + TrimEnd(suffix)
    ensures ReadTrimmed(scalar, st, trimmed, n) == ReadPair(scalar, st, KeyValue(key, Trim(suffix)), n)
  {
    PrintedPair(key, suffix, trimmed);
    ReadMatched(scalar, st, trimmed, n, KeyValue(key, Trim(suffix)));
  }

  /** What the reader does on printed lines, stated of any line reader. */
  ghost predicate ReadsPrinted(step: (Reader, string) -> Reader, scalar: string -> Value) {
    && (forall st: Reader :: step(st, "") == st)
    && (forall st: Reader, n: nat, key: string, suffix: string ::
          st.Reader? && WellFormedKey(key) && SingleLine(suffix) ==>
          step(st, LineText(n, key, suffix)) == ReadPair(scalar, st, KeyValue(key, Trim(suffix)), n))
  }

  lemma ReaderReadsPrinted()
    ensures ReadsPrinted(ReadLine, ParseScalar)
  {
    forall st: Reader ensures ReadLine(st, "") == st {
      TrimBlank("");
    }
    forall st: Reader, n: nat, key: string, suffix: string | st.Reader? && WellFormedKey(key) && SingleLine(suffix)
      ensures ReadLine(st, LineText(n, key, suffix)) == ReadPair(ParseScalar, st, KeyValue(key, Trim(suffix)), n)
    {
      ReadPrintedLine(st, n, key, suffix);
    }
  }

  // ----------------------------------------------------- what is read back

  function MapValues(f: Value -> Value, d: Dict): (r: Dict)
    ensures |r| == |d| && forall i :: 0 <= i < |d| ==> r[i] == Field(d[i].key, f(d[i].value))
  {
    seq(|d|, i requires 0 <= i < |d| => Field(d[i].key, f(d[i].value)))
  }

  lemma MapValuesPush(f: Value -> Value, d: Dict, x: Field)
    ensures MapValues(f, d + [x]) == MapValues(f, d) + [Field(x.key, f(x.value))]
  {
  }

  lemma MappedKeyAbsent(f: Value -> Value, d: Dict, x: Field)
    requires DistinctKeys(d + [x])
    ensures Get(MapValues(f, d), x.key).None?
  {
    GetAbsent(MapValues(f, d), x.key);
    assert (d + [x])[|d|] == x;
    assert forall i :: 0 <= i < |d| ==> (d + [x])[i] == d[i];
  }

  /** A scalar inside a section, read back from what was printed behind its colon. */
  function Nested(scalar: string -> Value, suffix: Value -> string): Value -> Value {
    (v: Value) => scalar(Trim(suffix(v)))
  }

  /** A top-level value: what prints as a bare key is read as an empty section. */
  function Top(scalar: string -> Value, suffix: Value -> string): Value -> Value {
    (v: Value) =>
      if v.Obj? then Obj(MapValues(Nested(scalar, suffix), v.fields))
      else if Trim(suffix(v)) == "" then Obj([])
      else scalar(Trim(suffix(v)))
  }

  predicate IsScalar(v: Value) {
    v.Null? || v.Bool? || v.Int? || v.Str?
  }

  ghost predicate GoodKeys(d: Dict) {
    DistinctKeys(d) && forall f :: f in d ==> WellFormedKey(f.key)
  }

  ghost predicate IsSection(d: Dict) {
    GoodKeys(d) && forall f :: f in d ==> IsScalar(f.value)
  }

  /** A configuration of at most two levels, fractional numbers left aside. */
  ghost predicate TwoLevels(d: Dict) {
    GoodKeys(d) && forall f :: f in d ==> IsScalar(f.value) || (f.value.Obj? && IsSection(f.value.fields))
  }

  // ------------------------------------------------------- the printed lines

  lemma {:induction false} LinesOfJoin(parts: seq<string>)
    requires parts != []
    ensures Lines(Join(parts, "\n")) == FlatMap(Lines, parts)
  {
    if |parts| == 1 {
      FlatMapOne(Lines, parts[0]);
      assert parts == [parts[0]];
    } else {
      assert parts == [parts[0]] + parts[1..];
      FlatMapAppend(Lines, [parts[0]], parts[1..]);
      FlatMapOne(Lines, parts[0]);
      LinesOfJoin(parts[1..]);
      SplitAt(parts[0], '\n', Join(parts[1..], "\n"));
    }
  }

  lemma OneReadLine(step: (Reader, string) -> Reader, st: Reader, line: string)
    ensures ReadLines(step, st, [line]) == step(st, line)
  {
    assert [line][..0] == [];
  }

  /** Reading a printed body is reading its parts' lines, an empty body's blank line included. */
  lemma ReadBody(step: (Reader, string) -> Reader, st: Reader, suffix: Value -> string, d: Dict, indent: nat)
    requires step(st, "") == st
    ensures ReadLines(step, st, Lines(Print(suffix, d, indent))) ==
            ReadLines(step, st, FlatMap(Lines, Parts(suffix, d, indent)))
  {
    if d == [] {
      OneReadLine(step, st, "");
    } else {
      assert |PartsOf(suffix, d[|d| - 1], indent)| > 0;
      LinesOfJoin(Parts(suffix, d, indent));
    }
  }

  lemma PartsPush(suffix: Value -> string, d: Dict, f: Field, indent: nat)
    ensures FlatMap(Lines, Parts(suffix, d + [f], indent)) ==
            FlatMap(Lines, Parts(suffix, d, indent)) + FlatMap(Lines, PartsOf(suffix, f, indent))
  {
    assert (d + [f])[..|d|] == d;
    FlatMapAppend(Lines, Parts(suffix, d, indent), PartsOf(suffix, f, indent));
  }

  lemma HeadIsOneLine(n: nat, key: string, suffix: string)
    requires WellFormedKey(key) && SingleLine(suffix)
    ensures Lines(LineText(n, key, suffix)) == [LineText(n, key, suffix)]
  {
    SpacesAreSpace(n);
    assert '\n' !in suffix;
  }

  /** Reading the header line of a field: the only line of a scalar, the first of a section. */
  lemma ReadHead(step: (Reader, string) -> Reader, scalar: string -> Value, st: Reader, n: nat, key: string,
                 suffix: string)
    requires ReadsPrinted(step, scalar) && st.Reader? && WellFormedKey(key) && SingleLine(suffix)
    ensures ReadLines(step, st, FlatMap(Lines, [LineText(n, key, suffix)])) ==
            ReadPair(scalar, st, KeyValue(key, Trim(suffix)), n)
  {
    var line := LineText(n, key, suffix);
    HeadIsOneLine(n, key, suffix);
    FlatMapOne(Lines, line);
    OneReadLine(step, st, line);
  }

  lemma StoreNested(scalar: string -> Value, r: Dict, key: string, inner: Dict, k: string, raw: string)
    requires Get(r, key).None? && Get(inner, k).None?
    ensures ReadPair(scalar, Reader(r + [Field(key, Obj(inner))], Some(key)), KeyValue(k, raw), 2) ==
            Reader(r + [Field(key, Obj(inner + [Field(k, scalar(raw))]))], Some(key))
  {
    PutAppends(inner, k, scalar(raw));
    PutAppends(r, key, Obj(inner));
    PutReplacesLast(r, key, Obj(inner), Obj(inner + [Field(k, scalar(raw))]));
  }

  ghost predicate SingleLineValues(suffix: Value -> string, d: Dict) {
    forall f :: f in d ==> SingleLine(suffix(f.value))
  }

  lemma ReadNested(step: (Reader, string) -> Reader, scalar: string -> Value, suffix: Value -> string,
                   r: Dict, key: string, inner: Dict, f: Field)
    requires ReadsPrinted(step, scalar) && Get(r, key).None? && Get(inner, f.key).None?
    requires WellFormedKey(f.key) && !f.value.Obj? && SingleLine(suffix(f.value))
    ensures ReadLines(step, Reader(r + [Field(key, Obj(inner))], Some(key)), FlatMap(Lines, PartsOf(suffix, f, 2))) ==
            Reader(r + [Field(key, Obj(inner + [Field(f.key, Nested(scalar, suffix)(f.value))]))], Some(key))
  {
    ReadHead(step, scalar, Reader(r + [Field(key, Obj(inner))], Some(key)), 2, f.key, suffix(f.value));
    StoreNested(scalar, r, key, inner, f.key, Trim(suffix(f.value)));
  }

  lemma ReadSectionNext(step: (Reader, string) -> Reader, scalar: string -> Value, suffix: Value -> string,
                        st: Reader, r: Dict, key: string, init: Dict, inner: Dict, f: Field)
    requires ReadsPrinted(step, scalar) && Get(r, key).None? && Get(inner, f.key).None?
    requires WellFormedKey(f.key) && !f.value.Obj? && SingleLine(suffix(f.value))
    requires ReadLines(step, st, FlatMap(Lines, Parts(suffix, init, 2))) ==
             Reader(r + [Field(key, Obj(inner))], Some(key))
    ensures ReadLines(step, st, FlatMap(Lines, Parts(suffix, init + [f], 2))) ==
            Reader(r + [Field(key, Obj(inner + [Field(f.key, Nested(scalar, suffix)(f.value))]))], Some(key))
  {
    PartsPush(suffix, init, f, 2);
    ReadLinesAppend(step, st, FlatMap(Lines, Parts(suffix, init, 2)), FlatMap(Lines, PartsOf(suffix, f, 2)));
    ReadNested(step, scalar, suffix, r, key, inner, f);
  }

  lemma {:induction false} ReadSection(step: (Reader, string) -> Reader, scalar: string -> Value,
                                       suffix: Value -> string,
                                       r: Dict, key: string, d: Dict)
    requires ReadsPrinted(step, scalar) && Get(r, key).None? && IsSection(d) && SingleLineValues(suffix, d)
    ensures ReadLines(step, Reader(r + [Field(key, Obj([]))], Some(key)), FlatMap(Lines, Parts(suffix, d, 2))) ==
            Reader(r + [Field(key, Obj(MapValues(Nested(scalar, suffix), d)))], Some(key))
  {
    if d == [] {
    } else {
      var init := d[..|d| - 1];
      var f := d[|d| - 1];
      assert d == init + [f];
      assert f in d;
      ReadSection(step, scalar, suffix, r, key, init);
      MappedKeyAbsent(Nested(scalar, suffix), init, f);
      ReadSectionNext(step, scalar, suffix, Reader(r + [Field(key, Obj([]))], Some(key)), r, key, init,
                      MapValues(Nested(scalar, suffix), init), f);
      MapValuesPush(Nested(scalar, suffix), init, f);
    }
  }

  lemma ReadScalarField(step: (Reader, string) -> Reader, scalar: string -> Value, suffix: Value -> string,
                        r: Dict, section: Option<string>, f: Field)
    requires ReadsPrinted(step, scalar) && Get(r, f.key).None? && WellFormedKey(f.key)
    requires !f.value.Obj? && SingleLine(suffix(f.value))
    ensures var st := ReadLines(step, Reader(r, section), FlatMap(Lines, PartsOf(suffix, f, 0)));
            st.Reader? && st.result == r + [Field(f.key, Top(scalar, suffix)(f.value))]
  {
    ReadHead(step, scalar, Reader(r, section), 0, f.key, suffix(f.value));
    PutAppends(r, f.key, Top(scalar, suffix)(f.value));
  }

  lemma ReadSectionParts(step: (Reader, string) -> Reader, suffix: Value -> string, st: Reader, f: Field,
                         head: string, inside: Reader)
    requires f.value.Obj? && head == LineText(0, f.key, suffix(f.value)) && step(inside, "") == inside
    requires ReadLines(step, st, FlatMap(Lines, [head])) == inside
    ensures ReadLines(step, st, FlatMap(Lines, PartsOf(suffix, f, 0))) ==
            ReadLines(step, inside, FlatMap(Lines, Parts(suffix, f.value.fields, 2)))
  {
    var body := Print(suffix, f.value.fields, 2);
    assert PartsOf(suffix, f, 0) == [head] + [body];
    FlatMapAppend(Lines, [head], [body]);
    FlatMapOne(Lines, body);
    ReadLinesAppend(step, st, FlatMap(Lines, [head]), Lines(body));
    ReadBody(step, inside, suffix, f.value.fields, 2);
  }

  lemma ReadSectionField(step: (Reader, string) -> Reader, scalar: string -> Value, suffix: Value -> string,
                         r: Dict, section: Option<string>, f: Field)
    requires ReadsPrinted(step, scalar) && Get(r, f.key).None? && WellFormedKey(f.key)
    requires f.value.Obj? && suffix(f.value) == "" && IsSection(f.value.fields)
             && SingleLineValues(suffix, f.value.fields)
    ensures var st := ReadLines(step, Reader(r, section), FlatMap(Lines, PartsOf(suffix, f, 0)));
            st.Reader? && st.result == r + [Field(f.key, Top(scalar, suffix)(f.value))]
  {
    var inside := Reader(r + [Field(f.key, Obj([]))], Some(f.key));
    ReadHead(step, scalar, Reader(r, section), 0, f.key, "");
    TrimBlank("");
    PutAppends(r, f.key, Obj([]));
    ReadSectionParts(step, suffix, Reader(r, section), f, LineText(0, f.key, ""), inside);
    ReadSection(step, scalar, suffix, r, f.key, f.value.fields);
  }

  ghost predicate SingleLineField(suffix: Value -> string, f: Field) {
    if f.value.Obj? then suffix(f.value) == "" && SingleLineValues(suffix, f.value.fields)
    else SingleLine(suffix(f.value))
  }

  lemma ReadField(step: (Reader, string) -> Reader, scalar: string -> Value, suffix: Value -> string, st: Reader,
                  f: Field)
    requires ReadsPrinted(step, scalar) && st.Reader? && Get(st.result, f.key).None? && WellFormedKey(f.key)
    requires SingleLineField(suffix, f) && (f.value.Obj? ==> IsSection(f.value.fields))
    ensures var after := ReadLines(step, st, FlatMap(Lines, PartsOf(suffix, f, 0)));
            after.Reader? && after.result == st.result + [Field(f.key, Top(scalar, suffix)(f.value))]
  {
    if f.value.Obj? {
      ReadSectionField(step, scalar, suffix, st.result, st.section, f);
    } else {
      ReadScalarField(step, scalar, suffix, st.result, st.section, f);
    }
  }

  ghost predicate SingleLineConfig(suffix: Value -> string, d: Dict) {
    forall f :: f in d ==> SingleLineField(suffix, f)
  }

  lemma TwoLevelsPrefix(d: Dict, f: Field)
    requires TwoLevels(d + [f])
    ensures TwoLevels(d) && WellFormedKey(f.key) && (f.value.Obj? ==> IsSection(f.value.fields))
    ensures DistinctKeys(d + [f])
  {
    assert forall x :: x in d ==> x in d + [f];
    assert f in d + [f];
    forall i, j | 0 <= i < j < |d| ensures d[i].key != d[j].key {
      assert (d + [f])[i] == d[i] && (d + [f])[j] == d[j];
    }
  }

  lemma {:induction false} ReadConfig(step: (Reader, string) -> Reader, scalar: string -> Value,
                                      suffix: Value -> string, d: Dict)
    requires ReadsPrinted(step, scalar) && TwoLevels(d) && SingleLineConfig(suffix, d)
    ensures var st := ReadLines(step, START, FlatMap(Lines, Parts(suffix, d, 0)));
            st.Reader? && st.result == MapValues(Top(scalar, suffix), d)
  {
    if d == [] {
    } else {
      var init := d[..|d| - 1];
      var f := d[|d| - 1];
      assert d == init + [f];
      assert f in d;
      TwoLevelsPrefix(init, f);
      ReadConfig(step, scalar, suffix, init);
      PartsPush(suffix, init, f, 0);
      ReadLinesAppend(step, START, FlatMap(Lines, Parts(suffix, init, 0)), FlatMap(Lines, PartsOf(suffix, f, 0)));
      MappedKeyAbsent(Top(scalar, suffix), init, f);
      ReadField(step, scalar, suffix, ReadLines(step, START, FlatMap(Lines, Parts(suffix, init, 0))), f);
      MapValuesPush(Top(scalar, suffix), init, f);
    }
  }
}
