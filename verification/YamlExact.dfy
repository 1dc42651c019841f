/** The exact set of configurations that printing and reading carry through unchanged. */
module YamlExact {
  import opened Collections
  import opened Text
  import opened SimpleYaml
  import opened YamlRoundTrip

  predicate Keyword(s: string) {
    s == "true" || s == "false" || s == "null" || s == "~"
  }

  /** Read as something other than the string it is. */
  predicate Misread(s: string) {
    Keyword(s) || IntShaped(s) || FractionShaped(s) || Wrapped(s)
  }

  /**
   * A scalar survives when it is a boolean or an integer, or a string without line terminators that
   * the printer quotes, or that is trimmed and not shaped like a keyword, a number or a quotation.
   */
  predicate Survives(v: Value) {
    match v
    case Bool(_) => true
    case Int(_) => true
    case Str(s) => SingleLine(s) && (NeedsQuote(s) || (Trimmed(s) && !Misread(s)))
    case _ => false
  }

  predicate OneLine(v: Value) {
    v.Str? ==> SingleLine(v.s)
  }

  // ----------------------------------------------------------- scalar by scalar

  lemma TrimSpaced(t: string)
    ensures Trim(" " + t) == Trim(t)
  {
    TrimStartSkips(" ", t);
  }

  lemma TrimKept(t: string)
    requires Trimmed(t)
    ensures Trim(t) == t
  {
    TrimIsTrimmed(t);
  }

  lemma NotKeyword(s: string)
    requires s != "" && s[0] != 't' && s[0] != 'f' && s[0] != 'n' && s[0] != '~'
    ensures !Keyword(s)
  {
  }

  lemma ParseNotKeyword(s: string)
    ensures !Keyword(s) ==>
              ParseScalar(s) == if IntShaped(s) then Int(ParseInt(s)) else if FractionShaped(s) then Fraction(s)
                                else if Wrapped(s) then Str(Unwrap(s)) else Str(s)
    ensures Keyword(s) ==> !ParseScalar(s).Str?
  {
  }

  lemma DigitIsPlain(c: char)
    requires IsDigit(c)
    ensures !IsSpace(c) && c != '-' && c != 't' && c != 'f' && c != 'n' && c != '~' && c != '"' && c != '\''
  {
  }

  lemma IntBack(n: int)
    ensures Trimmed(IntText(n)) && IntText(n) != "" && !Keyword(IntText(n))
    ensures IntShaped(IntText(n)) && ParseInt(IntText(n)) == n
  {
    var m: nat := if n < 0 then -n else n;
    var digits := NatToString(m);
    var s := IntText(n);
    ParsePrintedNat(m);
    assert digits[0] in digits && digits[|digits| - 1] in digits;
    DigitIsPlain(digits[0]);
    DigitIsPlain(digits[|digits| - 1]);
    if n < 0 {
      assert s[1..] == digits;
    }
    NotKeyword(s);
  }

  lemma QuotedNotNumber(t: string)
    requires t != "" && t[0] == '"'
    ensures !IntShaped(t) && !FractionShaped(t)
  {
    assert Unsigned(t) == t;
    assert t[0] in t && !IsDigit(t[0]);
    if '.' in t {
      var u := t[..IndexOf(t, '.')];
      assert u != "" ==> u[0] == t[0] && u[0] in u;
    }
  }

  lemma QuotedBack(s: string, t: string)
    requires t == "\"" + s + "\""
    ensures Trimmed(t) && t != "" && ParseScalar(t) == Str(s)
  {
    QuotedNotNumber(t);
    NotKeyword(t);
    ParseNotKeyword(t);
    assert t[1..|t| - 1] == s;
  }

  lemma UnwrapIsShorter(t: string)
    requires Wrapped(t)
    ensures |Unwrap(t)| < |t|
  {
  }

  lemma TextBack(t: string, s: string)
    requires |t| <= |s|
    ensures ParseScalar(t) == Str(s) <==> t == s && !Misread(t)
  {
    ParseNotKeyword(t);
    if Wrapped(t) {
      UnwrapIsShorter(t);
    }
  }

  lemma TextIsKept(s: string, t: string)
    requires |t| <= |s| && (t == s <==> Trimmed(s))
    ensures ParseScalar(t) == Str(s) <==> Trimmed(s) && !Misread(s)
  {
    TextBack(t, s);
  }

  lemma PlainBack(s: string)
    ensures ParseScalar(Trim(s)) == Str(s) <==> Trimmed(s) && !Misread(s)
  {
    TrimIsTrimmed(s);
    TextIsKept(s, Trim(s));
  }

  lemma NoShortText(v: Value)
    requires v.Int?
    ensures Trim(Suffix(v)) == IntText(v.n)
  {
    TrimSpaced(IntText(v.n));
    IntBack(v.n);
    TrimKept(IntText(v.n));
  }

  lemma SuffixOfBool(b: bool, w: string)
    requires w == if b then "true" else "false"
    ensures Suffix(Bool(b)) == " " + w && Trimmed(w) && w != ""
  {
  }

  lemma ParseBoolWord(b: bool, w: string)
    requires w == if b then "true" else "false"
    ensures ParseScalar(w) == Bool(b)
  {
  }

  lemma BoolBack(b: bool, w: string)
    requires w == if b then "true" else "false"
    ensures Trim(Suffix(Bool(b))) == w && w != "" && ParseScalar(w) == Bool(b)
  {
    SuffixOfBool(b, w);
    ParseBoolWord(b, w);
    TrimSpaced(w);
    TrimKept(w);
  }

  /** Inside a section: read back as itself exactly when it survives. */
  lemma NestedExactly(v: Value)
    requires IsScalar(v) && OneLine(v)
    ensures ParseScalar(Trim(Suffix(v))) == v <==> Survives(v)
    ensures Survives(v) ==> Trim(Suffix(v)) != ""
  {
    match v {
      case Null =>
        TrimBlank("");
        ParseNotKeyword("");
      case Bool(b) =>
        BoolBack(b, if b then "true" else "false");
      case Int(n) =>
        NoShortText(v);
        IntBack(n);
        ParseNotKeyword(IntText(n));
      case Str(s) =>
        StringExactly(s);
    }
  }

  lemma SuffixOfString(s: string, t: string)
    requires t == if NeedsQuote(s) then "\"" + s + "\"" else s
    ensures Suffix(Str(s)) == " " + t
  {
  }

  lemma QuotedExactly(s: string, t: string)
    requires SingleLine(s) && NeedsQuote(s) && t == "\"" + s + "\""
    ensures ParseScalar(Trim(t)) == Str(s) && Trim(t) != "" && Survives(Str(s))
  {
    QuotedBack(s, t);
    TrimKept(t);
  }

  lemma SurvivesUnquoted(s: string)
    requires SingleLine(s) && !NeedsQuote(s)
    ensures s != "" && (Survives(Str(s)) <==> Trimmed(s) && !Misread(s))
  {
  }

  lemma UnquotedExactly(s: string)
    requires SingleLine(s) && !NeedsQuote(s)
    ensures ParseScalar(Trim(s)) == Str(s) <==> Survives(Str(s))
    ensures Survives(Str(s)) ==> Trim(s) != ""
  {
    PlainBack(s);
    SurvivesUnquoted(s);
    if Trimmed(s) {
      TrimKept(s);
    }
  }

  lemma StringExactly(s: string)
    requires SingleLine(s)
    ensures ParseScalar(Trim(Suffix(Str(s)))) == Str(s) <==> Survives(Str(s))
    ensures Survives(Str(s)) ==> Trim(Suffix(Str(s))) != ""
  {
    var t := if NeedsQuote(s) then "\"" + s + "\"" else s;
    SuffixOfString(s, t);
    TrimSpaced(t);
    if NeedsQuote(s) {
      QuotedExactly(s, t);
    } else {
      UnquotedExactly(s);
    }
  }

  /** At the top level the same: a value that prints as nothing becomes a section, but such a value does not survive. */
  lemma TopExactly(v: Value)
    requires IsScalar(v) && OneLine(v)
    ensures Top(ParseScalar, Suffix)(v) == v <==> Survives(v)
  {
    NestedExactly(v);
  }

  // ------------------------------------------------ what reading can produce

  ghost predicate CleanSection(d: Dict) {
    forall f :: f in d ==> OneLine(f.value) && !f.value.Obj?
  }

  ghost predicate CleanValue(v: Value) {
    if v.Obj? then CleanSection(v.fields) else OneLine(v)
  }

  ghost predicate CleanConfig(d: Dict) {
    forall f :: f in d ==> CleanValue(f.value)
  }

  ghost predicate CleanReader(st: Reader) {
    st.Reader? ==> CleanConfig(st.result)
  }

  lemma ParsedScalarIsClean(s: string)
    requires SingleLine(s)
    ensures OneLine(ParseScalar(s)) && !ParseScalar(s).Obj?
  {
    ParseNotKeyword(s);
    if Wrapped(s) {
      assert forall c :: c in Unwrap(s) ==> c in s;
    }
  }

  lemma {:induction false} PutMembers(d: Dict, key: string, v: Value, f: Field)
    requires f in Put(d, key, v)
    ensures f in d || f == Field(key, v)
  {
    if d != [] && d[0].key != key {
      if f != d[0] {
        PutMembers(d[1..], key, v, f);
      }
    }
  }

  lemma {:induction false} GetMember(d: Dict, key: string)
    ensures Get(d, key).Some? ==> Field(key, Get(d, key).value) in d
  {
    if d != [] && d[0].key != key {
      GetMember(d[1..], key);
    }
  }

  lemma PutKeepsClean(d: Dict, key: string, v: Value)
    ensures CleanConfig(d) && CleanValue(v) ==> CleanConfig(Put(d, key, v))
    ensures CleanSection(d) && OneLine(v) && !v.Obj? ==> CleanSection(Put(d, key, v))
  {
    forall f | f in Put(d, key, v) ensures f in d || f == Field(key, v) {
      PutMembers(d, key, v, f);
    }
  }

  lemma ReadPairClean(scalar: string -> Value, st: Reader, kv: KeyValue, indent: nat)
    requires st.Reader? && CleanReader(st)
    requires OneLine(scalar(kv.raw)) && !scalar(kv.raw).Obj?
    ensures CleanReader(ReadPair(scalar, st, kv, indent))
  {
    PutKeepsClean(st.result, kv.key, Obj([]));
    PutKeepsClean(st.result, kv.key, scalar(kv.raw));
    if st.section.Some? {
      var section := Get(st.result, st.section.value);
      GetMember(st.result, st.section.value);
      if section.Some? && section.value.Obj? {
        PutKeepsClean(section.value.fields, kv.key, scalar(kv.raw));
        PutKeepsClean(st.result, st.section.value, Obj(Put(section.value.fields, kv.key, scalar(kv.raw))));
      }
    }
  }

  lemma MatchedIsSingleLine(trimmed: string)
    ensures MatchPair(trimmed).Some? ==> SingleLine(MatchPair(trimmed).value.raw)
  {
    if MatchPair(trimmed).Some? {
      TrimIsTrimmed(TrimStart(trimmed[IndexOf(trimmed, ':') + 1..]));
    }
  }

  lemma ReadTrimmedClean(scalar: string -> Value, st: Reader, trimmed: string, indent: nat)
    requires CleanReader(st)
    requires forall s :: SingleLine(s) ==> OneLine(scalar(s)) && !scalar(s).Obj?
    ensures CleanReader(ReadTrimmed(scalar, st, trimmed, indent))
  {
    MatchedIsSingleLine(trimmed);
    var kv := MatchPair(trimmed);
    if st.Reader? && kv.Some? {
      ReadPairClean(scalar, st, kv.value, indent);
    }
  }

  lemma {:induction false} ReadLinesClean(step: (Reader, string) -> Reader, st: Reader, lines: seq<string>)
    requires CleanReader(st)
    requires forall s: Reader, line: string :: CleanReader(s) ==> CleanReader(step(s, line))
    ensures CleanReader(ReadLines(step, st, lines))
  {
    if lines == [] {
    } else {
      ReadLinesClean(step, st, lines[..|lines| - 1]);
    }
  }

  /** No text is ever read into a string with a line terminator. */
  lemma ParsedIsClean(content: string)
    ensures Parse(content).Some? ==> CleanConfig(Parse(content).value)
  {
    forall s: string | SingleLine(s) ensures OneLine(ParseScalar(s)) && !ParseScalar(s).Obj? {
      ParsedScalarIsClean(s);
    }
    forall s: Reader, line: string | CleanReader(s) ensures CleanReader(ReadLine(s, line)) {
      ReadTrimmedClean(ParseScalar, s, Trim(line), |line| - |TrimStart(line)|);
    }
    ReadLinesClean(ReadLine, START, Lines(content));
  }

  // ---------------------------------------------------------- the round trip

  ghost predicate SectionSurvives(d: Dict) {
    forall f :: f in d ==> Survives(f.value)
  }

  ghost predicate ConfigSurvives(d: Dict) {
    forall f :: f in d ==> if f.value.Obj? then SectionSurvives(f.value.fields) else Survives(f.value)
  }

  ghost predicate ConfigOneLine(d: Dict) {
    forall f :: f in d ==>
      if f.value.Obj? then (forall g :: g in f.value.fields ==> OneLine(g.value)) else OneLine(f.value)
  }

  lemma SuffixIsSingleLine(v: Value)
    requires IsScalar(v) && OneLine(v)
    ensures SingleLine(Suffix(v))
  {
    if v.Int? {
      DigitsAreSingleLine(NatToString(if v.n < 0 then -v.n else v.n));
    }
  }

  lemma OneLineIsPrinted(d: Dict)
    requires TwoLevels(d) && ConfigOneLine(d)
    ensures SingleLineConfig(Suffix, d)
  {
    forall f | f in d ensures SingleLineField(Suffix, f) {
      if f.value.Obj? {
        forall g | g in f.value.fields ensures SingleLine(Suffix(g.value)) {
          SuffixIsSingleLine(g.value);
        }
      } else {
        SuffixIsSingleLine(f.value);
      }
    }
  }

  /** What reading makes of a printed configuration without line terminators, value by value. */
  lemma ParsePrinted(d: Dict)
    requires TwoLevels(d) && ConfigOneLine(d)
    ensures Parse(Serialize(d, 0)) == Some(MapValues(Top(ParseScalar, Suffix), d))
  {
    ReaderReadsPrinted();
    OneLineIsPrinted(d);
    ReadBody(ReadLine, START, Suffix, d, 0);
    ReadConfig(ReadLine, ParseScalar, Suffix, d);
  }

  lemma MapsToSelf(f: Value -> Value, d: Dict)
    ensures MapValues(f, d) == d <==> forall x :: x in d ==> f(x.value) == x.value
  {
    if MapValues(f, d) == d {
      forall x | x in d ensures f(x.value) == x.value {
        var i :| 0 <= i < |d| && d[i] == x;
        assert MapValues(f, d)[i] == x;
      }
    } else {
      var i :| 0 <= i < |d| && MapValues(f, d)[i] != d[i];
      assert d[i] in d;
    }
  }

  lemma SectionExactly(d: Dict)
    requires IsSection(d) && forall f :: f in d ==> OneLine(f.value)
    ensures MapValues(Nested(ParseScalar, Suffix), d) == d <==> SectionSurvives(d)
  {
    MapsToSelf(Nested(ParseScalar, Suffix), d);
    forall f | f in d ensures Nested(ParseScalar, Suffix)(f.value) == f.value <==> Survives(f.value) {
      NestedExactly(f.value);
    }
  }

  lemma ConfigExactly(d: Dict)
    requires TwoLevels(d) && ConfigOneLine(d)
    ensures MapValues(Top(ParseScalar, Suffix), d) == d <==> ConfigSurvives(d)
  {
    MapsToSelf(Top(ParseScalar, Suffix), d);
    forall f | f in d
      ensures Top(ParseScalar, Suffix)(f.value) == f.value <==>
              if f.value.Obj? then SectionSurvives(f.value.fields) else Survives(f.value)
    {
      if f.value.Obj? {
        SectionExactly(f.value.fields);
      } else {
        TopExactly(f.value);
      }
    }
  }

  lemma CleanIsOneLine(d: Dict)
    ensures CleanConfig(d) ==> ConfigOneLine(d)
    ensures ConfigSurvives(d) ==> ConfigOneLine(d)
  {
  }

  /**
   * The round trip, exactly: a configuration of at most two levels is read back from its print as
   * it was, keys in order, if and only if every one of its scalars survives.
   */
  lemma YamlRoundTripExactly(d: Dict)
    requires TwoLevels(d)
    ensures Parse(Serialize(d, 0)) == Some(d) <==> ConfigSurvives(d)
  {
    CleanIsOneLine(d);
    ParsedIsClean(Serialize(d, 0));
    if ConfigOneLine(d) {
      ParsePrinted(d);
      ConfigExactly(d);
    }
  }
}
