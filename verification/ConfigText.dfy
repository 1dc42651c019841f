/**
 * What the texts of a configuration mean (src/config/user-config.ts:67-81, 309-335, 369-445, 481-487), said
 * without the reader's and the printer's own functions: the value of a typed text and of a text in the file, the
 * line printed for a value, the lines that are skipped, and what a load takes from the file.
 */
module ConfigText {
  import opened Collections
  import opened Text
  import opened SimpleYaml
  import opened YamlRoundTrip
  import opened YamlExact
  import opened UserConfig
  import opened ConfigPersistence
  import opened ConfigReload

  // ----------------------------------------------------------------- numbers

  predicate Digits(s: string) {
    s != "" && forall i :: 0 <= i < |s| ==> '0' <= s[i] <= '9'
  }

  /** Digits, with or without a minus sign. */
  ghost predicate Whole(s: string) {
    exists d :: Digits(d) && (s == d || s == "-" + d)
  }

  /** Digits on both sides of a point, with or without a minus sign. */
  ghost predicate Decimal(s: string) {
    exists a, b :: Digits(a) && Digits(b) && (s == a + "." + b || s == "-" + (a + "." + b))
  }

  lemma DigitsAreNumeral(s: string)
    ensures Digits(s) <==> IsNumeral(s)
  {
    if Digits(s) {
      forall c | c in s ensures IsDigit(c) {
        var i :| 0 <= i < |s| && s[i] == c;
      }
    }
    if IsNumeral(s) {
      forall i | 0 <= i < |s| ensures '0' <= s[i] <= '9' {
        assert s[i] in s;
      }
    }
  }

  lemma MinusIsDropped(u: string)
    ensures Unsigned("-" + u) == u
    ensures u != "" && IsDigit(u[0]) ==> Unsigned(u) == u
  {
    assert ("-" + u)[1..] == u;
  }

  lemma Signed(s: string)
    ensures s == Unsigned(s) || s == "-" + Unsigned(s)
  {
  }

  lemma WholeExactly(s: string)
    ensures IntShaped(s) <==> Whole(s)
  {
    if IntShaped(s) {
      DigitsAreNumeral(Unsigned(s));
      Signed(s);
    }
    if Whole(s) {
      var d :| Digits(d) && (s == d || s == "-" + d);
      DigitsAreNumeral(d);
      MinusIsDropped(d);
    }
  }

  lemma PointBetween(a: string, b: string, u: string)
    requires Digits(a) && Digits(b) && u == a + "." + b
    ensures '.' in u && IsNumeral(u[..IndexOf(u, '.')]) && IsNumeral(u[IndexOf(u, '.') + 1..]) && IsDigit(u[0])
    ensures !IsNumeral(u)
  {
    DigitsAreNumeral(a);
    DigitsAreNumeral(b);
    IndexOfFirst(a, '.', b);
    assert u[|a|] == '.' && u[..|a|] == a && u[|a| + 1..] == b;
  }

  lemma DecimalExactly(s: string)
    ensures FractionShaped(s) <==> Decimal(s)
    ensures Decimal(s) ==> !Whole(s)
  {
    WholeExactly(s);
    var u := Unsigned(s);
    if FractionShaped(s) {
      var i := IndexOf(u, '.');
      Around(u, i);
      DigitsAreNumeral(u[..i]);
      DigitsAreNumeral(u[i + 1..]);
      Signed(s);
      assert u == u[..i] + "." + u[i + 1..];
    }
    if Decimal(s) {
      var a, b :| Digits(a) && Digits(b) && (s == a + "." + b || s == "-" + (a + "." + b));
      PointBetween(a, b, a + "." + b);
      MinusIsDropped(a + "." + b);
    }
  }

  function Zeros(k: nat): string {
    seq(k, _ => '0')
  }

  lemma TenTimes(d: string, init: string, last: char, k: nat, m: nat, n: nat)
    requires d == init + [last] && init == Zeros(k) + NatToString(m) && IsDigit(last)
    requires n == 10 * m + DigitValue(last)
    ensures d == (if m == 0 then Zeros(k + 1) else Zeros(k)) + NatToString(n)
  {
    assert DigitChar(DigitValue(last)) == last;
    if m == 0 {
      assert NatToString(0) == ['0'];
      assert Zeros(k) + ['0'] == Zeros(k + 1);
    } else {
      assert NatToString(n) == NatToString(m) + [last];
    }
  }

  lemma OneDigit(d: string)
    requires |d| == 1 && IsDigit(d[0])
    ensures d == Zeros(0) + NatToString(DigitValue(d[0])) && ParseNat(d) == DigitValue(d[0])
  {
    assert d[..0] == "" && d == [DigitChar(DigitValue(d[0]))];
    assert Zeros(0) == "";
  }

  lemma LastDigit(d: string, init: string, last: char)
    requires d == init + [last] && AllDigits(d)
    ensures IsDigit(last) && AllDigits(init) && ParseNat(d) == 10 * ParseNat(init) + DigitValue(last)
  {
    assert last in d && forall c :: c in init ==> c in d;
    assert d[..|d| - 1] == init;
  }

  /** Every run of digits is a number in the decimal system, after any zeros. */
  lemma {:induction false} DigitsAreNumber(d: string) returns (k: nat, n: nat)
    requires IsNumeral(d)
    ensures d == Zeros(k) + NatToString(n) && ParseNat(d) == n
  {
    var init, last := d[..|d| - 1], d[|d| - 1];
    assert d == init + [last];
    LastDigit(d, init, last);
    if init == "" {
      OneDigit(d);
      k, n := 0, DigitValue(last);
    } else {
      var j, m := DigitsAreNumber(init);
      k, n := if m == 0 then j + 1 else j, 10 * m + DigitValue(last);
      TenTimes(d, init, last, j, m, n);
    }
  }

  /** The digits of a number are what they are in the decimal system. */
  lemma DecimalSystem()
    ensures NatToString(0) == "0" && NatToString(9) == "9" && NatToString(10) == "10" && NatToString(1982) == "1982"
    ensures IntText(-307) == "-307"
  {
    assert NatToString(1) == "1" && NatToString(3) == "3";
    assert NatToString(19) == "19" && NatToString(30) == "30";
    assert NatToString(198) == "198";
  }

  // ------------------------------------------------------------ typed values

  lemma KeywordIsNoNumber(s: string)
    requires Keyword(s)
    ensures !IntShaped(s) && !FractionShaped(s)
  {
    assert s[0] in s && !IsDigit(s[0]);
    assert Unsigned(s) == s;
    assert '.' !in s;
  }

  /** What a typed text means, for every text: nothing is trimmed or unquoted. */
  lemma TypedExactly(s: string)
    ensures s == "true" ==> ParseValue(s) == Bool(true)
    ensures s == "false" ==> ParseValue(s) == Bool(false)
    ensures s == "null" ==> ParseValue(s) == Null
    ensures Whole(s) <==> ParseValue(s).Int?
    ensures Decimal(s) <==> ParseValue(s) == Fraction(s)
    ensures s != "true" && s != "false" && s != "null" && !Whole(s) && !Decimal(s) ==> ParseValue(s) == Str(s)
  {
    WholeExactly(s);
    DecimalExactly(s);
    if Keyword(s) {
      KeywordIsNoNumber(s);
    }
  }

  lemma NumeralHead(s: string)
    requires IsNumeral(s)
    ensures IntShaped(s) && ParseInt(s) == ParseNat(s) && !Keyword(s)
    ensures IntShaped("-" + s) && ParseInt("-" + s) == -(ParseNat(s) as int) && !Keyword("-" + s)
  {
    assert s[0] in s;
    MinusIsDropped(s);
    NotKeyword(s);
    NotKeyword("-" + s);
  }

  lemma IntRead(s: string)
    requires IntShaped(s) && !Keyword(s)
    ensures ParseValue(s) == Int(ParseInt(s)) == ParseScalar(s)
  {
    ParseNotKeyword(s);
  }

  lemma NumberRead(d: string, minus: string, n: nat)
    requires IsNumeral(d) && ParseNat(d) == n && minus == "-" + d
    ensures ParseValue(d) == Int(n) && ParseValue(minus) == Int(-(n as int))
    ensures ParseScalar(d) == Int(n) && ParseScalar(minus) == Int(-(n as int))
  {
    NumeralHead(d);
    IntRead(d);
    IntRead(minus);
  }

  /** Leading zeros do not matter, a minus sign negates, and every run of digits is such a number. */
  lemma TypedNumber(d: string) returns (k: nat, n: nat)
    requires Digits(d)
    ensures d == Zeros(k) + NatToString(n)
    ensures ParseValue(d) == Int(n) && ParseValue("-" + d) == Int(-(n as int))
    ensures ParseScalar(d) == Int(n) && ParseScalar("-" + d) == Int(-(n as int))
  {
    DigitsAreNumeral(d);
    k, n := DigitsAreNumber(d);
    NumberRead(d, "-" + d, n);
  }

  /** A text that gives the value when it is typed, if any does. */
  function TextOf(v: Value): string
    requires Flat(v)
  {
    match v
    case Null => "null"
    case Bool(b) => if b then "true" else "false"
    case Int(n) => IntText(n)
    case Fraction(text) => text
    case Str(s) => s
  }

  /** The values that can be typed: a string only when it does not spell a keyword or a number. */
  ghost predicate Typeable(v: Value) {
    match v
    case Str(s) => s != "true" && s != "false" && s != "null" && !Whole(s) && !Decimal(s)
    case Fraction(text) => Decimal(text)
    case Obj(_) => false
    case _ => true
  }

  /** Typing the text of a value gives the value, exactly when it can be typed; no other text gives it then. */
  lemma TextGivesValue(v: Value)
    requires Flat(v)
    ensures ParseValue(TextOf(v)) == v <==> Typeable(v)
  {
    TypedExactly(TextOf(v));
    if v.Int? {
      IntBack(v.n);
    }
  }

  // --------------------------------------------------------- values in a file

  /** What a trimmed text behind a colon means: as typed, but for a tilde and for quotes, which are taken off once. */
  lemma ScalarExactly(s: string)
    ensures s == "~" ==> ParseScalar(s) == Null
    ensures s == "\"" || s == "'" ==> ParseScalar(s) == Str("")
    ensures s != "~" && (s == "" || (s[0] != '"' && s[0] != '\'') || s[|s| - 1] != s[0]) ==>
              ParseScalar(s) == ParseValue(s)
  {
    ParseNotKeyword(s);
    if s == "\"" {
      QuotedNotNumber(s);
      assert s[1..|s|] == "";
    } else if s == "'" {
      assert Unsigned(s) == s && s[0] in s && !IsDigit(s[0]) && '.' !in s;
    }
  }

  lemma SingleQuoted(t: string)
    ensures ParseScalar("'" + t + "'") == Str(t)
  {
    var s := "'" + t + "'";
    assert s[0] == '\'' && s[|s| - 1] == '\'' && s[1..|s| - 1] == t;
    NotKeyword(s);
    ParseNotKeyword(s);
    assert Unsigned(s) == s && s[0] in s && !IsDigit(s[0]);
    if '.' in s {
      var u := s[..IndexOf(s, '.')];
      assert u != "" ==> u[0] == s[0] && u[0] in u;
    }
  }

  /** Quotes of either kind are taken off, whatever is between them. */
  lemma QuotedScalar(t: string)
    ensures ParseScalar("\"" + t + "\"") == Str(t) && ParseScalar("'" + t + "'") == Str(t)
  {
    QuotedBack(t, "\"" + t + "\"");
    SingleQuoted(t);
  }

  // ---------------------------------------------------- set, get and load again

  /** The text of a value set under any key is that value in memory. */
  lemma SetText(d: Dict, key: string, v: Value)
    requires Typeable(v)
    ensures GetPath(Some(Obj(SetPath(d, Split(key, '.'), ParseValue(TextOf(v))))), Split(key, '.')) == Some(v)
  {
    TextGivesValue(v);
    GetAfterSet(d, Split(key, '.'), v);
  }

  /** And it is what a fresh load reads under a two-segment key, exactly when it survives. */
  lemma SetTextReload(file: Option<string>, section: string, key: string, v: Value)
    requires WithoutFractions(file) && WellFormedKey(section) && WellFormedKey(key) && Typeable(v) && !v.Fraction?
    ensures GetPath(Reloaded(Loaded(file), section, key, ParseValue(TextOf(v))), [section, key]) == Some(v) <==>
            Survives(v)
  {
    TextGivesValue(v);
    SetReloadGetAny(file, section, key, TextOf(v), section, key);
  }

  /** A boolean or a whole number that was set is read as itself, in memory and after a fresh load. */
  lemma SwitchesAndNumbers(file: Option<string>, section: string, key: string, b: bool, n: int)
    requires WithoutFractions(file) && WellFormedKey(section) && WellFormedKey(key)
    ensures GetPath(Reloaded(Loaded(file), section, key, ParseValue(if b then "true" else "false")), [section, key]) ==
            Some(Bool(b))
    ensures GetPath(Reloaded(Loaded(file), section, key, ParseValue(IntText(n))), [section, key]) == Some(Int(n))
  {
    SetTextReload(file, section, key, Bool(b));
    SetTextReload(file, section, key, Int(n));
  }
}
