/**
 * The small YAML reader and printer of the user configuration (src/config/user-config.ts:369-445): two
 * levels, no escapes, scalars told apart by their shape.
 */
module SimpleYaml {
  import opened Collections
  import opened Text

  /** A configuration value. Fractional numbers are kept as the text they were read from. */
  datatype Value =
    | Null
    | Bool(b: bool)
    | Int(n: int)
    | Fraction(text: string)
    | Str(s: string)
    | Obj(fields: Dict)

  datatype Field = Field(key: string, value: Value)

  /** An object: its properties in insertion order. */
  type Dict = seq<Field>

  function Get(d: Dict, key: string): Option<Value> {
    if d == [] then None
    else if d[0].key == key then Some(d[0].value)
    else Get(d[1..], key)
  }

  /** Assignment to a property: in place if it is there, at the end if not. */
  function Put(d: Dict, key: string, v: Value): Dict {
    if d == [] then [Field(key, v)]
    else if d[0].key == key then [Field(key, v)] + d[1..]
    else [d[0]] + Put(d[1..], key, v)
  }

  ghost predicate DistinctKeys(d: Dict) {
    forall i, j :: 0 <= i < j < |d| ==> d[i].key != d[j].key
  }

  // ----------------------------------------------------------------- scalars

  predicate IsNumeral(s: string) {
    s != "" && AllDigits(s)
  }

  function Unsigned(s: string): string {
    if s != "" && s[0] == '-' then s[1..] else s
  }

  /** `^-?\d+$` */
  predicate IntShaped(s: string) {
    IsNumeral(Unsigned(s))
  }

  /** `^-?\d+\.\d+$` */
  predicate FractionShaped(s: string) {
    var u := Unsigned(s);
    '.' in u && IsNumeral(u[..IndexOf(u, '.')]) && IsNumeral(u[IndexOf(u, '.') + 1..])
  }

  function ParseInt(s: string): int
    requires IntShaped(s)
  {
    var n: int := ParseNat(Unsigned(s));
    if s[0] == '-' then -n else n
  }

  predicate WrappedIn(s: string, q: char) {
    s != "" && s[0] == q && s[|s| - 1] == q
  }

  /** A text that begins and ends with the same quote; a lone quote mark does both. */
  predicate Wrapped(s: string) {
    WrappedIn(s, '"') || WrappedIn(s, '\'')
  }

  function Unwrap(s: string): string
    requires Wrapped(s)
  {
    if |s| < 2 then "" else s[1..|s| - 1]
  }

  function ParseScalar(s: string): Value {
    if s == "true" then Bool(true)
    else if s == "false" then Bool(false)
    else if s == "null" || s == "~" then Null
    else if IntShaped(s) then Int(ParseInt(s))
    else if FractionShaped(s) then Fraction(s)
    else if Wrapped(s) then Str(Unwrap(s))
    else Str(s)
  }

  // ------------------------------------------------------------------ reader

  /** The reader's variables; Failed where the source throws on writing into a section that is no object. */
  datatype Reader = Reader(result: Dict, section: Option<string>) | Failed

  datatype KeyValue = KeyValue(key: string, raw: string)

  /** `^([^:]+):\s*(.*)$` on a trimmed line. */
  function MatchPair(trimmed: string): Option<KeyValue> {
    if ':' !in trimmed || trimmed[0] == ':' then None
    else
      var i := IndexOf(trimmed, ':');
      var value := TrimStart(trimmed[i + 1..]);
      if SingleLine(value) then Some(KeyValue(Trim(trimmed[..i]), Trim(value))) else None
  }

  /** One pair; the scalar reader is a parameter. */
  function ReadPair(scalar: string -> Value, st: Reader, kv: KeyValue, indent: nat): Reader
    requires st.Reader?
  {
    if indent == 0 then
      if kv.raw == "" then
        Reader(if Get(st.result, kv.key).Some? then st.result else Put(st.result, kv.key, Obj([])), Some(kv.key))
      else
        Reader(Put(st.result, kv.key, scalar(kv.raw)), None)
    else if st.section.Some? && indent >= 2 then
      var section := Get(st.result, st.section.value);
      if section.Some? && section.value.Obj? then
        st.(result := Put(st.result, st.section.value, Obj(Put(section.value.fields, kv.key, scalar(kv.raw)))))
      else Failed
    else st
  }

  function ReadTrimmed(scalar: string -> Value, st: Reader, trimmed: string, indent: nat): Reader {
    if st.Failed? || trimmed == "" || trimmed[0] == '#' then st
    else
      var kv := MatchPair(trimmed);
      if kv.None? then st else ReadPair(scalar, st, kv.value, indent)
  }

  function ReadLine(st: Reader, line: string): Reader {
    ReadTrimmed(ParseScalar, st, Trim(line), |line| - |TrimStart(line)|)
  }

  /** A line-by-line reader, given what one line does. */
  function ReadLines(step: (Reader, string) -> Reader, st: Reader, lines: seq<string>): Reader {
    if lines == [] then st else step(ReadLines(step, st, lines[..|lines| - 1]), lines[|lines| - 1])
  }

  const START := Reader([], None)

  function Parse(content: string): Option<Dict> {
    var st := ReadLines(ReadLine, START, Lines(content));
    if st.Failed? then None else Some(st.result)
  }

  /** What one pair does to the result; not ok where the source throws. */
  method StorePair(result: Dict, currentSection: Option<string>, key: string, rawValue: string, indent: nat)
    returns (ok: bool, r: Dict, section: Option<string>)
    ensures ReadPair(ParseScalar, Reader(result, currentSection), KeyValue(key, rawValue), indent) ==
            if ok then Reader(r, section) else Failed
  {
    ok, r, section := true, result, currentSection;
    if indent == 0 {
      if rawValue == "" {
        section := Some(key);
        if Get(r, key).None? {
          r := Put(r, key, Obj([]));
        }
      } else {
        section := None;
        r := Put(r, key, ParseScalar(rawValue));
      }
    } else if section.Some? && indent >= 2 {
      var target := Get(r, section.value);
      if target.None? || !target.value.Obj? {
        ok := false;
        return;
      }
      r := Put(r, section.value, Obj(Put(target.value.fields, key, ParseScalar(rawValue))));
    }
  }

  /** The loop body for one line. */
  method ReadOne(result: Dict, currentSection: Option<string>, line: string)
    returns (ok: bool, r: Dict, section: Option<string>)
    ensures ReadLine(Reader(result, currentSection), line) == if ok then Reader(r, section) else Failed
  {
    ok, r, section := true, result, currentSection;
    var trimmed := Trim(line);
    if trimmed == "" || trimmed[0] == '#' {
      return;
    }
    var indent := |line| - |TrimStart(line)|;
    var m := MatchPair(trimmed);
    if m.None? {
      return;
    }
    ok, r, section := StorePair(result, currentSection, m.value.key, m.value.raw, indent);
  }

  method ParseYamlSimple(content: string) returns (parsed: Option<Dict>)
    ensures parsed == Parse(content)
  {
    var result: Dict, currentSection: Option<string> := [], None;
    var lines := Lines(content);
    for i := 0 to |lines|
      invariant ReadLines(ReadLine, START, lines[..i]) == Reader(result, currentSection)
    {
      ReadLinesPush(ReadLine, START, lines, i);
      var ok;
      ok, result, currentSection := ReadOne(result, currentSection, lines[i]);
      if !ok {
        ReaderStaysFailed();
        FailedSoFar(ReadLine, START, lines, i + 1);
        return None;
      }
    }
    TakeAll(lines);
    return Some(result);
  }

  lemma ReadLinesPush(step: (Reader, string) -> Reader, st: Reader, lines: seq<string>, i: nat)
    requires i < |lines|
    ensures ReadLines(step, st, lines[..i + 1]) == step(ReadLines(step, st, lines[..i]), lines[i])
  {
    TakeNext(lines, i);
  }

  lemma {:induction false} ReadLinesAppend(step: (Reader, string) -> Reader, st: Reader, a: seq<string>, b: seq<string>)
    ensures ReadLines(step, st, a + b) == ReadLines(step, ReadLines(step, st, a), b)
  {
    if b == [] {
      AppendNothing(a);
    } else {
      assert (a + b)[..|a + b| - 1] == a + b[..|b| - 1];
      ReadLinesAppend(step, st, a, b[..|b| - 1]);
    }
  }

  ghost predicate StaysFailed(step: (Reader, string) -> Reader) {
    forall line: string :: step(Failed, line) == Failed
  }

  lemma {:induction false} FailedForGood(step: (Reader, string) -> Reader, lines: seq<string>)
    requires StaysFailed(step)
    ensures ReadLines(step, Failed, lines) == Failed
  {
    if lines == [] {
    } else {
      FailedForGood(step, lines[..|lines| - 1]);
    }
  }

  lemma FailedSoFar(step: (Reader, string) -> Reader, st: Reader, lines: seq<string>, i: nat)
    requires StaysFailed(step) && i <= |lines| && ReadLines(step, st, lines[..i]) == Failed
    ensures ReadLines(step, st, lines) == Failed
  {
    FailedForGood(step, lines[i..]);
    ReadLinesAppend(step, st, lines[..i], lines[i..]);
    assert lines[..i] + lines[i..] == lines;
  }

  lemma ReaderStaysFailed()
    ensures StaysFailed(ReadLine)
  {
  }

  // ----------------------------------------------------------------- printer

  const SPECIAL := ":#{}[],&*?|>!%@`"

  predicate NeedsQuote(s: string) {
    s == "" || exists c :: c in s && c in SPECIAL
  }

  function IntText(n: int): string {
    if n < 0 then "-" + NatToString(-n) else NatToString(n)
  }

  /** What the printer puts behind a key's colon; a section has only its colon. */
  function Suffix(v: Value): string {
    match v
    case Null => ""
    case Obj(_) => ""
    case Bool(b) => if b then " true" else " false"
    case Int(n) => " " + IntText(n)
    case Fraction(text) => " " + text
    case Str(s) => " " + if NeedsQuote(s) then "\"" + s + "\"" else s
  }

  function Spaces(n: nat): string {
    if n == 0 then "" else Spaces(n - 1) + " "
  }

  /**
   * The entries of the printer's line list, given what follows a colon: a section contributes its header and its body.
   */
  function Parts(suffix: Value -> string, d: Dict, indent: nat): seq<string>
    decreases d, 1
  {
    if d == [] then []
    else
      var f := d[|d| - 1];
      Parts(suffix, d[..|d| - 1], indent) + PartsOf(suffix, f, indent)
  }

  function PartsOf(suffix: Value -> string, f: Field, indent: nat): seq<string>
    decreases f, 0
  {
    var head := Spaces(indent) + f.key + ":" + suffix(f.value);
    if f.value.Obj? then [head, Print(suffix, f.value.fields, indent + 2)] else [head]
  }

  function Print(suffix: Value -> string, d: Dict, indent: nat): string
    decreases d, 2
  {
    Join(Parts(suffix, d, indent), "\n")
  }

  function Serialize(d: Dict, indent: nat): string {
    Print(Suffix, d, indent)
  }

  /** The loop body for one property. */
  method SerializeField(pad: string, f: Field, indent: nat) returns (parts: seq<string>)
    requires pad == Spaces(indent)
    ensures parts == PartsOf(Suffix, f, indent)
    decreases f, 0
  {
    match f.value {
      case Null =>
        parts := [pad + f.key + ":" + ""];
      case Obj(fields) =>
        var body := SerializeYamlSimple(fields, indent + 2);
        parts := [pad + f.key + ":" + "", body];
      case Str(s) =>
        parts := [pad + f.key + ":" + (" " + if NeedsQuote(s) then "\"" + s + "\"" else s)];
      case Bool(b) =>
        parts := [pad + f.key + ":" + if b then " true" else " false"];
      case Int(n) =>
        parts := [pad + f.key + ":" + (" " + IntText(n))];
      case Fraction(t) =>
        parts := [pad + f.key + ":" + (" " + t)];
    }
  }

  method SerializeYamlSimple(obj: Dict, indent: nat) returns (text: string)
    ensures text == Serialize(obj, indent)
    decreases obj, 1
  {
    var lines: seq<string> := [];
    var pad := Spaces(indent);
    for i := 0 to |obj|
      invariant lines == Parts(Suffix, obj[..i], indent)
    {
      TakeNext(obj, i);
      var parts := SerializeField(pad, obj[i], indent);
      lines := lines + parts;
    }
    TakeAll(obj);
    text := Join(lines, "\n");
  }
}
